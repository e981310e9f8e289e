# Contact manager: a Dafny model of its core

The repository is a small address book (姓名, 電話, 電子郵件, 地址 — name,
phone, email and address), with a Tk and a Qt front end. This project
models the part that does something besides drawing widgets:

- **Contact store** (`models.dfy`, module `Models`). A `Contact` truncates
  each of its four fields to 10, 15, 20 and 50 characters. An
  `AddressBook` keeps an ordered list of contacts. Every successful add,
  update or delete rewrites its backing file with the list of the
  contacts' `to_dict` dictionaries. The file is a field of the class: a
  list of string-to-string maps, or `None` while no file exists. The
  checks of `add_contact` are a function, `CheckAdd`, with a fixed order:
  empty fields (all of them listed), then an exact duplicate name, then
  the first raw field over its cap. The four methods are proved against
  `CheckAdd` and the other specification functions.
- **Python string built-ins** (`text.dfy`, module `Text`). `str.strip`
  with the full whitespace set of `str.isspace`, `str.lower`, filtering
  through `str.isdigit`, `in` on strings, `', '.join` and slicing.
- **Tk start-up** (`address_book_gui.dfy`, module `AddressBookGui`). The
  thirty test records, `initialize_test_data`, and the application's
  `AddressBook` constructor, which seeds those records when loading
  leaves the list empty. The `Contact` and `AddressBook` of
  `address_book_gui.py` are models.py's, with two additions: the constructor
  seeds the test data (184-186), and the class has `initialize_test_data`
  (188-229). Apart from those, the copy differs only in return-type
  annotations. It is modelled once, in `Models`, and the two additions in
  `AddressBookGui`.
- **Tk window** (`gui.dfy`, module `Gui`). `format_phone_number`, the sort
  state machine (`current_sort`, `sort_reverse` and the status label),
  `current_sort_key`, and the table rows with their `oddrow` tags. The
  table is a class, `ContactTable`. A row sort is the sort of the pairs
  `(value, item id)` under Python's string order, and is proved to yield
  the unique ordered permutation.
- **Qt dialog** (`qt_dialogs.dfy`, module `QtDialogs`). `ContactDialog`
  as a class holding the four texts of its line edits. The phone filter
  fires again, as the `textChanged` signal does, on the text it sets
  itself. Also modelled: `get_contact_data`, `validate_inputs` with its
  warnings, and the `accept` gate.
- **Rounded widgets** (`widgets.dfy`, module `Widgets`). The keystroke
  check `_validate_phone` and the twelve-point outline of
  `create_rounded_rect`. `RoundedEntry` and `RoundedButton` hold
  identical copies of that routine, as the Tk entry in
  `address_book_gui.py` does of the phone check, so each is defined once.

Tk item ids, which Tk generates, are parameters.

## Model

| member | source | states |
|---|---|---|
| Text.Strip | models.py:44-50 | only whitespace is cut off, and only at the two ends; none is left at either end of the result; the result is empty exactly when the input is all whitespace |
| Text.StripOfIsUnique | qt_dialogs.py:100-103 | at most one string is what stripping leaves of a text, so the contract of `Strip` determines its result |
| Text.StripIdempotent | qt_dialogs.py:100-103 | stripping a stripped text changes nothing |
| Text.Truncate | models.py:12-15 | `s[:n]` is a prefix of `s` whose length is the smaller of the length of `s` and `n` |
| Text.Digits | qt_dialogs.py:94 | the digit filtering holds only digits and is no longer than its input |
| Text.DigitsConcat | gui.py:326 | filtering a concatenation filters each part |
| Text.DigitsOfDigitsOnly | qt_dialogs.py:94-95 | filtering leaves a text unchanged exactly when it is digits only |
| Text.DigitsShortens | qt_dialogs.py:95-96 | a filtering that changes the text makes it strictly shorter, so the re-fired phone signal comes to rest |
| Text.DigitsIdempotent | qt_dialogs.py:94 | filtering twice is filtering once |
| Text.Lower | models.py:102-118 | `str.lower()`: each character is lowered on its own, so the length is kept and position `i` holds the lowered character `i` |
| Text.Contains | models.py:106-118 | Python's `needle in hay`: `needle` starts at some position of `hay`, the empty string occurring everywhere |
| Text.ContainsBounds | models.py:106-118 | a prefix of the text occurs in it, and nothing longer than the text does |
| Text.Join | models.py:54 | `sep.join(parts)`: the first part leads, and the length is the parts' lengths plus one separator fewer than there are parts |
| Models.NewContact | models.py:11-15 | each stored field is a prefix of its argument of length min(argument, cap) for the caps 10/15/20/50; arguments within their caps are stored unchanged |
| Models.ToDict | models.py:17-23 | the dictionary has exactly the keys name, phone, email, address, holding the four fields |
| Models.FromDict | models.py:35 | `Contact(**d)` exists exactly when `d` has exactly the four keys; its fields are prefixes of the values within the caps, each the value cut to its cap as `Contact(name, phone, email, address)` does |
| Models.DictRoundTrip | models.py:17-35 | `Contact(**c.to_dict())` gives back every contact that is within the caps |
| Models.Save | models.py:37-39 | the file holds one `to_dict` dictionary per contact, in list order |
| Models.Load | models.py:31-35 | loading succeeds exactly when every entry has the four keys, and then gives one capped contact per entry, in file order |
| Models.SaveLoadRoundTrip | models.py:31-39 | loading what was saved gives back the same list |
| Models.EmptyText | models.py:44 | `not s or len(s.strip()) == 0` holds exactly when `s` is all whitespace |
| Models.FlaggedFields | models.py:43-51 | a field is listed exactly when its check was true |
| Models.FlaggedFieldsInOrder | models.py:43-51 | the listed fields come in the order name, phone, email, address |
| Models.EmptyFields | models.py:43-51 | the listed fields are exactly the blank raw fields, in field order |
| Models.FirstOverCap | models.py:59-66 | absent exactly when every raw field is within its cap; otherwise the named field is over its cap and every earlier field is within its own |
| Models.CheckAdd | models.py:41-66 | accepted exactly when no field is blank, the raw name is new and every raw field is within its cap; blank fields are reported first, all of them and in order, then a duplicate name, then the first field over its cap |
| Models.AddMessage | models.py:52-71 | the message that goes with each verdict; the success text comes exactly with an accepted contact |
| Models.AddAccepted | models.py:68-69 | an accepted input is stored exactly as given, and the list stays within the caps and keeps its names distinct |
| Models.AddKeepsNamesDistinct | models.py:56 | because of the duplicate check, a successful add keeps the names pairwise distinct |
| Models.ReplaceKeepsInvariants | models.py:74-81 | an in-place update that keeps the name preserves distinct names and the caps |
| Models.RemoveKeepsInvariants | models.py:93 | removing one contact preserves distinct names and the caps |
| Models.UpdateFields | models.py:76-81 | each supplied field is replaced by its argument cut to the cap; the name and the unsupplied fields are kept |
| Models.FirstWithName | models.py:74-75 | the position of the first contact with exactly that name, absent when there is none |
| Models.StrippedNames | models.py:90 | the stripped name of each contact, in list order |
| Models.IndicesOf | models.py:90 | every position holding the key is listed, only those, in increasing order |
| Models.IndicesOfHead | models.py:92-93 | the list is empty exactly when the key is absent; its head is the first position holding the key |
| Models.Hits | models.py:105-120 | the hits are never more than the contacts |
| Models.HitsAreTheMatches | models.py:105-122 | a contact is a hit exactly when it matches the query in the chosen field (any of the four for 全欄位); each matching contact appears as many times as in the store, and the hits keep store order |
| Models.SearchHit | models.py:105-120 | the condition of each search type: the lower-cased field contains the query for the four labels, any of the four for 全欄位, nothing otherwise |
| Models.AllFieldsIsAnyField | models.py:113-119 | a 全欄位 search keeps a contact exactly when a search of one of its four fields would |
| Models.SearchResults | models.py:98-122 | nothing for an empty query; otherwise exactly the contacts that match the lower-cased query, in store order |
| Models.UnknownSearchTypeFindsNothing | models.py:105-120 | an unrecognised search type finds nothing |
| Models.AddressBook.constructor | models.py:26-29 | a new book starts empty and then holds the file's contacts, if there is a file |
| Models.AddressBook.LoadContacts | models.py:31-35 | with a well-formed file the list becomes its contents; with no file, or one that raises, nothing changes |
| Models.AddressBook.SaveContacts | models.py:37-39 | the file becomes the saved form of the whole list |
| Models.AddressBook.AddContact | models.py:41-71 | success and message follow `CheckAdd`; on success exactly the raw input is appended and the file rewritten; otherwise list and file are unchanged; distinct names stay distinct |
| Models.AddressBook.UpdateContact | models.py:73-84 | succeeds exactly when some contact has the name; only the first such contact changes, as `UpdateFields` says, and the file is rewritten; otherwise list, file and message as in the source |
| Models.AddressBook.DeleteContact | models.py:86-96 | succeeds exactly when some stripped name equals the stripped argument; removes the first such contact, keeping the others' order, and rewrites the file; otherwise nothing changes; distinct names stay distinct |
| Models.AddressBook.SearchContacts | models.py:98-122 | the loop returns the search results: nothing for an empty query, otherwise the hits for the lower-cased query |
| Gui.FormatPhoneNumber | gui.py:324-329 | the output has the input's digits, in order, and nothing but digits and dashes; exactly ten digits give 12 characters with dashes at positions 4 and 8; any other count gives just the digits |
| Gui.FormatIdempotent | address_book_gui.py:532-537 | formatting a formatted number changes nothing |
| Gui.ColumnField | gui.py:488-493 | exactly the four column headings name a field, and the field's label is the heading |
| Gui.CurrentSortKey | gui.py:486-494 | a heading maps to its field's attribute name; anything else maps to "name" |
| Gui.CurrentSortKeyPicksColumn | gui.py:486-494 | looking the key up in `to_dict` gives the value the column shows |
| Gui.Toggle | gui.py:463-467 | a click on the sort column flips the direction; a click on another column makes it the sort column, ascending |
| Gui.ToggleTwice | gui.py:463-464 | two clicks on the sort column restore the state |
| Gui.NewColumnThenSame | gui.py:463-467 | a new column clicked twice is sorted descending |
| Gui.SortLabel | gui.py:456-471 | the label text: "目前排序方式：預設" for the default order, otherwise the column and 升序 or 降序 |
| Gui.SortLabelShowsState | gui.py:456-471 | two reachable sort states that show the same label are the same state |
| Gui.StrLess | gui.py:477 | Python's `<` on strings: code point by code point, a proper prefix first |
| Gui.KeyLess | gui.py:474-477 | Python's `<` on the pairs `(value, item id)`: by value, then by id |
| Gui.StrLessIrreflexive | gui.py:477 | Python's string `<` is irreflexive |
| Gui.StrLessTransitive | gui.py:477 | Python's string `<` is transitive |
| Gui.StrLessTotal | gui.py:477 | of two different strings exactly one is the smaller |
| Gui.KeyLessTransitive | gui.py:474-477 | the order on `(value, id)` pairs is transitive |
| Gui.KeyLessTotal | gui.py:474-477 | rows with different ids are ordered one way or the other, never both |
| Gui.Insert | gui.py:477 | insertion adds exactly the one row |
| Gui.InsertKeepsOrder | gui.py:477 | inserting into ordered rows keeps them ordered |
| Gui.InsertKeepsIdsDistinct | gui.py:477 | inserting a new id keeps the ids distinct |
| Gui.SortRows | gui.py:474-477 | the sorted rows are a permutation of the rows |
| Gui.SortRowsOrdered | gui.py:474-477 | the sort orders the rows by `(value, id)`, reversed when asked, and keeps their ids distinct |
| Gui.OrderedPermutationUnique | gui.py:477 | an ordered permutation of rows with distinct ids is unique, so any correct sort gives `SortRows` |
| Gui.Tabulated | gui.py:229-236 | one row per contact in store order, with the row at odd index tagged |
| Gui.Retagged | gui.py:480-484 | rows keep their places and ids; exactly those at odd indices get `oddrow` |
| Gui.RetaggedKeepsOrder | gui.py:480-484 | retagging keeps the sort order and the distinct ids |
| Gui.RetagRows | gui.py:480-484 | the move-and-retag loop produces the retagged rows |
| Gui.SortedRowsFacts | gui.py:474-484 | after the sort and the retagging the rows are ordered, with distinct ids and alternate tags |
| Gui.RefreshStateAsWritten | gui.py:238-240 | the sort state a refresh leaves: a sorted table's state toggled on its own column, the default order unchanged |
| Gui.RefreshFlipsDirection | gui.py:238-240 | as written, each refresh of a sorted table reverses its direction, and two refreshes restore it |
| Gui.RefreshAfterOneClick | gui.py:238-240 | after one click on 姓名 the table is ascending, and the next refresh shows it descending |
| Gui.ContactTable.constructor | gui.py:19-20 | the table starts in the default order, ascending, with no rows |
| Gui.ContactTable.ApplySort | gui.py:473-484 | the rows become the retagged sort of the old rows for the current state: ordered, with distinct ids and alternate tags |
| Gui.ContactTable.SortContacts | gui.py:461-484 | the state is toggled by the click, the label shows it, and the rows come out in the new order, retagged |
| Gui.ContactTable.InsertRows | gui.py:222-236 | the table is cleared, then holds one row per contact, in store order, with alternate tags |
| Gui.ContactTable.RefreshContactListAsWritten | gui.py:220-240 | from any table, search hits included, the rows are rebuilt and, for a sorted table, re-sorted with the direction flipped |
| Gui.ContactTable.RefreshContactList | gui.py:220-240 | corrected: from any table, search hits included, the rows are rebuilt and put back into the current order, and the state and label do not change |
| Gui.ContactTable.ResetSort | gui.py:452-459 | from any table, search hits included, the state becomes the default, ascending, and the rows are rebuilt in store order |
| Widgets.ValidatePhone | widgets.py:59-66 | the empty text is allowed; a text is allowed exactly when it is made of 0-9 only |
| Widgets.ValidatePhoneMeansDigitsOnly | address_book_gui.py:124-131 | the check allows exactly the texts that digit filtering leaves unchanged |
| Widgets.ValidatePhoneConcat | widgets.py:63-64 | a text is allowed exactly when both of its parts are |
| Widgets.RoundedRectOutline | widgets.py:115-130 | twelve points, starting at (x1 + radius, y1) and ending at (x1, y1) |
| Widgets.Flatten | widgets.py:43-56 | the flat list holds each point's x and y, in order |
| Widgets.RoundedRectPoints | widgets.py:42-57 | 24 coordinates, starting with x1 + radius, y1 and ending with x1, y1 |
| Widgets.RoundedRectCoordinates | widgets.py:44-56 | every x is one of x1, x1 + radius, x2 - radius, x2, and every y one of y1, y1 + radius, y2 - radius, y2 |
| Widgets.RoundedRectEdgesAxisAligned | widgets.py:44-56 | every side of the outline, the closing one included, is horizontal or vertical |
| Widgets.Translated | widgets.py:43-56 | every point moved by the same offset |
| Widgets.RoundedRectTranslates | widgets.py:42-57 | moving the box moves the outline with it |
| QtDialogs.ContactData | qt_dialogs.py:98-104 | each field is its edit's text stripped: only whitespace cut off, at the two ends, none left at either end, empty exactly when the text is blank |
| QtDialogs.StrippedDataIsUnique | qt_dialogs.py:98-104 | data whose every field is stripped from its text, in that sense, is `ContactData` of the texts: the contract pins the result down |
| QtDialogs.ContactDataIdempotent | qt_dialogs.py:98-104 | stripping data that is already stripped changes nothing |
| QtDialogs.StrippedEmptyText | qt_dialogs.py:110-113 | on stripped text, `not s` and `add_contact`'s blank test agree |
| QtDialogs.MissingInputs | qt_dialogs.py:108-113 | exactly the empty fields, in the order name, phone, email, address |
| QtDialogs.MissingInputsOfStripped | qt_dialogs.py:107-113 | on stripped data, the dialog reports empty exactly the fields `add_contact` would |
| QtDialogs.DialogCheck | qt_dialogs.py:106-138 | passes exactly when every field is non-empty and within 10/15/20/50; empty fields are reported first, all of them in field order; otherwise the first field over its cap; never a duplicate name |
| QtDialogs.DialogCheckChain | qt_dialogs.py:115-136 | the verdict is the chain of early returns: the empty fields, else the four length checks in field order |
| QtDialogs.DialogCheckPasses | qt_dialogs.py:106-138 | the edits' texts pass exactly when none is blank and their stripped forms are within the caps |
| QtDialogs.ChecksAgree | qt_dialogs.py:106-138 | on data whose empty and blank fields coincide, the dialog reports the same missing fields as `add_contact`; data that passes the dialog fails in `add_contact` only on a duplicate name, and is stored unchanged |
| QtDialogs.CollectEmptyFields | qt_dialogs.py:108-113 | the appends produce the labels of exactly the empty fields, in field order |
| QtDialogs.DialogWarning | qt_dialogs.py:115-135 | the warning text for each verdict of the dialog's checks |
| QtDialogs.MissingWarning | qt_dialogs.py:115-121 | the empty fields' labels after "以下欄位為必填：", joined with ", " |
| QtDialogs.MissingWarningIsAddMessage | qt_dialogs.py:115-121 | the dialog warns of empty fields in the same words as `add_contact` |
| QtDialogs.TooLongWarning | qt_dialogs.py:124-135 | the four length warnings |
| QtDialogs.TooLongWarningNamesCap | qt_dialogs.py:124-135 | each length warning names the field's label and the cap `Contact` applies to it |
| QtDialogs.ContactDialog.GetContactData | qt_dialogs.py:98-104 | the data is the stripped texts of the four edits |
| QtDialogs.ContactDialog.constructor | qt_dialogs.py:47-79 | edit mode exactly when a contact is given; the edits hold that contact's fields, or are empty; not accepted |
| QtDialogs.ContactDialog.ValidatePhone | qt_dialogs.py:92-96 | digit-only text leaves the phone edit as it was; any other text is replaced by its digit filtering |
| QtDialogs.ContactDialog.Edit | qt_dialogs.py:50-61 | the name edit is read-only in edit mode; a phone edit ends as the digit filtering of the typed text; any other edit takes the text; nothing else changes |
| QtDialogs.ContactDialog.ValidateInputs | qt_dialogs.py:106-138 | returns true exactly when `DialogCheck` passes on the current data; otherwise it gives that verdict's warning text |
| QtDialogs.ContactDialog.Accept | qt_dialogs.py:140-142 | the dialog is accepted exactly when the inputs pass, and otherwise keeps its state and shows the warning |
| AddressBookGui.TestRecord | address_book_gui.py:189-220 | the record at each position of the thirty-entry list; `TestContacts` holds them in that order |
| AddressBookGui.TestNamesDistinct | address_book_gui.py:189-220 | the thirty test names are pairwise distinct |
| AddressBookGui.TestDataAddable | address_book_gui.py:189-227 | each test record passes every check of `add_contact` against the records before it |
| AddressBookGui.TestDataReloads | address_book_gui.py:184-186 | the saved test data loads back as the same nonempty list, so a later start does not re-seed |
| AddressBookGui.AddEach | address_book_gui.py:226-227 | adding records that each pass, to an empty list, leaves the list equal to them and the file holding them |
| AddressBookGui.InitializeTestData | address_book_gui.py:188-229 | the list ends up being exactly the thirty records, in source order, with distinct names, and the file holds them |
| AddressBookGui.NewAddressBook | address_book_gui.py:179-186 | a nonempty file is loaded as it is; otherwise the book holds the thirty test records and the file is written |

## Left out

- File I/O and JSON. The file is the `file` field, holding its list of dictionaries; the JSON text, `ensure_ascii` and indentation are not modelled.
- A file that exists but cannot be parsed as JSON is not modelled. An entry without exactly the four keys makes `Contact(**entry)` raise. `Models.AddressBook.constructor` and `AddressBookGui.NewAddressBook` therefore require a well-formed file, and `Models.AddressBook.LoadContacts` reports it with `ok == false` and changes nothing.
- Text.Lower: `str.lower` is modelled for ASCII, Latin-1 and full-width Latin capitals only. Every other character is kept unchanged, including the capitals of Latin Extended, Greek and Cyrillic.
- Text.Digits: `str.isdigit` is modelled as '0' to '9'. Python also accepts other Unicode digits, such as superscripts.
- Widgets, message boxes, styles, layouts, fonts, colours, focus and hover handlers of Tk and Qt. A warning box is modelled as the text it would show. A Qt warning is the `warning` result of `QtDialogs.ContactDialog.ValidateInputs`. A Tk `_validate_phone` warning is not modelled; only its verdict is.
- `QDialog.accept` is modelled as the `accepted` flag.
- The dialogs of gui.py that read the entries and call the store are not modelled. The store operations themselves are.
- qt_gui.py is not part of this model. That includes `on_header_clicked`, which leaves sorting to `QTableWidget.sortItems`.
- main.py is not part of this model.
- constants.py, qt_constants.py and address_book_main.py are not part of this model: they are configuration and start-up wiring.
- The `print` at the end of `initialize_test_data` is not modelled.
- Canvas placement with floating-point division, such as `width/2`, is not modelled. The outline is computed over integers.
- Contacts are values. Python shares `Contact` objects between the list and the dialogs, so `update_contact` changes the contact in place; here the list gets a new value at that position. The stored result is the same.
- Tk's item ids are generated by Tk. They are parameters here, required to be pairwise distinct.
- `address_book_gui.py`'s copies of `Contact`, `AddressBook` (158-323), `format_phone_number` (532-537) and `_validate_phone` (124-131) are each defined once, in `Models`, `Gui` and `Widgets`. The `AddressBook` copy adds the seeding in its constructor (184-186) and `initialize_test_data` (188-229), which `AddressBookGui` models. Otherwise the copies differ only in their return-type annotations.
- Models.Hits: its own contract bounds only the length. Contents and order are stated by `Models.HitsAreTheMatches`.

## Findings

| source | as written | input that shows it | evidently intended | confidence | as-written member | corrected member |
|---|---|---|---|---|---|---|
| gui.py:238-240 | `refresh_contact_list` re-applies a sort by calling `sort_contacts(self.current_sort)`. That call toggles `sort_reverse` because the column equals the current one, so every add, edit or delete flips the table's direction | click 姓名 once (ascending), then add a contact: the table is shown descending | rebuild the rows and put them back into the current order, leaving the direction and label as they were (the comment at gui.py:238 says "re-apply the sort") | not executed | Gui.ContactTable.RefreshContactListAsWritten | Gui.ContactTable.RefreshContactList |
