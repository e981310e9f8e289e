/** The Qt contact dialog: four line edits, a phone edit that keeps only
    digits as the user types, and the validation that decides whether the
    dialog may close with "save". */
module QtDialogs {
  import opened Text
  import opened Models

  /** `c` with the text of field `f` replaced by `v`. */
  function WithField(c: Contact, f: Field, v: string): (r: Contact)
    ensures r.Get(f) == v
    ensures forall g: Field :: g != f ==> r.Get(g) == c.Get(g)
  {
    match f
    case Name => c.(name := v)
    case Phone => c.(phone := v)
    case Email => c.(email := v)
    case Address => c.(address := v)
  }

  /** `s` is what stripping leaves of `t`: only whitespace cut off, at the
      two ends, none left at either end of `s` (which `StripOfIsUnique`
      shows to be one string only), empty exactly when `t` is all whitespace. */
  predicate StrippedFrom(t: string, s: string) {
    && IsStripOf(t, s)
    && (s == [] <==> IsBlank(t))
  }

  /** `t.strip()`, seen through `StrippedFrom`. */
  function StripText(t: string): (s: string)
    ensures StrippedFrom(t, s)
  {
    Strip(t)
  }

  /** What `get_contact_data` makes of the four texts of the edits: each
      stripped. */
  function ContactData(texts: Contact): (data: Contact)
    ensures forall f: Field :: StrippedFrom(texts.Get(f), data.Get(f))
  {
    Contact(StripText(texts.name), StripText(texts.phone), StripText(texts.email), StripText(texts.address))
  }

  /** The contract of `ContactData` determines it: any data whose every
      field is stripped from the matching text is that data. */
  lemma StrippedDataIsUnique(texts: Contact, data: Contact)
    requires forall f: Field :: StrippedFrom(texts.Get(f), data.Get(f))
    ensures data == ContactData(texts)
  {
    var d := ContactData(texts);
    forall f: Field ensures data.Get(f) == d.Get(f) {
      StripOfIsUnique(texts.Get(f), data.Get(f), d.Get(f));
    }
    assert data.Get(Name) == d.Get(Name) && data.Get(Phone) == d.Get(Phone);
    assert data.Get(Email) == d.Get(Email) && data.Get(Address) == d.Get(Address);
  }

  /** Typing the stripped data back into the edits gives the same data. */
  lemma ContactDataIdempotent(texts: Contact)
    ensures ContactData(ContactData(texts)) == ContactData(texts)
  {
    StripIdempotent(texts.name);
    StripIdempotent(texts.phone);
    StripIdempotent(texts.email);
    StripIdempotent(texts.address);
  }

  /** Once stripped, a field counts as empty for `add_contact` exactly when
      nothing is left of it, which is the dialog's own test `not data[key]`. */
  lemma StrippedEmptyText(s: string)
    ensures EmptyText(Strip(s)) <==> Strip(s) == []
  {
    StripIdempotent(s);
  }

  /** The fields the dialog reports as missing: those of `data` with
      nothing in them, appended in the order name, phone, email, address. */
  function MissingInputs(data: Contact): (fs: seq<Field>)
    ensures forall f: Field :: f in fs <==> data.Get(f) == []
    ensures InFieldOrder(fs)
  {
    FlaggedFieldsInOrder(data.name == [], data.phone == [], data.email == [], data.address == []);
    FlaggedFields(data.name == [], data.phone == [], data.email == [], data.address == [])
  }

  /** On stripped data the dialog reports as missing exactly the fields
      `add_contact` would, as empty or only whitespace. */
  lemma MissingInputsOfStripped(texts: Contact)
    ensures MissingInputs(ContactData(texts)) == EmptyFields(ContactData(texts))
  {
    StrippedEmptyText(texts.name);
    StrippedEmptyText(texts.phone);
    StrippedEmptyText(texts.email);
    StrippedEmptyText(texts.address);
  }

  /** The verdict of `validate_inputs` on the stripped data `data`: all empty
      fields, reported together, and only then the first field, in the order
      name, phone, email, address, over its cap. `None` lets the dialog close. */
  function DialogCheck(data: Contact): (r: Option<AddError>)
    ensures r.None? <==> (forall f: Field :: data.Get(f) != []) && WithinCaps(data)
    ensures r.Some? ==> !r.value.DuplicateName?
    ensures (r.Some? && r.value.MissingFields?) <==> exists f: Field :: data.Get(f) == []
    ensures r.Some? && r.value.MissingFields? ==> r.value.fields == MissingInputs(data)
    ensures r.Some? && r.value.TooLong? ==>
      (forall f: Field :: data.Get(f) != []) && FirstOverCap(data) == Some(r.value.field)
  {
    var missing := MissingInputs(data);
    if missing != [] then
      assert missing[0] in missing;
      Some(MissingFields(missing))
    else
      match FirstOverCap(data)
      case Some(f) => Some(TooLong(f))
      case None => None
  }

  /** `DialogCheck` as the chain of early returns of `validate_inputs`. */
  lemma DialogCheckChain(data: Contact)
    ensures MissingInputs(data) != [] ==> DialogCheck(data) == Some(MissingFields(MissingInputs(data)))
    ensures MissingInputs(data) == [] ==>
      DialogCheck(data) == (
        if |data.name| > 10 then Some(TooLong(Name))
        else if |data.phone| > 15 then Some(TooLong(Phone))
        else if |data.email| > 20 then Some(TooLong(Email))
        else if |data.address| > 50 then Some(TooLong(Address))
        else None)
  {
  }

  /** The dialog lets the edits' texts through exactly when none is all
      whitespace and every stripped text is within its cap. */
  lemma DialogCheckPasses(texts: Contact)
    ensures DialogCheck(ContactData(texts)).None?
        <==> (forall f: Field :: !IsBlank(texts.Get(f))) && WithinCaps(ContactData(texts))
  {
    var data := ContactData(texts);
    assert forall f: Field :: StrippedFrom(texts.Get(f), data.Get(f));
  }

  /** The warning box's text for a verdict of `validate_inputs`. */
  function DialogWarning(e: AddError): string
    requires !e.DuplicateName?
  {
    match e
    case MissingFields(fs) => MissingWarning(Labels(fs))
    case TooLong(f) => TooLongWarning(f)
  }

  /** The warning listing the labels of the empty fields. */
  function MissingWarning(labels: seq<string>): string {
    "以下欄位為必填：" + Join(labels, ", ")
  }

  /** The four length warnings, each with its cap written out. */
  function TooLongWarning(f: Field): string
  {
    match f
    case Name => "姓名不能超過10個字元"
    case Phone => "電話不能超過15個字元"
    case Email => "電子郵件不能超過20個字元"
    case Address => "地址不能超過50個字元"
  }

  /** The dialog warns of empty fields in the words `add_contact` uses. */
  lemma MissingWarningIsAddMessage(fs: seq<Field>)
    ensures DialogWarning(MissingFields(fs)) == AddMessage(Some(MissingFields(fs)))
  {
  }

  /** The number in each length warning is the cap `Contact` applies to
      that field. */
  lemma TooLongWarningNamesCap(f: Field)
    ensures TooLongWarning(f) == Label(f) + "不能超過" + DecimalString(Cap(f)) + "個字元"
  {
  }

  /** Where the dialog and `add_contact` see the same empty fields, they
      agree: an empty field is reported the same way by both; data the
      dialog lets through is refused by `add_contact` only for an existing
      name, and is stored exactly as it is, with nothing cut off. */
  lemma ChecksAgree(cs: seq<Contact>, data: Contact)
    requires MissingInputs(data) == EmptyFields(data)
    ensures DialogCheck(data).Some? && DialogCheck(data).value.MissingFields? ==> CheckAdd(cs, data) == DialogCheck(data)
    ensures DialogCheck(data).None? ==> (CheckAdd(cs, data).None? <==> !HasName(cs, data.name))
    ensures DialogCheck(data).None? ==> CheckAdd(cs, data).None? || CheckAdd(cs, data) == Some(DuplicateName)
    ensures DialogCheck(data).None? ==> NewContact(data.name, data.phone, data.email, data.address) == data
  {
  }

  /** `labels + [label]` where `labels` are the labels of `fs`. */
  lemma LabelsAppend(fs: seq<Field>, f: Field)
    ensures Labels(fs + [f]) == Labels(fs) + [Label(f)]
  {
  }

  /** The first half of `validate_inputs`: the labels of the fields of
      `data` with nothing in them, appended one check after the other. */
  method CollectEmptyFields(data: Contact) returns (emptyFields: seq<string>)
    ensures emptyFields == Labels(MissingInputs(data))
  {
    emptyFields := [];
    ghost var fields: seq<Field> := [];
    assert emptyFields == Labels(fields);
    LabelsAppend(fields, Name);
    if data.name == "" {
      emptyFields := emptyFields + [Label(Name)];
    }
    fields := AppendIf(fields, data.name == "", Name);
    assert emptyFields == Labels(fields);
    LabelsAppend(fields, Phone);
    if data.phone == "" {
      emptyFields := emptyFields + [Label(Phone)];
    }
    fields := AppendIf(fields, data.phone == "", Phone);
    assert emptyFields == Labels(fields);
    LabelsAppend(fields, Email);
    if data.email == "" {
      emptyFields := emptyFields + [Label(Email)];
    }
    fields := AppendIf(fields, data.email == "", Email);
    assert emptyFields == Labels(fields);
    LabelsAppend(fields, Address);
    if data.address == "" {
      emptyFields := emptyFields + [Label(Address)];
    }
    fields := AppendIf(fields, data.address == "", Address);
    assert emptyFields == Labels(fields);
    assert fields == MissingInputs(data);
  }

  /** `ContactDialog`: the texts of its four edits, whether it is editing an
      existing contact (the name edit is then read-only) and whether it has
      been closed with "save". */
  class ContactDialog {
    var nameText: string
    var phoneText: string
    var emailText: string
    var addressText: string
    var accepted: bool
    const editMode: bool

    /** The four texts as one value. */
    function Texts(): Contact
      reads this`nameText, this`phoneText, this`emailText, this`addressText
    {
      Contact(nameText, phoneText, emailText, addressText)
    }

    /** `get_contact_data`. */
    function GetContactData(): (data: Contact)
      reads this`nameText, this`phoneText, this`emailText, this`addressText
      ensures data == ContactData(Texts())
    {
      ContactData(Texts())
    }

    /** `ContactDialog(parent, contact)`: empty edits for a new contact; the
        contact's four fields for an edit. The phone is set before the
        digit filter is connected, so it is shown as stored. */
    constructor(contact: Option<Contact>)
      ensures editMode <==> contact.Some?
      ensures contact.None? ==> Texts() == Contact("", "", "", "")
      ensures contact.Some? ==> Texts() == contact.value
      ensures !accepted
    {
      editMode := contact.Some?;
      if contact.Some? {
        nameText, phoneText := contact.value.name, contact.value.phone;
        emailText, addressText := contact.value.email, contact.value.address;
      } else {
        nameText, phoneText, emailText, addressText := "", "", "", "";
      }
      accepted := false;
    }

    /** `validate_phone(text)`, called by the edit's `textChanged` signal
        with the text the edit now holds. A text with a non-digit in it is
        replaced by its digits; that replacement fires the signal again,
        which then finds nothing to filter. */
    method ValidatePhone(text: string)
      modifies this`phoneText
      decreases |text|
      ensures AllDigits(text) ==> phoneText == old(phoneText)
      ensures !AllDigits(text) ==> phoneText == Digits(text)
    {
      DigitsOfDigitsOnly(text);
      var filtered := Digits(text);
      if filtered != text {
        phoneText := filtered;
        DigitsShortens(text);
        DigitsOfDigitsOnly(filtered);
        ValidatePhone(filtered);
      }
    }

    /** The user replaces the text of the edit for `f`. The name edit is
        read-only when editing; the phone edit keeps only the digits. */
    method Edit(f: Field, text: string)
      modifies this`nameText, this`phoneText, this`emailText, this`addressText
      ensures f == Name && editMode ==> Texts() == old(Texts())
      ensures f == Phone ==> Texts() == WithField(old(Texts()), Phone, Digits(text))
      ensures f != Phone && !(f == Name && editMode) ==> Texts() == WithField(old(Texts()), f, text)
    {
      match f
      case Name =>
        if !editMode {
          nameText := text;
        }
      case Phone =>
        phoneText := text;
        DigitsOfDigitsOnly(text);
        ValidatePhone(text);
      case Email =>
        emailText := text;
      case Address =>
        addressText := text;
    }

    /** `validate_inputs`: collects the labels of the empty stripped fields by
        appending, then checks the four lengths one after the other; the
        warning is the message box's text. */
    method ValidateInputs() returns (ok: bool, warning: Option<string>)
      ensures ok <==> DialogCheck(GetContactData()).None?
      ensures ok <==> warning.None?
      ensures !ok ==> warning == Some(DialogWarning(DialogCheck(GetContactData()).value))
    {
      var data := GetContactData();
      var emptyFields := CollectEmptyFields(data);
      DialogCheckChain(data);
      if emptyFields != [] {
        return false, Some(MissingWarning(emptyFields));
      }
      if |data.name| > 10 {
        return false, Some(TooLongWarning(Name));
      }
      if |data.phone| > 15 {
        return false, Some(TooLongWarning(Phone));
      }
      if |data.email| > 20 {
        return false, Some(TooLongWarning(Email));
      }
      if |data.address| > 50 {
        return false, Some(TooLongWarning(Address));
      }
      return true, None;
    }

    /** `accept`: the dialog closes with "save" only when the inputs pass. */
    method Accept() returns (warning: Option<string>)
      modifies this`accepted
      ensures DialogCheck(GetContactData()).None? ==> accepted && warning.None?
      ensures DialogCheck(GetContactData()).Some? ==>
        accepted == old(accepted) && warning == Some(DialogWarning(DialogCheck(GetContactData()).value))
    {
      var data := GetContactData();
      var ok;
      ok, warning := ValidateInputs();
      if ok {
        accepted := true;
      }
      assert GetContactData() == data;
    }
  }
}
