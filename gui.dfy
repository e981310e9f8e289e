/** The Tk window's own logic: phone-number formatting, the sort state of the
    contact table (`current_sort`, `sort_reverse` and the status label), and
    the rows of the table with their odd-row tags. */
module Gui {
  import opened Text
  import opened Models

  /** `format_phone_number`: keeps only the digits; exactly ten digits are
      shown as four, three and three digits joined by dashes. */
  function FormatPhoneNumber(phone: string): (r: string)
    ensures Digits(r) == Digits(phone)
    ensures forall i :: 0 <= i < |r| ==> IsDigit(r[i]) || r[i] == '-'
    ensures |Digits(phone)| == 10 ==> |r| == 12 && r[4] == '-' && r[8] == '-'
    ensures |Digits(phone)| != 10 ==> r == Digits(phone)
  {
    var d := Digits(phone);
    if |d| == 10 then
      var r := d[..4] + "-" + d[4..7] + "-" + d[7..];
      DigitsOfDigitsOnly(d[..4]);
      DigitsOfDigitsOnly(d[4..7]);
      DigitsOfDigitsOnly(d[7..]);
      DigitsConcat(d[..4], "-");
      DigitsConcat(d[..4] + "-", d[4..7]);
      DigitsConcat(d[..4] + "-" + d[4..7], "-");
      DigitsConcat(d[..4] + "-" + d[4..7] + "-", d[7..]);
      assert d[..4] + d[4..7] + d[7..] == d;
      r
    else
      DigitsIdempotent(phone);
      d
  }

  /** Formatting an already formatted number changes nothing. */
  lemma FormatIdempotent(phone: string)
    ensures FormatPhoneNumber(FormatPhoneNumber(phone)) == FormatPhoneNumber(phone)
  {
    var r := FormatPhoneNumber(phone);
    assert Digits(r) == Digits(phone);
  }

  /** The sort state shown before any column was clicked. */
  const DefaultSort := "預設"

  /** The four column headings of the table, which are the field labels. */
  const Columns: seq<string> := [Label(Name), Label(Phone), Label(Email), Label(Address)]

  /** The field whose values a column heading shows. */
  function ColumnField(column: string): (r: Option<Field>)
    ensures r.Some? <==> column in Columns
    ensures r.Some? ==> Label(r.value) == column
  {
    if column == Label(Name) then Some(Name)
    else if column == Label(Phone) then Some(Phone)
    else if column == Label(Email) then Some(Email)
    else if column == Label(Address) then Some(Address)
    else None
  }

  /** `current_sort_key`: the attribute behind a column heading, "name" for
      anything else. */
  function CurrentSortKey(column: string): (key: string)
    ensures key in FieldKeys
    ensures ColumnField(column).Some? ==> key == Key(ColumnField(column).value)
    ensures ColumnField(column).None? ==> key == "name"
  {
    match column
    case "姓名" => "name"
    case "電話" => "phone"
    case "電子郵件" => "email"
    case "地址" => "address"
    case _ => "name"
  }

  /** The attribute `current_sort_key` names is the one the column shows:
      looking it up in `to_dict` gives the column's value. */
  lemma CurrentSortKeyPicksColumn(c: Contact, f: Field)
    ensures ToDict(c)[CurrentSortKey(Label(f))] == c.Get(f)
  {
  }

  /** The two fields `current_sort` and `sort_reverse`. */
  datatype SortState = SortState(column: string, reverse: bool)

  const InitialSort := SortState(DefaultSort, false)

  /** The state change of one click on a heading: the same column flips the
      direction, another column becomes the sort column, ascending. */
  function Toggle(s: SortState, column: string): (t: SortState)
    ensures t.column == column
    ensures column == s.column ==> t.reverse == !s.reverse
    ensures column != s.column ==> !t.reverse
  {
    if column == s.column then s.(reverse := !s.reverse) else SortState(column, false)
  }

  /** Two clicks on the sort column give back the state before them. */
  lemma ToggleTwice(s: SortState)
    ensures Toggle(Toggle(s, s.column), s.column) == s
  {
  }

  /** Whichever state came before, clicking a new column and then it again
      sorts that column descending. */
  lemma NewColumnThenSame(s: SortState, column: string)
    requires column != s.column
    ensures Toggle(Toggle(s, column), column) == SortState(column, true)
  {
  }

  /** The text of the sort status label. */
  function SortLabel(s: SortState): string {
    if s.column == DefaultSort then "目前排序方式：預設"
    else "目前排序方式：" + s.column + " (" + (if s.reverse then "降序" else "升序") + ")"
  }

  /** The label tells the states apart: two states the table can be in that
      show the same label are the same state. */
  lemma SortLabelShowsState(s: SortState, t: SortState)
    requires s.column == DefaultSort || s.column in Columns
    requires t.column == DefaultSort || t.column in Columns
    requires s.column == DefaultSort ==> !s.reverse
    requires t.column == DefaultSort ==> !t.reverse
    requires SortLabel(s) == SortLabel(t)
    ensures s == t
  {
    if s.column != DefaultSort && t.column != DefaultSort {
      var ds := if s.reverse then "降序" else "升序";
      var dt := if t.reverse then "降序" else "升序";
      SameFrame("目前排序方式：", s.column, t.column, " (", ds, dt, ")");
    }
  }

  /** Two texts built on the same frame, with equally long last pieces, agree
      piece by piece. */
  lemma SameFrame(p: string, a: string, b: string, m: string, x: string, y: string, e: string)
    requires |x| == |y| && p + a + m + x + e == p + b + m + y + e
    ensures a == b && x == y
  {
    var l := p + a + m + x + e;
    var r := p + b + m + y + e;
    assert |a| == |b|;
    assert l[|p|..|p| + |a|] == a && r[|p|..|p| + |b|] == b;
    var k := |p| + |a| + |m|;
    assert l[k..k + |x|] == x && r[k..k + |y|] == y;
  }

  /** Python's `<` on strings: code point by code point, a proper prefix
      coming first. */
  predicate StrLess(a: string, b: string) {
    if a == [] then b != []
    else if b == [] then false
    else if a[0] != b[0] then a[0] < b[0]
    else StrLess(a[1..], b[1..])
  }

  lemma {:induction false} StrLessIrreflexive(a: string)
    ensures !StrLess(a, a)
  {
    if a != [] {
      StrLessIrreflexive(a[1..]);
    }
  }

  lemma {:induction false} StrLessTransitive(a: string, b: string, c: string)
    requires StrLess(a, b) && StrLess(b, c)
    ensures StrLess(a, c)
  {
    if a != [] && b != [] && c != [] && a[0] == b[0] && b[0] == c[0] {
      StrLessTransitive(a[1..], b[1..], c[1..]);
    }
  }

  /** Two different strings are ordered one way or the other, never both. */
  lemma {:induction false} StrLessTotal(a: string, b: string)
    ensures a == b || StrLess(a, b) || StrLess(b, a)
    ensures !(StrLess(a, b) && StrLess(b, a))
  {
    if a != [] && b != [] && a[0] == b[0] {
      StrLessTotal(a[1..], b[1..]);
      if a[1..] == b[1..] {
        assert a == [a[0]] + a[1..] && b == [b[0]] + b[1..];
      }
    }
  }

  /** One row of the table: the Tk item id, the four values it shows, and
      whether it carries the `oddrow` tag. */
  datatype Row = Row(id: string, contact: Contact, odd: bool)

  /** Python's `<` on the pairs `(tree.set(item, column), item)`. */
  predicate KeyLess(f: Field, r: Row, s: Row) {
    || StrLess(r.contact.Get(f), s.contact.Get(f))
    || (r.contact.Get(f) == s.contact.Get(f) && StrLess(r.id, s.id))
  }

  lemma KeyLessTransitive(f: Field, r: Row, s: Row, t: Row)
    requires KeyLess(f, r, s) && KeyLess(f, s, t)
    ensures KeyLess(f, r, t)
  {
    var a, b, c := r.contact.Get(f), s.contact.Get(f), t.contact.Get(f);
    if StrLess(a, b) && StrLess(b, c) {
      StrLessTransitive(a, b, c);
    } else if !StrLess(a, b) && !StrLess(b, c) {
      StrLessTransitive(r.id, s.id, t.id);
    }
  }

  /** Rows with different ids are ordered one way or the other, never both. */
  lemma KeyLessTotal(f: Field, r: Row, s: Row)
    requires r.id != s.id
    ensures KeyLess(f, r, s) || KeyLess(f, s, r)
    ensures !(KeyLess(f, r, s) && KeyLess(f, s, r))
  {
    StrLessTotal(r.contact.Get(f), s.contact.Get(f));
    StrLessTotal(r.id, s.id);
  }

  /** `r` comes before `s` after `items.sort(reverse=reverse)`. */
  predicate Precedes(f: Field, reverse: bool, r: Row, s: Row) {
    if reverse then KeyLess(f, s, r) else KeyLess(f, r, s)
  }

  predicate Ordered(f: Field, reverse: bool, rows: seq<Row>) {
    forall i, j :: 0 <= i < j < |rows| ==> Precedes(f, reverse, rows[i], rows[j])
  }

  predicate DistinctIds(rows: seq<Row>) {
    forall i, j :: 0 <= i < j < |rows| ==> rows[i].id != rows[j].id
  }

  /** Inserts `x` in front of the first row it precedes. */
  function Insert(f: Field, reverse: bool, x: Row, rows: seq<Row>): (r: seq<Row>)
    ensures multiset(r) == multiset(rows) + multiset{x}
    ensures |r| == |rows| + 1
  {
    if rows == [] then [x]
    else if Precedes(f, reverse, x, rows[0]) then [x] + rows
    else
      assert rows == [rows[0]] + rows[1..];
      [rows[0]] + Insert(f, reverse, x, rows[1..])
  }

  /** A row whose id no row of `rows` has can be put in front. */
  lemma DistinctIdsCons(x: Row, rows: seq<Row>)
    requires DistinctIds(rows) && forall y :: y in rows ==> y.id != x.id
    ensures DistinctIds([x] + rows)
  {
    var r := [x] + rows;
    forall i, j | 0 <= i < j < |r| ensures r[i].id != r[j].id {
      if i == 0 {
        assert r[j] in rows;
      } else {
        assert r[i] == rows[i - 1] && r[j] == rows[j - 1];
      }
    }
  }

  /** Inserting a row with an id not yet present keeps the ids distinct. */
  lemma {:induction false} InsertKeepsIdsDistinct(f: Field, reverse: bool, x: Row, rows: seq<Row>)
    requires DistinctIds(rows) && forall y :: y in rows ==> y.id != x.id
    ensures DistinctIds(Insert(f, reverse, x, rows))
  {
    if rows == [] {
    } else if Precedes(f, reverse, x, rows[0]) {
      DistinctIdsCons(x, rows);
    } else {
      assert DistinctIds(rows[1..]);
      InsertKeepsIdsDistinct(f, reverse, x, rows[1..]);
      var tail := Insert(f, reverse, x, rows[1..]);
      forall y | y in tail ensures y.id != rows[0].id {
        assert y in multiset(tail);
        if y != x {
          var j :| 0 <= j < |rows[1..]| && rows[1..][j] == y;
          assert rows[j + 1] == y;
        }
      }
      DistinctIdsCons(rows[0], tail);
    }
  }

  lemma PrecedesTransitive(f: Field, reverse: bool, r: Row, s: Row, t: Row)
    requires Precedes(f, reverse, r, s) && Precedes(f, reverse, s, t)
    ensures Precedes(f, reverse, r, t)
  {
    if reverse {
      KeyLessTransitive(f, t, s, r);
    } else {
      KeyLessTransitive(f, r, s, t);
    }
  }

  /** A row that precedes every row of an ordered list can be put in front. */
  lemma OrderedCons(f: Field, reverse: bool, x: Row, rows: seq<Row>)
    requires Ordered(f, reverse, rows)
    requires forall y :: y in rows ==> Precedes(f, reverse, x, y)
    ensures Ordered(f, reverse, [x] + rows)
  {
    var r := [x] + rows;
    forall i, j | 0 <= i < j < |r| ensures Precedes(f, reverse, r[i], r[j]) {
      if i == 0 {
        assert r[j] in rows;
      } else {
        assert r[i] == rows[i - 1] && r[j] == rows[j - 1];
      }
    }
  }

  /** Inserting into ordered rows, of ids different from the new one,
      keeps them ordered. */
  lemma {:induction false} InsertKeepsOrder(f: Field, reverse: bool, x: Row, rows: seq<Row>)
    requires Ordered(f, reverse, rows) && forall y :: y in rows ==> y.id != x.id
    ensures Ordered(f, reverse, Insert(f, reverse, x, rows))
  {
    if rows == [] {
    } else if Precedes(f, reverse, x, rows[0]) {
      forall y | y in rows ensures Precedes(f, reverse, x, y) {
        var j :| 0 <= j < |rows| && rows[j] == y;
        if j > 0 {
          PrecedesTransitive(f, reverse, x, rows[0], y);
        }
      }
      OrderedCons(f, reverse, x, rows);
    } else {
      KeyLessTotal(f, x, rows[0]);
      assert Ordered(f, reverse, rows[1..]);
      InsertKeepsOrder(f, reverse, x, rows[1..]);
      var tail := Insert(f, reverse, x, rows[1..]);
      forall y | y in tail ensures Precedes(f, reverse, rows[0], y) {
        assert y in multiset(tail);
        if y != x {
          var j :| 0 <= j < |rows[1..]| && rows[1..][j] == y;
          assert rows[j + 1] == y;
        }
      }
      OrderedCons(f, reverse, rows[0], tail);
    }
  }

  /** The rows sorted by `(value, id)`, ascending or descending. */
  function SortRows(f: Field, reverse: bool, rows: seq<Row>): (r: seq<Row>)
    ensures multiset(r) == multiset(rows)
    ensures |r| == |rows|
  {
    if rows == [] then []
    else
      assert rows == [rows[0]] + rows[1..];
      Insert(f, reverse, rows[0], SortRows(f, reverse, rows[1..]))
  }

  /** The sort leaves rows with distinct ids ordered by `(value, id)`, in
      the direction asked for, and their ids still distinct. */
  lemma {:induction false} SortRowsOrdered(f: Field, reverse: bool, rows: seq<Row>)
    requires DistinctIds(rows)
    ensures Ordered(f, reverse, SortRows(f, reverse, rows))
    ensures DistinctIds(SortRows(f, reverse, rows))
  {
    if rows != [] {
      SortRowsOrdered(f, reverse, rows[1..]);
      var sorted := SortRows(f, reverse, rows[1..]);
      forall y | y in sorted ensures y.id != rows[0].id {
        assert y in multiset(rows[1..]);
        var j :| 0 <= j < |rows[1..]| && rows[1..][j] == y;
        assert rows[j + 1] == y;
      }
      InsertKeepsOrder(f, reverse, rows[0], sorted);
      InsertKeepsIdsDistinct(f, reverse, rows[0], sorted);
    }
  }

  /** Python's `list.sort` yields an ordered permutation; with distinct ids
      there is only one, so `SortRows` is the order the table ends up in. */
  lemma {:induction false} OrderedPermutationUnique(f: Field, reverse: bool, a: seq<Row>, b: seq<Row>)
    requires multiset(a) == multiset(b) && DistinctIds(a)
    requires Ordered(f, reverse, a) && Ordered(f, reverse, b)
    ensures a == b
  {
    if a != [] {
      OrderedHeadsAgree(f, reverse, a, b);
      TailFacts(f, reverse, a);
      TailFacts(f, reverse, b);
      OrderedPermutationUnique(f, reverse, a[1..], b[1..]);
    } else {
      assert |b| == |multiset(b)|;
    }
  }

  /** What the rest of a non-empty list inherits from the whole. */
  lemma TailFacts(f: Field, reverse: bool, a: seq<Row>)
    requires a != []
    ensures a == [a[0]] + a[1..]
    ensures multiset(a[1..]) == multiset(a) - multiset{a[0]}
    ensures DistinctIds(a) ==> DistinctIds(a[1..])
    ensures Ordered(f, reverse, a) ==> Ordered(f, reverse, a[1..])
  {
    assert a == [a[0]] + a[1..];
  }

  /** Both begin with the row that precedes all others. */
  lemma OrderedHeadsAgree(f: Field, reverse: bool, a: seq<Row>, b: seq<Row>)
    requires a != [] && multiset(a) == multiset(b) && DistinctIds(a)
    requires Ordered(f, reverse, a) && Ordered(f, reverse, b)
    ensures b != [] && a[0] == b[0]
  {
    assert a[0] in multiset(b);
    assert b[0] in multiset(a);
    var k :| 0 <= k < |b| && b[k] == a[0];
    var m :| 0 <= m < |a| && a[m] == b[0];
    if m != 0 {
      assert k != 0;
      KeyLessTotal(f, a[0], b[0]);
    }
  }

  /** The rows as `refresh_contact_list` inserts them: one per contact, in
      store order, with the Tk item ids `ids`, every second row tagged. */
  function Tabulated(contacts: seq<Contact>, ids: seq<string>): (rows: seq<Row>)
    requires |ids| == |contacts|
    ensures |rows| == |contacts|
    ensures forall i :: 0 <= i < |rows| ==> rows[i] == Row(ids[i], contacts[i], i % 2 == 1)
  {
    seq(|contacts|, i requires 0 <= i < |contacts| => Row(ids[i], contacts[i], i % 2 == 1))
  }

  /** The same rows in the same places, the row at an odd index tagged
      `oddrow` and no other. */
  function Retagged(rows: seq<Row>): (r: seq<Row>)
    ensures |r| == |rows|
    ensures forall i :: 0 <= i < |r| ==> r[i].id == rows[i].id && r[i].contact == rows[i].contact
    ensures Striped(r)
  {
    seq(|rows|, i requires 0 <= i < |rows| => rows[i].(odd := i % 2 == 1))
  }

  /** Exactly the rows at odd positions carry the `oddrow` tag. */
  predicate Striped(rows: seq<Row>) {
    forall i :: 0 <= i < |rows| ==> (rows[i].odd <==> i % 2 == 1)
  }

  /** Retagging does not disturb the order or the ids. */
  lemma RetaggedKeepsOrder(f: Field, reverse: bool, rows: seq<Row>)
    ensures Ordered(f, reverse, rows) ==> Ordered(f, reverse, Retagged(rows))
    ensures DistinctIds(rows) ==> DistinctIds(Retagged(rows))
  {
    var r := Retagged(rows);
    assert forall i :: 0 <= i < |r| ==> r[i].id == rows[i].id && r[i].contact.Get(f) == rows[i].contact.Get(f);
  }

  /** The loop of `sort_contacts` that moves each item to its index and
      sets its tag. */
  method RetagRows(items: seq<Row>) returns (placed: seq<Row>)
    ensures placed == Retagged(items)
  {
    placed := [];
    var index := 0;
    while index < |items|
      invariant 0 <= index <= |items|
      invariant |placed| == index
      invariant forall k :: 0 <= k < index ==> placed[k] == items[k].(odd := k % 2 == 1)
    {
      placed := placed + [items[index].(odd := index % 2 == 1)];
      index := index + 1;
    }
  }

  /** After the sort and the retagging the rows are in order, with distinct
      ids and the odd ones tagged. */
  lemma SortedRowsFacts(f: Field, reverse: bool, rows: seq<Row>)
    requires DistinctIds(rows)
    ensures var r := Retagged(SortRows(f, reverse, rows));
      Ordered(f, reverse, r) && DistinctIds(r) && Striped(r)
  {
    SortRowsOrdered(f, reverse, rows);
    RetaggedKeepsOrder(f, reverse, SortRows(f, reverse, rows));
  }

  /** The state `refresh_contact_list` leaves behind: for a sorted table it
      calls `sort_contacts` on the current column, which toggles. */
  function RefreshStateAsWritten(s: SortState): SortState {
    if s.column != DefaultSort then Toggle(s, s.column) else s
  }

  /** Each refresh of a sorted table reverses its direction, although no
      heading was clicked; two refreshes in a row restore it. */
  lemma RefreshFlipsDirection(s: SortState)
    requires s.column != DefaultSort
    ensures RefreshStateAsWritten(s) == SortState(s.column, !s.reverse)
    ensures RefreshStateAsWritten(RefreshStateAsWritten(s)) == s
  {
  }

  /** After clicking "姓名" once the table is ascending; the next refresh
      (after an add, an edit or a delete) shows it descending. */
  lemma RefreshAfterOneClick()
    ensures Toggle(InitialSort, Label(Name)) == SortState("姓名", false)
    ensures RefreshStateAsWritten(Toggle(InitialSort, Label(Name))) == SortState("姓名", true)
  {
  }

  /** The contact table of the Tk window with its sort state. */
  class ContactTable {
    var currentSort: string
    var sortReverse: bool
    /** The text of the sort status label. */
    var sortLabel: string
    /** The rows of the table, top to bottom. */
    var rows: seq<Row>

    function State(): SortState
      reads this`currentSort, this`sortReverse
    {
      SortState(currentSort, sortReverse)
    }

    /** The sort column is the default or a heading, the default is never
        descending, and the label describes the state. */
    ghost predicate StateValid()
      reads this`currentSort, this`sortReverse, this`sortLabel
    {
      && (currentSort == DefaultSort || currentSort in Columns)
      && (currentSort == DefaultSort ==> !sortReverse)
      && sortLabel == SortLabel(State())
    }

    /** Besides, the ids are distinct, the odd rows are tagged, and a sorted
        table is in its sort order. */
    ghost predicate Valid()
      reads this
    {
      && StateValid()
      && DistinctIds(rows)
      && Striped(rows)
      && (currentSort in Columns ==> Ordered(ColumnField(currentSort).value, sortReverse, rows))
    }

    /** The state set up in `__init__` and `setup_base_gui`: default order,
        ascending, an empty table. */
    constructor ()
      ensures Valid() && State() == InitialSort && rows == []
    {
      currentSort := DefaultSort;
      sortReverse := false;
      sortLabel := "目前排序方式：預設";
      rows := [];
    }

    /** The rows moved into the order of the current sort state and
        retagged: the part of `sort_contacts` after the state change. */
    method ApplySort()
      requires currentSort in Columns && DistinctIds(rows)
      modifies this`rows
      ensures rows == Retagged(SortRows(ColumnField(currentSort).value, sortReverse, old(rows)))
      ensures DistinctIds(rows) && Striped(rows)
      ensures Ordered(ColumnField(currentSort).value, sortReverse, rows)
    {
      var f := ColumnField(currentSort).value;
      var items := SortRows(f, sortReverse, rows);
      var placed := RetagRows(items);
      SortedRowsFacts(f, sortReverse, rows);
      rows := placed;
    }

    /** `sort_contacts(column)`: the click toggles the state, the label shows
        it, and the rows come out in the new order, retagged. */
    method SortContacts(column: string)
      requires StateValid() && DistinctIds(rows) && column in Columns
      modifies this
      ensures Valid()
      ensures State() == Toggle(old(State()), column)
      ensures rows == Retagged(SortRows(ColumnField(column).value, sortReverse, old(rows)))
    {
      if column == currentSort {
        sortReverse := !sortReverse;
      } else {
        currentSort := column;
        sortReverse := false;
      }
      var direction := if sortReverse then "降序" else "升序";
      sortLabel := "目前排序方式：" + column + " (" + direction + ")";
      assert StateValid();
      ApplySort();
    }

    /** Clears the table and inserts one row per contact, in store order.
        `ids` are the item ids Tk hands out, all different. */
    method InsertRows(contacts: seq<Contact>, ids: seq<string>)
      requires |ids| == |contacts|
      requires forall i, j :: 0 <= i < j < |ids| ==> ids[i] != ids[j]
      modifies this`rows
      ensures rows == Tabulated(contacts, ids)
      ensures DistinctIds(rows) && Striped(rows)
    {
      rows := [];
      var i := 0;
      while i < |contacts|
        invariant 0 <= i <= |contacts|
        invariant |rows| == i
        invariant forall k :: 0 <= k < i ==> rows[k] == Row(ids[k], contacts[k], k % 2 == 1)
      {
        var tag := i % 2 == 1;
        rows := rows + [Row(ids[i], contacts[i], tag)];
        i := i + 1;
      }
    }

    /** `refresh_contact_list` as written: the rows are rebuilt and, for a
        sorted table, `sort_contacts` is called again on the same column,
        which reverses the direction. */
    method RefreshContactListAsWritten(contacts: seq<Contact>, ids: seq<string>)
      requires StateValid()
      requires |ids| == |contacts|
      requires forall i, j :: 0 <= i < j < |ids| ==> ids[i] != ids[j]
      modifies this
      ensures Valid()
      ensures State() == RefreshStateAsWritten(old(State()))
      ensures currentSort == DefaultSort ==> rows == Tabulated(contacts, ids)
      ensures currentSort != DefaultSort ==>
        rows == Retagged(SortRows(ColumnField(currentSort).value, sortReverse, Tabulated(contacts, ids)))
    {
      InsertRows(contacts, ids);
      if currentSort != DefaultSort {
        SortContacts(currentSort);
      }
    }

    /** `refresh_contact_list` as its comment intends: the rows are rebuilt
        and put back into the current sort order, which stays as it was. */
    method RefreshContactList(contacts: seq<Contact>, ids: seq<string>)
      requires StateValid()
      requires |ids| == |contacts|
      requires forall i, j :: 0 <= i < j < |ids| ==> ids[i] != ids[j]
      modifies this
      ensures Valid()
      ensures State() == old(State()) && sortLabel == old(sortLabel)
      ensures currentSort == DefaultSort ==> rows == Tabulated(contacts, ids)
      ensures currentSort != DefaultSort ==>
        rows == Retagged(SortRows(ColumnField(currentSort).value, sortReverse, Tabulated(contacts, ids)))
    {
      InsertRows(contacts, ids);
      if currentSort != DefaultSort {
        ApplySort();
      }
    }

    /** `reset_sort`: back to the default order, ascending, and the rows
        rebuilt in store order. */
    method ResetSort(contacts: seq<Contact>, ids: seq<string>)
      requires StateValid()
      requires |ids| == |contacts|
      requires forall i, j :: 0 <= i < j < |ids| ==> ids[i] != ids[j]
      modifies this
      ensures Valid()
      ensures State() == InitialSort
      ensures rows == Tabulated(contacts, ids)
    {
      currentSort := DefaultSort;
      sortReverse := false;
      sortLabel := "目前排序方式：預設";
      RefreshContactList(contacts, ids);
    }
  }
}
