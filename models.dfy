/** The contact store: `Contact` (four capped text fields) and `AddressBook`
    (an ordered list of contacts backed by one file holding the list of
    their field dictionaries, rewritten in full on every successful change). */
module Models {
  import opened Text

  const MaxNameLength: nat := 10
  const MaxPhoneLength: nat := 15
  const MaxEmailLength: nat := 20
  const MaxAddressLength: nat := 50

  /** The four fields, in the order every check walks them. */
  datatype Field = Name | Phone | Email | Address

  function Rank(f: Field): nat {
    match f
    case Name => 0
    case Phone => 1
    case Email => 2
    case Address => 3
  }

  function Cap(f: Field): nat {
    match f
    case Name => MaxNameLength
    case Phone => MaxPhoneLength
    case Email => MaxEmailLength
    case Address => MaxAddressLength
  }

  /** The field's label in messages, search types and table headings. */
  function Label(f: Field): string {
    match f
    case Name => "姓名"
    case Phone => "電話"
    case Email => "電子郵件"
    case Address => "地址"
  }

  /** The attribute name, which is also the key `to_dict` writes. */
  function Key(f: Field): string {
    match f
    case Name => "name"
    case Phone => "phone"
    case Email => "email"
    case Address => "address"
  }

  /** A contact record. The same datatype also carries the four raw strings a
      caller passes to `add_contact`, before any truncation. */
  datatype Contact = Contact(name: string, phone: string, email: string, address: string) {
    function Get(f: Field): string {
      match f
      case Name => name
      case Phone => phone
      case Email => email
      case Address => address
    }
  }

  predicate WithinCaps(c: Contact) {
    && |c.name| <= MaxNameLength
    && |c.phone| <= MaxPhoneLength
    && |c.email| <= MaxEmailLength
    && |c.address| <= MaxAddressLength
  }

  predicate AllWithinCaps(cs: seq<Contact>) {
    forall i :: 0 <= i < |cs| ==> WithinCaps(cs[i])
  }

  function Min(a: nat, b: nat): nat { if a <= b then a else b }

  /** `Contact(name, phone, email, address)`: each field is the longest
      prefix of its argument that fits the field's cap, so an argument
      already within its cap is stored as it is. */
  function NewContact(name: string, phone: string, email: string, address: string): (c: Contact)
    ensures c.name <= name && c.phone <= phone && c.email <= email && c.address <= address
    ensures |c.name| == Min(|name|, MaxNameLength) && |c.phone| == Min(|phone|, MaxPhoneLength)
    ensures |c.email| == Min(|email|, MaxEmailLength) && |c.address| == Min(|address|, MaxAddressLength)
    ensures WithinCaps(c)
    ensures WithinCaps(Contact(name, phone, email, address)) ==> c == Contact(name, phone, email, address)
  {
    Contact(Truncate(name, MaxNameLength), Truncate(phone, MaxPhoneLength),
            Truncate(email, MaxEmailLength), Truncate(address, MaxAddressLength))
  }

  /** One entry of the backing file: a dictionary from field names to text. */
  type Record = map<string, string>

  const FieldKeys: set<string> := {"name", "phone", "email", "address"}

  /** `Contact.to_dict`. */
  function ToDict(c: Contact): (d: Record)
    ensures d.Keys == FieldKeys
    ensures forall f: Field :: d[Key(f)] == c.Get(f)
  {
    map["name" := c.name, "phone" := c.phone, "email" := c.email, "address" := c.address]
  }

  /** `Contact(**d)`: defined only when `d` has exactly the four keyword
      names (otherwise Python raises a TypeError); the values are truncated
      as by the constructor. */
  function FromDict(d: Record): (r: Option<Contact>)
    ensures r.Some? <==> d.Keys == FieldKeys
    ensures r.Some? ==> WithinCaps(r.value)
    ensures r.Some? ==> forall f: Field :: r.value.Get(f) <= d[Key(f)]
    ensures r.Some? ==> r.value == NewContact(d["name"], d["phone"], d["email"], d["address"])
  {
    if d.Keys == FieldKeys then
      Some(NewContact(d["name"], d["phone"], d["email"], d["address"]))
    else None
  }

  /** `Contact(**c.to_dict())` gives back `c` whenever `c` is within the caps,
      which every constructed contact is. */
  lemma DictRoundTrip(c: Contact)
    requires WithinCaps(c)
    ensures FromDict(ToDict(c)) == Some(c)
  {
    var d := ToDict(c);
    assert d["name"] == c.name && d["phone"] == c.phone && d["email"] == c.email && d["address"] == c.address;
  }

  /** What `save_contacts` writes: the list of `to_dict` of every contact. */
  function Save(cs: seq<Contact>): (data: seq<Record>)
    ensures |data| == |cs|
    ensures forall i :: 0 <= i < |cs| ==> data[i] == ToDict(cs[i])
  {
    seq(|cs|, i requires 0 <= i < |cs| => ToDict(cs[i]))
  }

  /** What `load_contacts` makes of the file's list: `Contact(**entry)` for
      each entry, or nothing at all when some entry cannot be passed to the
      constructor (the exception leaves the list as it was). */
  function Load(data: seq<Record>): (r: Option<seq<Contact>>)
    ensures r.Some? <==> forall i :: 0 <= i < |data| ==> data[i].Keys == FieldKeys
    ensures r.Some? ==> |r.value| == |data| && AllWithinCaps(r.value)
    ensures r.Some? ==> forall i :: 0 <= i < |data| ==> FromDict(data[i]) == Some(r.value[i])
  {
    if data == [] then Some([])
    else
      var head := FromDict(data[0]);
      var rest := Load(data[1..]);
      if head.Some? && rest.Some? then Some([head.value] + rest.value) else None
  }

  /** Saving and loading again gives back the same list, field values at
      their caps and non-ASCII text included. */
  lemma SaveLoadRoundTrip(cs: seq<Contact>)
    requires AllWithinCaps(cs)
    ensures Load(Save(cs)) == Some(cs)
  {
    var data := Save(cs);
    forall i | 0 <= i < |cs| ensures FromDict(data[i]) == Some(cs[i]) {
      DictRoundTrip(cs[i]);
    }
    assert Load(data).Some?;
    var r := Load(data).value;
    assert forall i :: 0 <= i < |cs| ==> Some(r[i]) == FromDict(data[i]);
    assert r == cs;
  }

  /** Whether some contact has exactly this name. */
  predicate HasName(cs: seq<Contact>, name: string) {
    exists i :: 0 <= i < |cs| && cs[i].name == name
  }

  predicate DistinctNames(cs: seq<Contact>) {
    forall i, j :: 0 <= i < j < |cs| ==> cs[i].name != cs[j].name
  }

  /** Python's test `not s or len(s.strip()) == 0`. */
  predicate EmptyText(s: string)
    ensures EmptyText(s) <==> IsBlank(s)
  {
    s == [] || |Strip(s)| == 0
  }

  /** The fields of `fs` come in the order name, phone, email, address. */
  predicate InFieldOrder(fs: seq<Field>) {
    forall i, j :: 0 <= i < j < |fs| ==> Rank(fs[i]) < Rank(fs[j])
  }

  /** `fs.append(f)` when the check `c` holds. */
  function AppendIf(fs: seq<Field>, c: bool, f: Field): seq<Field> {
    if c then fs + [f] else fs
  }

  /** Appending, or not, a field that ranks after every field already
      listed keeps the list in field order. */
  lemma AppendInFieldOrder(fs: seq<Field>, c: bool, f: Field)
    requires InFieldOrder(fs)
    requires forall g :: g in fs ==> Rank(g) < Rank(f)
    ensures var r := AppendIf(fs, c, f);
      && InFieldOrder(r)
      && (forall g :: g in r ==> Rank(g) <= Rank(f))
      && (forall g :: g in r <==> g in fs || (c && g == f))
  {
    if c {
      var r := fs + [f];
      forall i, j | 0 <= i < j < |r| ensures Rank(r[i]) < Rank(r[j]) {
        assert r[i] == fs[i];
        if j < |fs| {
          assert r[j] == fs[j];
        } else {
          assert fs[i] in fs;
        }
      }
    }
  }

  /** The fields whose flag is set, in the order name, phone, email,
      address: an empty list and four checks each appending its field. */
  function FlaggedFields(name: bool, phone: bool, email: bool, address: bool): (fs: seq<Field>)
    ensures Name in fs <==> name
    ensures Phone in fs <==> phone
    ensures Email in fs <==> email
    ensures Address in fs <==> address
  {
    AppendIf(AppendIf(AppendIf(AppendIf([], name, Name), phone, Phone), email, Email), address, Address)
  }

  lemma FlaggedFieldsInOrder(name: bool, phone: bool, email: bool, address: bool)
    ensures InFieldOrder(FlaggedFields(name, phone, email, address))
  {
    var n := AppendIf([], name, Name);
    AppendInFieldOrder(n, phone, Phone);
    var p := AppendIf(n, phone, Phone);
    AppendInFieldOrder(p, email, Email);
    var e := AppendIf(p, email, Email);
    AppendInFieldOrder(e, address, Address);
  }

  /** The fields of the raw input `raw` that are empty or only whitespace,
      in the order name, phone, email, address, as `add_contact` lists them. */
  function EmptyFields(raw: Contact): (fs: seq<Field>)
    ensures Name in fs <==> IsBlank(raw.name)
    ensures Phone in fs <==> IsBlank(raw.phone)
    ensures Email in fs <==> IsBlank(raw.email)
    ensures Address in fs <==> IsBlank(raw.address)
    ensures InFieldOrder(fs)
  {
    FlaggedFieldsInOrder(EmptyText(raw.name), EmptyText(raw.phone), EmptyText(raw.email), EmptyText(raw.address));
    FlaggedFields(EmptyText(raw.name), EmptyText(raw.phone), EmptyText(raw.email), EmptyText(raw.address))
  }

  /** The first field, in the order name, phone, email, address, whose raw
      text is longer than its cap. */
  function FirstOverCap(raw: Contact): (r: Option<Field>)
    ensures r.None? <==> WithinCaps(raw)
    ensures r.Some? ==> |raw.Get(r.value)| > Cap(r.value)
    ensures r.Some? ==> forall f: Field :: Rank(f) < Rank(r.value) ==> |raw.Get(f)| <= Cap(f)
  {
    if |raw.name| > MaxNameLength then Some(Name)
    else if |raw.phone| > MaxPhoneLength then Some(Phone)
    else if |raw.email| > MaxEmailLength then Some(Email)
    else if |raw.address| > MaxAddressLength then Some(Address)
    else None
  }

  datatype AddError = MissingFields(fields: seq<Field>) | DuplicateName | TooLong(field: Field)

  /** The validation of `add_contact`, in its order: empty fields (all of
      them reported), then an exact duplicate of the raw name, then the raw
      lengths, the first field over its cap deciding. `None` means accepted. */
  function CheckAdd(cs: seq<Contact>, raw: Contact): (r: Option<AddError>)
    ensures r.None? <==> EmptyFields(raw) == [] && !HasName(cs, raw.name) && WithinCaps(raw)
    ensures (r.Some? && r.value.MissingFields?) <==> EmptyFields(raw) != []
    ensures r.Some? && r.value.MissingFields? ==> r.value.fields == EmptyFields(raw)
    ensures r == Some(DuplicateName) <==> EmptyFields(raw) == [] && HasName(cs, raw.name)
    ensures r.Some? && r.value.TooLong? <==> EmptyFields(raw) == [] && !HasName(cs, raw.name) && !WithinCaps(raw)
    ensures r.Some? && r.value.TooLong? ==> FirstOverCap(raw) == Some(r.value.field)
  {
    var missing := EmptyFields(raw);
    if missing != [] then Some(MissingFields(missing))
    else if HasName(cs, raw.name) then Some(DuplicateName)
    else
      match FirstOverCap(raw)
      case Some(f) => Some(TooLong(f))
      case None => None
  }

  /** The decimal digits of `n`, as an f-string writes it. */
  function DecimalString(n: nat): string {
    if n < 10 then [('0' as int + n) as char] else DecimalString(n / 10) + [('0' as int + n % 10) as char]
  }

  function Labels(fs: seq<Field>): seq<string> {
    seq(|fs|, i requires 0 <= i < |fs| => Label(fs[i]))
  }

  /** The message `add_contact` returns with its verdict: the success text
      exactly when the contact was added. */
  function AddMessage(r: Option<AddError>): (msg: string)
    ensures msg == "聯絡人新增成功！" <==> r.None?
  {
    match r
    case None => "聯絡人新增成功！"
    case Some(MissingFields(fs)) =>
      var m := "以下欄位為必填：" + Join(Labels(fs), ", ");
      assert m[0] == '以';
      m
    case Some(DuplicateName) => "已存在相同姓名的聯絡人！"
    case Some(TooLong(f)) =>
      var m := Label(f) + "長度不能超過" + DecimalString(Cap(f)) + "個字！";
      assert m[0] == Label(f)[0];
      m
  }

  lemma AppendWithinCaps(cs: seq<Contact>, c: Contact)
    requires AllWithinCaps(cs) && WithinCaps(c)
    ensures AllWithinCaps(cs + [c])
  {
  }

  /** Removing one contact keeps the list within the caps and its names
      distinct. */
  lemma RemoveKeepsInvariants(cs: seq<Contact>, i: nat)
    requires i < |cs|
    ensures AllWithinCaps(cs) ==> AllWithinCaps(cs[..i] + cs[i + 1..])
    ensures DistinctNames(cs) ==> DistinctNames(cs[..i] + cs[i + 1..])
  {
    var r := cs[..i] + cs[i + 1..];
    assert forall k :: 0 <= k < |r| ==> r[k] == cs[if k < i then k else k + 1];
  }

  /** Replacing a contact by one with the same name and within the caps
      keeps the names distinct and the list within the caps. */
  lemma ReplaceKeepsInvariants(cs: seq<Contact>, i: nat, u: Contact)
    requires i < |cs| && u.name == cs[i].name
    ensures AllWithinCaps(cs) && WithinCaps(u) ==> AllWithinCaps(cs[i := u])
    ensures DistinctNames(cs) ==> DistinctNames(cs[i := u])
  {
    assert forall k :: 0 <= k < |cs| ==> cs[i := u][k].name == cs[k].name;
  }

  /** An accepted input is stored exactly as given, and the list stays
      within the caps. */
  lemma AddAccepted(cs: seq<Contact>, raw: Contact)
    requires CheckAdd(cs, raw).None?
    ensures NewContact(raw.name, raw.phone, raw.email, raw.address) == raw
    ensures AllWithinCaps(cs) ==> AllWithinCaps(cs + [raw])
    ensures DistinctNames(cs) ==> DistinctNames(cs + [raw])
  {
    if AllWithinCaps(cs) {
      AppendWithinCaps(cs, raw);
    }
    if DistinctNames(cs) {
      AddKeepsNamesDistinct(cs, raw);
    }
  }

  /** A successful add keeps the names pairwise distinct. */
  lemma AddKeepsNamesDistinct(cs: seq<Contact>, raw: Contact)
    requires DistinctNames(cs) && CheckAdd(cs, raw).None?
    ensures DistinctNames(cs + [NewContact(raw.name, raw.phone, raw.email, raw.address)])
  {
    var cs' := cs + [NewContact(raw.name, raw.phone, raw.email, raw.address)];
    forall i, j | 0 <= i < j < |cs'| ensures cs'[i].name != cs'[j].name {
      if j == |cs| {
        assert cs'[i] == cs[i];
      } else {
        assert cs'[i] == cs[i] && cs'[j] == cs[j];
      }
    }
  }

  /** The contact `update_contact` leaves in place of `c`: each supplied
      field replaced by its argument cut to the cap, the others and the name
      kept. */
  function UpdateFields(c: Contact, phone: Option<string>, email: Option<string>, address: Option<string>): (u: Contact)
    ensures u.name == c.name
    ensures u.phone == if phone.Some? then Truncate(phone.value, MaxPhoneLength) else c.phone
    ensures u.email == if email.Some? then Truncate(email.value, MaxEmailLength) else c.email
    ensures u.address == if address.Some? then Truncate(address.value, MaxAddressLength) else c.address
    ensures WithinCaps(c) ==> WithinCaps(u)
  {
    var c1 := if phone.Some? then c.(phone := Truncate(phone.value, MaxPhoneLength)) else c;
    var c2 := if email.Some? then c1.(email := Truncate(email.value, MaxEmailLength)) else c1;
    if address.Some? then c2.(address := Truncate(address.value, MaxAddressLength)) else c2
  }

  /** The position of the first contact named exactly `name`. */
  function FirstWithName(cs: seq<Contact>, name: string): (r: Option<nat>)
    ensures r.None? <==> !HasName(cs, name)
    ensures r.Some? ==> r.value < |cs| && cs[r.value].name == name
    ensures r.Some? ==> forall k :: 0 <= k < r.value ==> cs[k].name != name
  {
    if cs == [] then None
    else if cs[0].name == name then Some(0)
    else
      match FirstWithName(cs[1..], name)
      case None => None
      case Some(i) =>
        assert cs[1..][i] == cs[i + 1];
        Some(i + 1)
  }

  /** `str(contact.name).strip()` for every contact, in store order. */
  function StrippedNames(cs: seq<Contact>): (names: seq<string>)
    ensures |names| == |cs|
    ensures forall i :: 0 <= i < |cs| ==> names[i] == Strip(cs[i].name)
  {
    seq(|cs|, i requires 0 <= i < |cs| => Strip(cs[i].name))
  }

  /** `[i for i, y in enumerate(xs) if y == x]`: the positions holding `x`,
      in increasing order. */
  function IndicesOf<T(==)>(xs: seq<T>, x: T): (ix: seq<nat>)
    ensures forall k :: 0 <= k < |ix| ==> ix[k] < |xs| && xs[ix[k]] == x
    ensures forall i :: 0 <= i < |xs| && xs[i] == x ==> i in ix
    ensures forall k, l :: 0 <= k < l < |ix| ==> ix[k] < ix[l]
  {
    if xs == [] then []
    else
      var front := xs[..|xs| - 1];
      var ix' := IndicesOf(front, x);
      var last := if xs[|xs| - 1] == x then [|xs| - 1] else [];
      assert forall i :: 0 <= i < |front| ==> xs[i] == front[i];
      IncreasingAppend(ix', last, |front|);
      ix' + last
  }

  /** Positions below `bound` followed by at most the position `bound` stay
      increasing. */
  lemma IncreasingAppend(ix: seq<nat>, last: seq<nat>, bound: nat)
    requires forall k :: 0 <= k < |ix| ==> ix[k] < bound
    requires forall k, l :: 0 <= k < l < |ix| ==> ix[k] < ix[l]
    requires last == [] || last == [bound]
    ensures forall k, l :: 0 <= k < l < |ix + last| ==> (ix + last)[k] < (ix + last)[l]
  {
  }

  /** The head of `IndicesOf` is the first position holding `x`, and the
      list is empty exactly when `x` does not occur. */
  lemma IndicesOfHead<T>(xs: seq<T>, x: T)
    ensures IndicesOf(xs, x) == [] <==> x !in xs
    ensures IndicesOf(xs, x) != [] ==>
      var i := IndicesOf(xs, x)[0];
      i < |xs| && xs[i] == x && x !in xs[..i]
  {
    var ix := IndicesOf(xs, x);
    if ix != [] {
      var i := ix[0];
      forall j | 0 <= j < |xs| && xs[j] == x ensures i <= j {
        assert j in ix;
        var k :| 0 <= k < |ix| && ix[k] == j;
        assert k == 0 || ix[0] < ix[k];
      }
    }
  }

  /** The search type that looks at every field; the other four search
      types are the field labels. */
  const AllFields := "全欄位"

  /** Whether `search_contacts` keeps contact `c` for the lower-cased query `q`. */
  predicate SearchHit(c: Contact, q: string, searchType: string) {
    if searchType == Label(Name) then Contains(Lower(c.name), q)
    else if searchType == Label(Phone) then Contains(Lower(c.phone), q)
    else if searchType == Label(Email) then Contains(Lower(c.email), q)
    else if searchType == Label(Address) then Contains(Lower(c.address), q)
    else if searchType == AllFields then
      Contains(Lower(c.name), q) || Contains(Lower(c.phone), q)
      || Contains(Lower(c.email), q) || Contains(Lower(c.address), q)
    else false
  }

  /** The contacts of `cs` that are hits, in store order. */
  function Hits(cs: seq<Contact>, q: string, searchType: string): (r: seq<Contact>)
    ensures |r| <= |cs|
  {
    if cs == [] then []
    else
      Hits(cs[..|cs| - 1], q, searchType)
      + (if SearchHit(cs[|cs| - 1], q, searchType) then [cs[|cs| - 1]] else [])
  }

  /** What `search_contacts(query, search_type)` returns: nothing for an
      empty query, otherwise the hits for the lower-cased query. */
  function SearchResults(cs: seq<Contact>, query: string, searchType: string): (r: seq<Contact>)
    ensures query == "" ==> r == []
    ensures query != "" ==> forall c :: c in r <==> c in cs && SearchHit(c, Lower(query), searchType)
    ensures SubsequenceOf(r, cs)
  {
    if query == "" then []
    else
      HitsAreTheMatches(cs, Lower(query), searchType);
      Hits(cs, Lower(query), searchType)
  }

  /** `a` is `b` with some elements left out, the rest in the same order. */
  ghost predicate SubsequenceOf<T>(a: seq<T>, b: seq<T>)
    decreases |b|
  {
    a == [] || (b != [] && (
      (a[|a| - 1] == b[|b| - 1] && SubsequenceOf(a[..|a| - 1], b[..|b| - 1]))
      || SubsequenceOf(a, b[..|b| - 1])))
  }

  /** The hits are exactly the contacts that match, kept in store order,
      each as many times as the store holds it. */
  lemma {:induction false} HitsAreTheMatches(cs: seq<Contact>, q: string, searchType: string)
    ensures forall c :: c in Hits(cs, q, searchType) <==> c in cs && SearchHit(c, q, searchType)
    ensures forall c :: multiset(Hits(cs, q, searchType))[c] == if SearchHit(c, q, searchType) then multiset(cs)[c] else 0
    ensures SubsequenceOf(Hits(cs, q, searchType), cs)
  {
    if cs != [] {
      var front := cs[..|cs| - 1];
      HitsAreTheMatches(front, q, searchType);
      assert cs == front + [cs[|cs| - 1]];
      assert multiset(cs) == multiset(front) + multiset{cs[|cs| - 1]};
      var r := Hits(cs, q, searchType);
      assert cs[..|cs| - 1] == front;
      if SearchHit(cs[|cs| - 1], q, searchType) {
        assert r[..|r| - 1] == Hits(front, q, searchType);
      } else {
        assert r == Hits(front, q, searchType);
        assert SubsequenceOf(r, cs[..|cs| - 1]);
      }
    }
  }

  /** A search of every field keeps a contact exactly when a search of one
      of its fields would. */
  lemma AllFieldsIsAnyField(c: Contact, q: string)
    ensures SearchHit(c, q, AllFields) <==> exists f: Field :: SearchHit(c, q, Label(f))
  {
    if SearchHit(c, q, AllFields) {
      if Contains(Lower(c.name), q) {
        assert SearchHit(c, q, Label(Name));
      } else if Contains(Lower(c.phone), q) {
        assert SearchHit(c, q, Label(Phone));
      } else if Contains(Lower(c.email), q) {
        assert SearchHit(c, q, Label(Email));
      } else {
        assert SearchHit(c, q, Label(Address));
      }
    }
  }

  /** An unknown search type finds nothing. */
  lemma {:induction false} UnknownSearchTypeFindsNothing(cs: seq<Contact>, q: string, searchType: string)
    requires searchType !in {Label(Name), Label(Phone), Label(Email), Label(Address), AllFields}
    ensures Hits(cs, q, searchType) == []
  {
    if cs != [] {
      UnknownSearchTypeFindsNothing(cs[..|cs| - 1], q, searchType);
    }
  }

  /** The in-memory contact list and its backing file. */
  class AddressBook {
    var contacts: seq<Contact>
    /** The backing file's list of dictionaries; `None` while there is no file. */
    var file: Option<seq<Record>>

    /** Every stored contact went through the constructor's truncation. */
    ghost predicate Valid()
      reads this`contacts
    {
      AllWithinCaps(contacts)
    }

    /** `AddressBook(filename)`: starts empty and loads the file if there
        is one. A file with an entry that is not exactly the four fields
        makes Python raise, so no address book comes into being. */
    constructor (initialFile: Option<seq<Record>>)
      requires initialFile.Some? ==> Load(initialFile.value).Some?
      ensures Valid() && file == initialFile
      ensures contacts == if initialFile.Some? then Load(initialFile.value).value else []
    {
      file := initialFile;
      contacts := [];
      new;
      var _ := LoadContacts();
    }

    /** `load_contacts`: replaces the list with the file's contents when the
        file exists. `ok` is false when `Contact(**entry)` raised for some
        entry, and then nothing changed. */
    method LoadContacts() returns (ok: bool)
      requires Valid()
      modifies this`contacts
      ensures Valid()
      ensures ok <==> (file.None? || Load(file.value).Some?)
      ensures contacts == if file.Some? && ok then Load(file.value).value else old(contacts)
    {
      if file.Some? {
        var loaded := Load(file.value);
        if loaded.Some? {
          contacts := loaded.value;
          ok := true;
        } else {
          ok := false;
        }
      } else {
        ok := true;
      }
    }

    /** `save_contacts`: the file is overwritten with the whole list. */
    method SaveContacts()
      modifies this`file
      ensures file == Some(Save(contacts))
    {
      file := Some(Save(contacts));
    }

    /** `add_contact`: on success exactly one contact, equal to the raw
        input, is appended and the file is rewritten; any failure leaves
        list and file as they were. */
    method AddContact(name: string, phone: string, email: string, address: string) returns (ok: bool, message: string)
      requires Valid()
      modifies this
      ensures Valid()
      ensures var r := CheckAdd(old(contacts), Contact(name, phone, email, address));
        ok == r.None? && message == AddMessage(r)
      ensures ok ==> contacts == old(contacts) + [Contact(name, phone, email, address)] && file == Some(Save(contacts))
      ensures !ok ==> contacts == old(contacts) && file == old(file)
      ensures old(DistinctNames(contacts)) ==> DistinctNames(contacts)
    {
      var raw := Contact(name, phone, email, address);
      var verdict := CheckAdd(contacts, raw);
      message := AddMessage(verdict);
      ok := verdict.None?;
      if ok {
        AddAccepted(contacts, raw);
        var contact := NewContact(name, phone, email, address);
        contacts := contacts + [contact];
        SaveContacts();
      }
    }

    /** `update_contact`: the first contact named exactly `name` gets the
        supplied fields (cut to their caps), everything else stays, and the
        file is rewritten; with no such contact nothing changes. */
    method UpdateContact(name: string, phone: Option<string>, email: Option<string>, address: Option<string>)
      returns (ok: bool, message: string)
      requires Valid()
      modifies this
      ensures Valid()
      ensures ok <==> HasName(old(contacts), name)
      ensures ok ==> var i := FirstWithName(old(contacts), name).value;
        contacts == old(contacts)[i := UpdateFields(old(contacts)[i], phone, email, address)]
        && file == Some(Save(contacts)) && message == "聯絡人更新成功！"
      ensures !ok ==> (contacts == old(contacts) && file == old(file)
                       && message == "找不到名為 " + name + " 的聯絡人！")
      ensures old(DistinctNames(contacts)) ==> DistinctNames(contacts)
    {
      var i := 0;
      while i < |contacts|
        invariant 0 <= i <= |contacts|
        invariant forall k :: 0 <= k < i ==> contacts[k].name != name
      {
        if contacts[i].name == name {
          assert FirstWithName(contacts, name) == Some(i);
          var updated := UpdateFields(contacts[i], phone, email, address);
          ReplaceKeepsInvariants(contacts, i, updated);
          contacts := contacts[i := updated];
          SaveContacts();
          return true, "聯絡人更新成功！";
        }
        i := i + 1;
      }
      return false, "找不到名為 " + name + " 的聯絡人！";
    }

    /** `delete_contact`: the first contact whose stripped name equals the
        stripped argument is removed, the others keep their order, and the
        file is rewritten; with no match nothing changes. */
    method DeleteContact(name: string) returns (ok: bool, message: string)
      requires Valid()
      modifies this
      ensures Valid()
      ensures ok <==> Strip(name) in StrippedNames(old(contacts))
      ensures ok ==> exists i :: (0 <= i < |old(contacts)|
                                  && StrippedNames(old(contacts))[i] == Strip(name)
                                  && Strip(name) !in StrippedNames(old(contacts))[..i]
                                  && contacts == old(contacts)[..i] + old(contacts)[i + 1..])
      ensures ok ==> file == Some(Save(contacts)) && message == "聯絡人刪除成功！"
      ensures !ok ==> (contacts == old(contacts) && file == old(file)
                       && message == "找不到名為 " + Strip(name) + " 的聯絡人！")
      ensures old(DistinctNames(contacts)) ==> DistinctNames(contacts)
    {
      var key := Strip(name);
      var names := StrippedNames(contacts);
      var indices := IndicesOf(names, key);
      IndicesOfHead(names, key);
      if indices != [] {
        var i := indices[0];
        ghost var before := contacts;
        RemoveKeepsInvariants(contacts, i);
        contacts := contacts[..i] + contacts[i + 1..];
        SaveContacts();
        assert 0 <= i < |before| && names[i] == key && key !in names[..i] && contacts == before[..i] + before[i + 1..];
        ok, message := true, "聯絡人刪除成功！";
      } else {
        ok, message := false, "找不到名為 " + key + " 的聯絡人！";
      }
    }

    /** `search_contacts`: the search results, gathered by one pass over the
        list; the store is not touched. */
    method SearchContacts(query: string, searchType: string) returns (found: seq<Contact>)
      ensures found == SearchResults(contacts, query, searchType)
    {
      if query == "" {
        return [];
      }
      var q := Lower(query);
      found := [];
      var i := 0;
      while i < |contacts|
        invariant 0 <= i <= |contacts|
        invariant found == Hits(contacts[..i], q, searchType)
      {
        assert contacts[..i + 1][..i] == contacts[..i];
        if SearchHit(contacts[i], q, searchType) {
          found := found + [contacts[i]];
        }
        i := i + 1;
      }
      assert contacts[..i] == contacts;
    }
  }
}
