/** The start-up of the Tk address book: its copy of `AddressBook` loads the
    file like the shared one, and when that leaves it with no contacts it
    fills itself with thirty test records through `add_contact`. */
module AddressBookGui {
  import opened Text
  import opened Models

  /** The record at position `i` of the list in `initialize_test_data`. */
  function TestRecord(i: nat): Contact
    requires i < 30
  {
    match i
    case 0 => Contact("張小明", "0912-345-678", "ming@example.com", "台北市信義區信義路100號")
    case 1 => Contact("李美麗", "0923-456-789", "mei@example.com", "台北市大安區和平東路200號")
    case 2 => Contact("王大華", "0934-567-890", "hua@example.com", "新北市板橋區中山路300號")
    case 3 => Contact("陳志明", "0945-678-901", "zhi@example.com", "台中市西區民生路400號")
    case 4 => Contact("林小芳", "0956-789-012", "fang@example.com", "高雄市前金區中正路500號")
    case 5 => Contact("黃建國", "0967-890-123", "guo@example.com", "台南市東區長榮路600號")
    case 6 => Contact("吳美玲", "0978-901-234", "ling@example.com", "桃園市中壢區環中東路700號")
    case 7 => Contact("蔡志豪", "0989-012-345", "hao@example.com", "新竹市東區光復路800號")
    case 8 => Contact("楊雅婷", "0990-123-456", "ting@example.com", "嘉義市西區民生路900號")
    case 9 => Contact("謝俊宏", "0901-234-567", "hong@example.com", "花蓮市國聯路1000號")
    case 10 => Contact("周雅文", "0912-111-222", "wen@example.com", "台北市中山區中山北路50號")
    case 11 => Contact("劉建宏", "0933-222-333", "hong@example.com", "新北市三重區重新路150號")
    case 12 => Contact("許雅琪", "0955-333-444", "chi@example.com", "桃園市桃園區中正路250號")
    case 13 => Contact("鄭博文", "0977-444-555", "wen@example.com", "台中市北區三民路350號")
    case 14 => Contact("朱家豪", "0988-555-666", "hao@example.com", "台南市北區公園路450號")
    case 15 => Contact("宋佳穎", "0910-666-777", "ying@example.com", "高雄市苓雅區五福路550號")
    case 16 => Contact("何志偉", "0922-777-888", "wei@example.com", "新竹市北區經國路650號")
    case 17 => Contact("馮淑芬", "0944-888-999", "fen@example.com", "嘉義市東區民族路750號")
    case 18 => Contact("趙明宏", "0966-999-000", "hong@example.com", "屏東市民生路850號")
    case 19 => Contact("沈雅婷", "0999-000-111", "ting@example.com", "宜蘭市中山路950號")
    case 20 => Contact("范智傑", "0911-121-212", "jie@example.com", "基隆市仁愛區仁一路60號")
    case 21 => Contact("龔雅雯", "0932-232-323", "wen@example.com", "新北市新店區北新路160號")
    case 22 => Contact("唐文豪", "0954-343-434", "hao@example.com", "桃園市龜山區文化一路260號")
    case 23 => Contact("彭俊傑", "0976-454-545", "jie@example.com", "新竹縣竹北市光明路360號")
    case 24 => Contact("董雅芳", "0987-565-656", "fang@example.com", "苗栗市中正路460號")
    case 25 => Contact("潘建志", "0909-676-767", "zhi@example.com", "南投市中興路560號")
    case 26 => Contact("藍雅琳", "0921-787-878", "lin@example.com", "彰化市中山路660號")
    case 27 => Contact("江志豪", "0943-898-989", "hao@example.com", "雲林市中正路760號")
    case 28 => Contact("盧佳怡", "0965-909-090", "yi@example.com", "台東市中華路860號")
    case _ => Contact("梁雅惠", "0998-010-101", "hui@example.com", "澎湖縣馬公市中正路960號")
  }

  /** The thirty records of `initialize_test_data`, in its order. */
  const TestContacts: seq<Contact> := seq(30, i requires 0 <= i < 30 => TestRecord(i))

  /** The surname that starts each test name, with the position of its
      record: the thirty surnames differ, so no two test names are equal. */
  const SurnameIndex: map<char, nat> := map[
    '張' := 0,
    '李' := 1,
    '王' := 2,
    '陳' := 3,
    '林' := 4,
    '黃' := 5,
    '吳' := 6,
    '蔡' := 7,
    '楊' := 8,
    '謝' := 9,
    '周' := 10,
    '劉' := 11,
    '許' := 12,
    '鄭' := 13,
    '朱' := 14,
    '宋' := 15,
    '何' := 16,
    '馮' := 17,
    '趙' := 18,
    '沈' := 19,
    '范' := 20,
    '龔' := 21,
    '唐' := 22,
    '彭' := 23,
    '董' := 24,
    '潘' := 25,
    '藍' := 26,
    '江' := 27,
    '盧' := 28,
    '梁' := 29
  ]

  /** Text that starts with a character other than whitespace. */
  predicate StartsWithText(s: string) {
    s != [] && !IsSpace(s[0])
  }

  /** What adding the record at position `i` needs of it. */
  predicate TestRecordFits(c: Contact, i: nat) {
    && WithinCaps(c)
    && StartsWithText(c.name) && StartsWithText(c.phone)
    && StartsWithText(c.email) && StartsWithText(c.address)
    && c.name[0] in SurnameIndex && SurnameIndex[c.name[0]] == i
  }

  /** Each record, one at a time. */
  lemma TestRecord0Fits() ensures TestRecordFits(TestRecord(0), 0) {}
  lemma TestRecord1Fits() ensures TestRecordFits(TestRecord(1), 1) {}
  lemma TestRecord2Fits() ensures TestRecordFits(TestRecord(2), 2) {}
  lemma TestRecord3Fits() ensures TestRecordFits(TestRecord(3), 3) {}
  lemma TestRecord4Fits() ensures TestRecordFits(TestRecord(4), 4) {}
  lemma TestRecord5Fits() ensures TestRecordFits(TestRecord(5), 5) {}
  lemma TestRecord6Fits() ensures TestRecordFits(TestRecord(6), 6) {}
  lemma TestRecord7Fits() ensures TestRecordFits(TestRecord(7), 7) {}
  lemma TestRecord8Fits() ensures TestRecordFits(TestRecord(8), 8) {}
  lemma TestRecord9Fits() ensures TestRecordFits(TestRecord(9), 9) {}
  lemma TestRecord10Fits() ensures TestRecordFits(TestRecord(10), 10) {}
  lemma TestRecord11Fits() ensures TestRecordFits(TestRecord(11), 11) {}
  lemma TestRecord12Fits() ensures TestRecordFits(TestRecord(12), 12) {}
  lemma TestRecord13Fits() ensures TestRecordFits(TestRecord(13), 13) {}
  lemma TestRecord14Fits() ensures TestRecordFits(TestRecord(14), 14) {}
  lemma TestRecord15Fits() ensures TestRecordFits(TestRecord(15), 15) {}
  lemma TestRecord16Fits() ensures TestRecordFits(TestRecord(16), 16) {}
  lemma TestRecord17Fits() ensures TestRecordFits(TestRecord(17), 17) {}
  lemma TestRecord18Fits() ensures TestRecordFits(TestRecord(18), 18) {}
  lemma TestRecord19Fits() ensures TestRecordFits(TestRecord(19), 19) {}
  lemma TestRecord20Fits() ensures TestRecordFits(TestRecord(20), 20) {}
  lemma TestRecord21Fits() ensures TestRecordFits(TestRecord(21), 21) {}
  lemma TestRecord22Fits() ensures TestRecordFits(TestRecord(22), 22) {}
  lemma TestRecord23Fits() ensures TestRecordFits(TestRecord(23), 23) {}
  lemma TestRecord24Fits() ensures TestRecordFits(TestRecord(24), 24) {}
  lemma TestRecord25Fits() ensures TestRecordFits(TestRecord(25), 25) {}
  lemma TestRecord26Fits() ensures TestRecordFits(TestRecord(26), 26) {}
  lemma TestRecord27Fits() ensures TestRecordFits(TestRecord(27), 27) {}
  lemma TestRecord28Fits() ensures TestRecordFits(TestRecord(28), 28) {}
  lemma TestRecord29Fits() ensures TestRecordFits(TestRecord(29), 29) {}

  lemma TestRecordFacts(i: nat)
    requires i < |TestContacts|
    ensures TestRecordFits(TestContacts[i], i)
  {
    assert TestContacts[i] == TestRecord(i);
    TestRecordFitsAt(i);
  }

  lemma TestRecordFitsAt(i: nat)
    requires i < 30
    ensures TestRecordFits(TestRecord(i), i)
  {
    if i == 0 { TestRecord0Fits(); }
    else if i == 1 { TestRecord1Fits(); }
    else if i == 2 { TestRecord2Fits(); }
    else if i == 3 { TestRecord3Fits(); }
    else if i == 4 { TestRecord4Fits(); }
    else if i == 5 { TestRecord5Fits(); }
    else if i == 6 { TestRecord6Fits(); }
    else if i == 7 { TestRecord7Fits(); }
    else if i == 8 { TestRecord8Fits(); }
    else if i == 9 { TestRecord9Fits(); }
    else if i == 10 { TestRecord10Fits(); }
    else if i == 11 { TestRecord11Fits(); }
    else if i == 12 { TestRecord12Fits(); }
    else if i == 13 { TestRecord13Fits(); }
    else if i == 14 { TestRecord14Fits(); }
    else if i == 15 { TestRecord15Fits(); }
    else if i == 16 { TestRecord16Fits(); }
    else if i == 17 { TestRecord17Fits(); }
    else if i == 18 { TestRecord18Fits(); }
    else if i == 19 { TestRecord19Fits(); }
    else if i == 20 { TestRecord20Fits(); }
    else if i == 21 { TestRecord21Fits(); }
    else if i == 22 { TestRecord22Fits(); }
    else if i == 23 { TestRecord23Fits(); }
    else if i == 24 { TestRecord24Fits(); }
    else if i == 25 { TestRecord25Fits(); }
    else if i == 26 { TestRecord26Fits(); }
    else if i == 27 { TestRecord27Fits(); }
    else if i == 28 { TestRecord28Fits(); }
    else { TestRecord29Fits(); }
  }

  /** A record whose four fields all start with text has no empty field. */
  lemma NoEmptyFields(c: Contact)
    requires StartsWithText(c.name) && StartsWithText(c.phone)
    requires StartsWithText(c.email) && StartsWithText(c.address)
    ensures EmptyFields(c) == []
  {
  }

  /** No two test records share a name. */
  lemma TestNamesDistinct()
    ensures DistinctNames(TestContacts)
  {
    forall i, j | 0 <= i < j < |TestContacts| ensures TestContacts[i].name != TestContacts[j].name {
      TestRecordFacts(i);
      TestRecordFacts(j);
    }
  }

  /** Every record passes the checks of `add_contact` against the records
      before it. */
  predicate AddableInOrder(records: seq<Contact>) {
    forall i :: 0 <= i < |records| ==> AcceptedAt(records, i)
  }

  /** The record at `i` passes the checks against those before it. */
  predicate AcceptedAt(records: seq<Contact>, i: nat)
    requires i < |records|
  {
    CheckAdd(records[..i], records[i]) == None
  }

  /** The test data does: each record passes every check of `add_contact`
      against the records added before it. */
  lemma TestDataAddable()
    ensures AddableInOrder(TestContacts)
  {
    TestNamesDistinct();
    forall i | 0 <= i < |TestContacts| ensures AcceptedAt(TestContacts, i) {
      TestRecordFacts(i);
      NoEmptyFields(TestContacts[i]);
    }
  }

  /** The file the test data leaves behind loads back as the same thirty
      records, so a second start finds them and does not add them again. */
  lemma TestDataReloads()
    ensures Load(Save(TestContacts)) == Some(TestContacts)
    ensures TestContacts != []
  {
    forall i | 0 <= i < |TestContacts| ensures WithinCaps(TestContacts[i]) {
      TestRecordFacts(i);
    }
    SaveLoadRoundTrip(TestContacts);
  }

  lemma TakeOneMore<T>(s: seq<T>, i: nat)
    requires i < |s|
    ensures s[..i + 1] == s[..i] + [s[i]]
  {
  }

  /** One turn of that loop: the record at `i` is accepted and appended. */
  method AddNext(book: AddressBook, records: seq<Contact>, i: nat)
    requires i < |records| && AcceptedAt(records, i)
    requires book.Valid() && book.contacts == records[..i]
    modifies book
    ensures book.Valid() && book.contacts == records[..i + 1]
    ensures book.file == Some(Save(book.contacts))
  {
    var c := records[i];
    TakeOneMore(records, i);
    var ok, _ := book.AddContact(c.name, c.phone, c.email, c.address);
  }

  /** The loop of `initialize_test_data`: `add_contact(**record)` for each
      record in turn, on a list emptied first. When every record passes
      its checks, the list becomes the records and the file holds them. */
  method AddEach(book: AddressBook, records: seq<Contact>)
    requires book.contacts == [] && AddableInOrder(records)
    modifies book
    ensures book.Valid() && book.contacts == records
    ensures records != [] ==> book.file == Some(Save(records))
    ensures records == [] ==> book.file == old(book.file)
  {
    var i := 0;
    while i < |records|
      invariant 0 <= i <= |records|
      invariant book.Valid()
      invariant book.contacts == records[..i]
      invariant i == 0 ==> book.file == old(book.file)
      invariant i > 0 ==> book.file == Some(Save(book.contacts))
    {
      AddNext(book, records, i);
      i := i + 1;
    }
    assert records[..i] == records;
  }

  /** `initialize_test_data`: empties the list, then adds the thirty
      records; every one of them is accepted, so the list ends up being
      exactly the test data, with distinct names, and the file holds it. */
  method InitializeTestData(book: AddressBook)
    modifies book
    ensures book.Valid()
    ensures book.contacts == TestContacts && DistinctNames(book.contacts)
    ensures book.file == Some(Save(TestContacts))
  {
    book.contacts := [];
    TestDataAddable();
    TestNamesDistinct();
    AddEach(book, TestContacts);
  }

  /** `AddressBook(filename)` of the Tk application: loads the file, and
      seeds the test data when that leaves no contacts, which is the case
      with no file and with a file holding an empty list. */
  method NewAddressBook(initialFile: Option<seq<Record>>) returns (book: AddressBook)
    requires initialFile.Some? ==> Load(initialFile.value).Some?
    ensures fresh(book) && book.Valid()
    ensures var loaded := if initialFile.Some? then Load(initialFile.value).value else [];
      && (loaded != [] ==> book.contacts == loaded && book.file == initialFile)
      && (loaded == [] ==> book.contacts == TestContacts && book.file == Some(Save(TestContacts)))
  {
    book := new AddressBook(initialFile);
    if book.contacts == [] {
      InitializeTestData(book);
    }
  }
}
