/**
 * The record of the repository's CSV conversion test (test_lambda.py), run
 * through the model: how `flatten_dict` and `convert_to_csv` treat it, and
 * how the submit handler's own flattening treats it.
 */
module ExampleRecord {
  import opened Wrappers
  import opened Json
  import opened Flatten
  import opened Csv
  import Text
  import Submission

  /** The record the repository's CSV conversion test passes to `convert_to_csv`. */
  const TestRecord: seq<Entry> := [
    Entry("id", Int(1)),
    Entry("name", Str("Test User")),
    Entry("email", Str("test@example.com")),
    Entry("address", Obj([Entry("city", Str("Test City")), Entry("zipcode", Str("12345"))])),
    Entry("company", Obj([Entry("name", Str("Test Company"))]))
  ]

  /** That record flattened: the two nested dicts inlined under `address_` and `company_`. */
  const TestFlat: seq<Entry> := [
    Entry("id", Int(1)),
    Entry("name", Str("Test User")),
    Entry("email", Str("test@example.com")),
    Entry("address_city", Str("Test City")),
    Entry("address_zipcode", Str("12345")),
    Entry("company_name", Str("Test Company"))
  ]

  /** The flattened test record's keys are distinct. */
  lemma TestFlatDistinct()
    ensures DistinctKeys(TestFlat)
  {
    var ks := Keys(TestFlat);
    assert ks == ["id", "name", "email", "address_city", "address_zipcode", "company_name"];
    assert ks[3][8] != ks[4][8];
    assert ks[3][0] != ks[5][0];
  }

  /** The joined names of the test record's nested keys. */
  lemma TestKeyJoins()
    ensures JoinKey("address", "city") == "address_city"
    ensures JoinKey("address", "zipcode") == "address_zipcode"
    ensures JoinKey("company", "name") == "company_name"
  {
  }

  /** A five-entry dict, one entry at a time. */
  lemma FiveEntries(s: seq<Entry>)
    requires |s| == 5
    ensures s == [s[0]] + ([s[1]] + ([s[2]] + ([s[3]] + ([s[4]] + []))))
  {
  }

  /** A six-entry dict as three entries, then two, then one. */
  lemma SixEntries(s: seq<Entry>)
    requires |s| == 6
    ensures s == [s[0]] + ([s[1]] + ([s[2]] + (s[3..5] + (s[5..] + []))))
  {
  }

  /** The test record's flattened values, in column order. */
  lemma TestFlatValues()
    ensures |TestFlat| == 6
    ensures TestFlat[0].val == Int(1) && TestFlat[1].val == Str("Test User")
    ensures TestFlat[2].val == Str("test@example.com") && TestFlat[3].val == Str("Test City")
    ensures TestFlat[4].val == Str("12345") && TestFlat[5].val == Str("Test Company")
  {
  }

  /** The test record's `address` dict becomes `address_city` and `address_zipcode`. */
  lemma TestAddressFlattens()
    ensures FlatEntry(TestRecord[3], "") == TestFlat[3..5]
  {
    TestKeyJoins();
    var a := TestFlat[3..5];
    var city, zip := Entry("city", Str("Test City")), Entry("zipcode", Str("12345"));
    assert TestRecord[3].val.fields == [city] + [zip];
    FlatItemsCons(city, [zip], "address");
    FlatItemsCons(zip, [], "address");
    assert [zip] == [zip] + [];
    assert FlatItems(TestRecord[3].val.fields, "address") == a;
    assert a[0].key[8] != a[1].key[8];
    DictOfIdentity(a);
  }

  /** The test record's `company` dict becomes `company_name`. */
  lemma TestCompanyFlattens()
    ensures FlatEntry(TestRecord[4], "") == TestFlat[5..]
  {
    TestKeyJoins();
    var name := Entry("name", Str("Test Company"));
    assert TestRecord[4].val.fields == [name] + [];
    FlatItemsCons(name, [], "company");
    assert FlatItems(TestRecord[4].val.fields, "company") == TestFlat[5..];
    DictOfIdentity(TestFlat[5..]);
  }

  /** The test record flattens to `id, name, email, address_city, address_zipcode, company_name`. */
  lemma TestRecordFlattens()
    ensures FlattenDict(TestRecord, "") == TestFlat
  {
    var e0, e1, e2 := TestRecord[0], TestRecord[1], TestRecord[2];
    var e3, e4 := TestRecord[3], TestRecord[4];
    TestAddressFlattens();
    TestCompanyFlattens();
    assert FlatEntry(e0, "") == [TestFlat[0]];
    assert FlatEntry(e1, "") == [TestFlat[1]];
    assert FlatEntry(e2, "") == [TestFlat[2]];
    FiveEntries(TestRecord);
    FlatItemsCons(e4, [], "");
    FlatItemsCons(e3, [e4] + [], "");
    FlatItemsCons(e2, [e3] + ([e4] + []), "");
    FlatItemsCons(e1, [e2] + ([e3] + ([e4] + [])), "");
    FlatItemsCons(e0, [e1] + ([e2] + ([e3] + ([e4] + []))), "");
    SixEntries(TestFlat);
    TestFlatDistinct();
    DictOfIdentity(TestFlat);
  }

  /** The header line the repository's CSV test gets for its record: `id,name,email,address_city,address_zipcode,company_name`. */
  const TestHeader: string :=
    "id" + "," + "name" + "," + "email" + "," + "address_city" + "," + "address_zipcode" + "," + "company_name"

  /** The data row the repository's CSV test gets for its record: `1,Test User,test@example.com,Test City,12345,Test Company`. */
  const TestRow: string :=
    "1" + "," + "Test User" + "," + "test@example.com" + "," + "Test City" + "," + "12345" + "," + "Test Company"

  /** Two or more fields joined: the first, the separator, then the rest joined. */
  lemma JoinCons(sep: char, p: seq<string>)
    requires |p| >= 2
    ensures Text.Join(sep, p) == p[0] + [sep] + Text.Join(sep, p[1..])
  {
  }

  /** Six fields joined by a separator: the separator goes between each pair. */
  lemma JoinSix(sep: char, p: seq<string>)
    requires |p| == 6
    ensures Text.Join(sep, p) == p[0] + [sep] + p[1] + [sep] + p[2] + [sep] + p[3] + [sep] + p[4] + [sep] + p[5]
  {
    JoinCons(sep, p);
    JoinCons(sep, p[1..]);
    JoinCons(sep, p[2..]);
    JoinCons(sep, p[3..]);
    JoinCons(sep, p[4..]);
    assert p[1..][1..] == p[2..] && p[2..][1..] == p[3..] && p[3..][1..] == p[4..] && p[4..][1..] == p[5..];
    assert p[5..] == [p[5]];
  }

  /** The test record's header line: its flattened keys, nested ones under `parent_child`. */
  lemma TestRecordHeader()
    ensures Headers([TestRecord]) == Keys(TestFlat)
    ensures Text.Join(',', Headers([TestRecord])) == TestHeader
  {
    TestRecordFlattens();
    assert [TestRecord][0] == TestRecord;
    var ks := Keys(TestFlat);
    JoinSix(',', ks);
    TestKeyJoins();
    assert ks[0] == "id" && ks[1] == "name" && ks[2] == "email";
    assert ks[3] == "address_city" && ks[4] == "address_zipcode" && ks[5] == "company_name";
  }

  /** The test record's name fields need no quoting. */
  lemma TestNamesPlain()
    ensures Plain("Test User") && Plain("Test City") && Plain("Test Company")
  {
  }

  /** Nor do its e-mail and zip code fields. */
  lemma TestContactsPlain()
    ensures Plain("test@example.com") && Plain("12345")
  {
  }

  /** The test record's fields: the integer rendered by `str`, the strings as they are. */
  lemma TestFlatCells()
    ensures Cells(Keys(TestFlat), TestFlat) == ["1", "Test User", "test@example.com", "Test City", "12345", "Test Company"]
  {
    var row := ["1", "Test User", "test@example.com", "Test City", "12345", "Test Company"];
    assert PyStr(Int(1)) == "1" by { assert Text.Digits(1) == [Text.DigitChar(1)]; }
    TestNamesPlain();
    TestContactsPlain();
    TestFlatValues();
    TestFlatDistinct();
    RowOfOwnKeys(TestFlat, row);
  }

  /** The test record's data row. */
  lemma TestRecordRow()
    ensures Cells(Headers([TestRecord]), FlattenDict(TestRecord, ""))
         == ["1", "Test User", "test@example.com", "Test City", "12345", "Test Company"]
    ensures Text.Join(',', Cells(Headers([TestRecord]), FlattenDict(TestRecord, ""))) == TestRow
  {
    TestRecordHeader();
    TestRecordFlattens();
    TestFlatCells();
    var c := ["1", "Test User", "test@example.com", "Test City", "12345", "Test Company"];
    JoinSix(',', c);
  }

  /** Neither line holds a newline. */
  lemma TestLinesOneLine()
    ensures '\n' !in TestHeader && '\n' !in TestRow
  {
  }

  /** The test's data gives the header line and then one data row. */
  lemma TestRecordLines()
    ensures CsvLines([TestRecord]) == [TestHeader, TestRow]
  {
    TestRecordHeader();
    TestRecordRow();
    OneRecordLines(TestRecord);
  }

  /**
   * `convert_to_csv` on the repository test's record is non-empty, and
   * splitting it on newlines gives the header line and the one data row.
   */
  lemma TestRecordCsv()
    ensures CsvText([TestRecord]) == TestHeader + "\n" + TestRow
    ensures Text.Split(CsvText([TestRecord]), '\n') == [TestHeader, TestRow]
  {
    TestRecordLines();
    TestLinesOneLine();
    TwoLineCsv([TestRecord], TestHeader, TestRow);
  }

  /**
   * The record of the repository's CSV test yields no table here: its header
   * is `id,name,email,address,company`, and `address_city` is not among them.
   */
  lemma TestRecordNotDerived()
    ensures Submission.Derive(Parsed(List([Obj(TestRecord)]))) == None
  {
    var items := [Obj(TestRecord)];
    var ks := Keys(items[0].fields);
    assert ks == ["id", "name", "email", "address", "company"];
    assert |"address" + "_" + "city"| == 12;
    Submission.NestedFirstRecordNotWritable(items, 3);
  }
}
