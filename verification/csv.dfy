/**
 * `convert_to_csv` (lambda/lambda_function.py): records are flattened, the
 * header row is the first record's flattened keys, and each record becomes a
 * row with one field per header. String fields are escaped close to section 2
 * of RFC 4180 (rules 6 and 7); headers and non-string fields are not escaped
 * at all, and a carriage return does not force quoting.
 */
module Csv {
  import opened Wrappers
  import opened Json
  import opened Flatten
  import Text

  /** One record of the input list: a dict. */
  type Record = seq<Entry>

  /** Every double quote in `s` doubled, every other character kept. */
  function DoubleQuotes(s: string): string
  {
    if s == [] then []
    else (if s[0] == '"' then "\"\"" else [s[0]]) + DoubleQuotes(s[1..])
  }

  /** Doubling quotes adds no other character and removes none; quotes stay present or absent. */
  lemma {:induction false} DoubleQuotesChars(s: string)
    ensures forall c :: c != '"' ==> (c in DoubleQuotes(s) <==> c in s)
    ensures '"' in DoubleQuotes(s) <==> '"' in s
  {
    if s != [] {
      DoubleQuotesChars(s[1..]);
      var head := if s[0] == '"' then "\"\"" else [s[0]];
      assert DoubleQuotes(s) == head + DoubleQuotes(s[1..]);
      assert s == [s[0]] + s[1..];
    }
  }

  /** The condition under which `convert_to_csv` wraps an escaped field in quotes. */
  predicate NeedsQuotes(t: string)
  {
    ',' in t || '"' in t || '\n' in t
  }

  /** The escaping `convert_to_csv` applies to a string value. */
  function Escape(s: string): string
  {
    var t := DoubleQuotes(s);
    if NeedsQuotes(t) then "\"" + t + "\"" else t
  }

  /** A field that starts and ends with a quote. */
  predicate IsQuoted(f: string)
  {
    |f| >= 2 && f[0] == '"' && f[|f| - 1] == '"'
  }

  /** Reading back a doubled quote as one quote. */
  function Undouble(t: string): string
    decreases |t|
  {
    if |t| >= 2 && t[0] == '"' && t[1] == '"' then "\"" + Undouble(t[2..])
    else if t == [] then []
    else [t[0]] + Undouble(t[1..])
  }

  /** How a CSV reader recovers a field's text: strip enclosing quotes, then undouble. */
  function Unquote(f: string): string
  {
    if IsQuoted(f) then Undouble(f[1..|f| - 1]) else f
  }

  lemma {:induction false} UndoubleDouble(s: string)
    ensures Undouble(DoubleQuotes(s)) == s
  {
    if s != [] {
      UndoubleDouble(s[1..]);
      var t := DoubleQuotes(s);
      if s[0] == '"' {
        assert t[2..] == DoubleQuotes(s[1..]);
      } else {
        assert t[1..] == DoubleQuotes(s[1..]);
      }
    }
  }

  /** Escaping is undone by the reader: every string survives the round trip. */
  lemma EscapeRoundTrip(s: string)
    ensures Unquote(Escape(s)) == s
  {
    var t := DoubleQuotes(s);
    UndoubleDouble(s);
    if NeedsQuotes(t) {
      var f := "\"" + t + "\"";
      assert f[1..|f| - 1] == t;
    } else {
      DoubleQuotesChars(s);
      assert '"' !in s;
      NoQuoteUnchanged(s);
      assert |s| > 0 ==> s[0] in s;
    }
  }

  /**
   * A field is enclosed in quotes exactly when the string holds a comma, a
   * quote or a newline; otherwise it passes through unchanged.
   */
  lemma EscapeQuotesIff(s: string)
    ensures IsQuoted(Escape(s)) <==> NeedsQuotes(s)
    ensures !NeedsQuotes(s) ==> Escape(s) == s
  {
    var t := DoubleQuotes(s);
    DoubleQuotesChars(s);
    assert NeedsQuotes(t) <==> NeedsQuotes(s);
    if !NeedsQuotes(s) {
      assert DoubleQuotes(s) == s by {
        NoQuoteUnchanged(s);
      }
      assert |s| > 0 ==> s[0] in s;
    }
  }

  lemma {:induction false} NoQuoteUnchanged(s: string)
    requires '"' !in s
    ensures DoubleQuotes(s) == s
  {
    if s != [] {
      assert s[0] in s;
      NoQuoteUnchanged(s[1..]);
      assert [s[0]] + s[1..] == s;
    }
  }

  /**
   * The worked example's shape: `He said "hi", ok` is `a"b"c` with
   * `a = He said `, `b = hi`, `c = , ok`. Each internal quote is doubled and,
   * the text holding a comma, the whole field is enclosed in quotes:
   * `"He said ""hi"", ok"`.
   */
  lemma EscapeQuotedText(a: string, b: string, c: string)
    requires '"' !in a && '"' !in b && '"' !in c
    ensures Escape(a + "\"" + b + "\"" + c) == "\"" + a + "\"\"" + b + "\"\"" + c + "\""
  {
    var t := a + "\"\"" + b + "\"\"" + c;
    DoubledQuotedText(a, b, c);
    assert NeedsQuotes(t) by { assert t[|a|] == '"'; }
    EscapeQuoting(a + "\"" + b + "\"" + c, t);
  }

  /** The doubling step of that example: each of the two quotes is doubled, nothing else changes. */
  lemma DoubledQuotedText(a: string, b: string, c: string)
    requires '"' !in a && '"' !in b && '"' !in c
    ensures DoubleQuotes(a + "\"" + b + "\"" + c) == a + "\"\"" + b + "\"\"" + c
  {
    var q, qq := "\"", "\"\"";
    var t1 := q + c;
    assert DoubleQuotes(t1) == qq + c by { QuoteFirst(c); NoQuoteUnchanged(c); }
    var t2 := b + t1;
    assert DoubleQuotes(t2) == b + (qq + c) by { PlainPrefix(b, t1); }
    var t3 := q + t2;
    assert DoubleQuotes(t3) == qq + (b + (qq + c)) by { QuoteFirst(t2); }
    var t4 := a + t3;
    assert DoubleQuotes(t4) == a + (qq + (b + (qq + c))) by { PlainPrefix(a, t3); }
    assert t4 == a + q + b + q + c;
    assert a + (qq + (b + (qq + c))) == a + qq + b + qq + c;
  }

  /** A text whose doubling needs quotes is escaped by enclosing the doubling in quotes. */
  lemma EscapeQuoting(s: string, t: string)
    requires DoubleQuotes(s) == t && NeedsQuotes(t)
    ensures Escape(s) == "\"" + t + "\""
  {
  }

  /** A prefix without quotes passes through the doubling unchanged. */
  lemma {:induction false} PlainPrefix(a: string, rest: string)
    requires '"' !in a
    ensures DoubleQuotes(a + rest) == a + DoubleQuotes(rest)
  {
    if a == [] {
      assert a + rest == rest;
    } else {
      assert a[0] in a;
      assert (a + rest)[1..] == a[1..] + rest;
      PlainPrefix(a[1..], rest);
      assert a == [a[0]] + a[1..];
    }
  }

  /** A leading quote is doubled. */
  lemma QuoteFirst(rest: string)
    ensures DoubleQuotes("\"" + rest) == "\"\"" + DoubleQuotes(rest)
  {
    assert ("\"" + rest)[1..] == rest;
  }

  lemma {:induction false} DoubleQuotesConcat(a: string, b: string)
    ensures DoubleQuotes(a + b) == DoubleQuotes(a) + DoubleQuotes(b)
  {
    if a == [] {
      assert a + b == b;
    } else {
      var head := if a[0] == '"' then "\"\"" else [a[0]];
      assert (a + b)[0] == a[0];
      assert (a + b)[1..] == a[1..] + b;
      DoubleQuotesConcat(a[1..], b);
      assert DoubleQuotes(a + b) == head + DoubleQuotes(a[1..] + b);
      assert DoubleQuotes(a) == head + DoubleQuotes(a[1..]);
    }
  }

  /** A carriage return alone does not cause quoting (RFC 4180 would quote it). */
  lemma CarriageReturnNotQuoted()
    ensures Escape("a\rb") == "a\rb"
  {
    EscapeQuotesIff("a\rb");
  }

  /** The text of one field: strings are escaped, every other value goes through `str()` unquoted. */
  function RenderValue(v: Value): string
  {
    if v.Str? then Escape(v.s) else PyStr(v)
  }

  /** The field for `header` in a flattened record, rendered; a missing header reads as the empty string. */
  function Cell(flat: seq<Entry>, header: string): string
  {
    RenderValue(Lookup(flat, header).GetOr(Str("")))
  }

  /** The fields of one data row, one per header. */
  function Cells(headers: seq<string>, flat: seq<Entry>): seq<string>
  {
    seq(|headers|, i requires 0 <= i < |headers| => Cell(flat, headers[i]))
  }

  /** The header row's fields: the first record's flattened keys, in order. */
  function Headers(data: seq<Record>): seq<string>
    requires |data| > 0
  {
    Keys(FlattenDict(data[0], ""))
  }

  /** One line per record, its fields joined by commas. */
  function DataLines(headers: seq<string>, data: seq<Record>): seq<string>
  {
    seq(|data|, i requires 0 <= i < |data| => Text.Join(',', Cells(headers, FlattenDict(data[i], ""))))
  }

  /** The header line followed by the data lines. */
  function CsvLines(data: seq<Record>): seq<string>
    requires |data| > 0
  {
    [Text.Join(',', Headers(data))] + DataLines(Headers(data), data)
  }

  /** What `convert_to_csv(data)` returns for a list of dicts. */
  function CsvText(data: seq<Record>): string
  {
    if |data| == 0 then "" else Text.Join('\n', CsvLines(data))
  }

  /**
   * `convert_to_csv` as the source writes it: the header line, then for each
   * record a row built field by field, then the lines joined by newlines.
   */
  method ConvertToCsv(data: seq<Record>) returns (csv: string)
    ensures csv == CsvText(data)
    ensures |data| == 0 ==> csv == ""
  {
    if |data| == 0 {
      return "";
    }
    var headers := Keys(FlattenDict(data[0], ""));
    var csvLines := [Text.Join(',', headers)];
    var i := 0;
    while i < |data|
      invariant 0 <= i <= |data|
      invariant |csvLines| == i + 1 && csvLines[0] == Text.Join(',', headers)
      invariant forall k :: 0 <= k < i ==> csvLines[k + 1] == Text.Join(',', Cells(headers, FlattenDict(data[k], "")))
    {
      var flattened := FlattenDict(data[i], "");
      var row := RenderRow(headers, flattened);
      ghost var before := csvLines;
      csvLines := csvLines + [Text.Join(',', row)];
      forall k | 0 <= k < i + 1
        ensures csvLines[k + 1] == Text.Join(',', Cells(headers, FlattenDict(data[k], "")))
      {
        if k < i {
          assert csvLines[k + 1] == before[k + 1];
        }
      }
      i := i + 1;
    }
    LinesAreCsvLines(data, csvLines);
    csv := Text.Join('\n', csvLines);
  }

  /** The lines the loop collects are the specified lines. */
  lemma LinesAreCsvLines(data: seq<Record>, lines: seq<string>)
    requires |data| > 0 && |lines| == |data| + 1
    requires lines[0] == Text.Join(',', Headers(data))
    requires forall k :: 0 <= k < |data| ==> lines[k + 1] == Text.Join(',', Cells(Headers(data), FlattenDict(data[k], "")))
    ensures lines == CsvLines(data)
  {
    var expected := CsvLines(data);
    forall k | 0 <= k < |lines| ensures lines[k] == expected[k] {
      if k > 0 {
        assert expected[k] == DataLines(Headers(data), data)[k - 1];
      }
    }
  }

  /** The inner loop of `convert_to_csv`: one field per header, escaping strings in place. */
  method RenderRow(headers: seq<string>, flattened: seq<Entry>) returns (row: seq<string>)
    ensures row == Cells(headers, flattened)
  {
    row := [];
    var j := 0;
    while j < |headers|
      invariant 0 <= j <= |headers|
      invariant |row| == j
      invariant forall k :: 0 <= k < j ==> row[k] == Cell(flattened, headers[k])
    {
      var value := Lookup(flattened, headers[j]).GetOr(Str(""));
      var text;
      if value.Str? {
        text := DoubleQuotes(value.s);
        if ',' in text || '"' in text || '\n' in text {
          text := "\"" + text + "\"";
        }
      } else {
        text := PyStr(value);
      }
      row := row + [text];
      j := j + 1;
    }
  }

  /** The empty list renders as the empty string. */
  lemma EmptyInput()
    ensures CsvText([]) == ""
  {
  }

  /**
   * The output is the header line (the first record's flattened keys, joined
   * by commas without escaping), a newline, then the data lines.
   */
  lemma HeaderFirst(data: seq<Record>)
    requires |data| > 0
    ensures CsvText(data) == Text.Join(',', Headers(data)) + "\n" + Text.Join('\n', DataLines(Headers(data), data))
  {
    var lines := CsvLines(data);
    assert |lines| >= 2;
    assert lines[1..] == DataLines(Headers(data), data);
  }

  /** There is one line per record plus the header line. */
  lemma LineCount(data: seq<Record>)
    requires |data| > 0
    ensures |CsvLines(data)| == 1 + |data|
    ensures CsvLines(data)[0] == Text.Join(',', Headers(data))
  {
  }

  /** When no field holds a newline, splitting the text on newlines gives back exactly those lines. */
  lemma SplitLines(data: seq<Record>)
    requires |data| > 0
    requires forall i :: 0 <= i < |CsvLines(data)| ==> '\n' !in CsvLines(data)[i]
    ensures Text.Split(CsvText(data), '\n') == CsvLines(data)
    ensures |Text.Split(CsvText(data), '\n')| == 1 + |data|
  {
    Text.SplitJoin('\n', CsvLines(data));
  }

  /** Every data row has exactly one field per header. */
  lemma RowWidth(headers: seq<string>, flat: seq<Entry>)
    requires |headers| > 0
    requires forall i :: 0 <= i < |headers| ==> ',' !in Cell(flat, headers[i])
    ensures Text.Split(Text.Join(',', Cells(headers, flat)), ',') == Cells(headers, flat)
    ensures |Cells(headers, flat)| == |headers|
  {
    Text.SplitJoin(',', Cells(headers, flat));
  }

  /** A header missing from a record renders as an empty field. */
  lemma MissingKeyEmpty(flat: seq<Entry>, header: string)
    requires header !in Keys(flat)
    ensures Cell(flat, header) == ""
  {
    assert DoubleQuotes("") == "";
  }

  /**
   * Keys that are not in the header are dropped: entries under them change
   * no row, wherever they sit in the record's key order.
   */
  lemma ExtraKeysDropped(headers: seq<string>, pre: seq<Entry>, extra: seq<Entry>, post: seq<Entry>)
    requires forall i :: 0 <= i < |headers| ==> headers[i] !in Keys(extra)
    ensures Cells(headers, pre + extra + post) == Cells(headers, pre + post)
  {
    forall i | 0 <= i < |headers| ensures Cell(pre + extra + post, headers[i]) == Cell(pre + post, headers[i]) {
      LookupSkip(pre, extra, post, headers[i]);
    }
  }

  /**
   * A non-string value is rendered with `str()` and never quoted: None
   * becomes `None` (not an empty field), and a list keeps its commas bare.
   */
  lemma NonStringUnquoted(flat: seq<Entry>, header: string, v: Value)
    requires Lookup(flat, header) == Some(v) && !v.Str?
    ensures Cell(flat, header) == PyStr(v)
    ensures v == Null ==> Cell(flat, header) == "None"
    ensures v.List? ==> Cell(flat, header) == ReprOf(v)
  {
  }

  /** An integer field is plain digits: it never needs quoting. */
  lemma IntFieldPlain(flat: seq<Entry>, header: string, n: int)
    requires Lookup(flat, header) == Some(Int(n))
    ensures !NeedsQuotes(Cell(flat, header))
  {
    var d := Text.Digits(if n < 0 then -n else n);
    assert forall c :: c in d ==> '0' <= c <= '9';
  }

  /** A string field is the escaped string, so a reader recovers it exactly. */
  lemma StringFieldRecovered(flat: seq<Entry>, header: string, s: string)
    requires Lookup(flat, header) == Some(Str(s))
    ensures Unquote(Cell(flat, header)) == s
  {
    EscapeRoundTrip(s);
  }

  /** A record with distinct keys, read under its own keys, gives back its own values in order. */
  lemma OwnKeysCells(flat: seq<Entry>)
    requires DistinctKeys(flat)
    ensures |Cells(Keys(flat), flat)| == |flat|
    ensures forall i :: 0 <= i < |flat| ==> Cells(Keys(flat), flat)[i] == RenderValue(flat[i].val)
  {
    forall i | 0 <= i < |flat| ensures Cell(flat, Keys(flat)[i]) == RenderValue(flat[i].val) {
      LookupDistinct(flat, i);
    }
  }

  /** A field text that `convert_to_csv` writes out untouched. */
  predicate Plain(s: string)
  {
    '"' !in s && ',' !in s && '\n' !in s
  }

  /**
   * A record with distinct keys, read under its own keys, is the row of its
   * values when every string value is plain and every other value reads as `str()` gives it.
   */
  lemma RowOfOwnKeys(flat: seq<Entry>, row: seq<string>)
    requires DistinctKeys(flat) && |row| == |flat|
    requires forall i :: 0 <= i < |flat| ==>
      if flat[i].val.Str? then flat[i].val.s == row[i] && Plain(row[i]) else PyStr(flat[i].val) == row[i]
    ensures Cells(Keys(flat), flat) == row
  {
    OwnKeysCells(flat);
    forall i | 0 <= i < |flat| && flat[i].val.Str? ensures RenderValue(flat[i].val) == row[i] {
      PlainField(row[i]);
    }
  }

  /** A string with no quote, comma or newline is written as it is. */
  lemma PlainField(s: string)
    requires Plain(s)
    ensures RenderValue(Str(s)) == s
  {
    NoQuoteUnchanged(s);
  }

  /** A single record gives its header line and then its own data row. */
  lemma OneRecordLines(rec: Record)
    ensures CsvLines([rec]) == [Text.Join(',', Headers([rec])), Text.Join(',', Cells(Headers([rec]), FlattenDict(rec, "")))]
  {
    assert [rec][0] == rec;
  }

  /** Two lines without newlines: the text is them joined by one newline, and it splits back into them. */
  lemma TwoLineCsv(data: seq<Record>, head: string, row: string)
    requires |data| > 0 && CsvLines(data) == [head, row]
    requires '\n' !in head && '\n' !in row
    ensures CsvText(data) == head + "\n" + row
    ensures Text.Split(CsvText(data), '\n') == [head, row]
  {
    var lines := CsvLines(data);
    assert lines[1..] == [row];
    assert Text.Join('\n', lines) == head + ['\n'] + row;
    assert forall i :: 0 <= i < |lines| ==> '\n' !in lines[i];
    SplitLines(data);
  }
}
