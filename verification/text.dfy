/**
 * The few Python `str` operations the handlers rely on: joining and
 * splitting on one character, `endswith`, the last path segment of a key and
 * `str()` of an integer.
 */
module Text {

  /** `str.join` with a one-character separator: the parts with `sep` between neighbours. */
  function Join(sep: char, parts: seq<string>): string
  {
    if |parts| == 0 then ""
    else if |parts| == 1 then parts[0]
    else parts[0] + [sep] + Join(sep, parts[1..])
  }

  /** `str.split` on a one-character separator: never empty, and the empty string splits to one empty part. */
  function Split(s: string, sep: char): (r: seq<string>)
    ensures |r| >= 1
  {
    if s == [] then [""]
    else
      var rest := Split(s[1..], sep);
      if s[0] == sep then [""] + rest
      else [[s[0]] + rest[0]] + rest[1..]
  }

  /** Splitting a piece without separators followed by anything glues the piece onto the first part. */
  lemma {:induction false} SplitPrefix(p: string, sep: char, q: string)
    requires sep !in p
    ensures Split(p + q, sep) == [p + Split(q, sep)[0]] + Split(q, sep)[1..]
  {
    var sq := Split(q, sep);
    if p == [] {
      assert p + q == q;
      assert p + sq[0] == sq[0];
      assert [sq[0]] + sq[1..] == sq;
    } else {
      assert (p + q)[0] == p[0];
      assert (p + q)[1..] == p[1..] + q;
      SplitPrefix(p[1..], sep, q);
      assert [p[0]] + (p[1..] + Split(q, sep)[0]) == p + Split(q, sep)[0];
    }
  }

  /** `split` undoes `join` when no part contains the separator. */
  lemma {:induction false} SplitJoin(sep: char, parts: seq<string>)
    requires |parts| >= 1
    requires forall i :: 0 <= i < |parts| ==> sep !in parts[i]
    ensures Split(Join(sep, parts), sep) == parts
  {
    if |parts| == 1 {
      SplitPrefix(parts[0], sep, []);
      assert parts[0] + [] == parts[0];
    } else {
      var rest := Join(sep, parts[1..]);
      SplitJoin(sep, parts[1..]);
      assert parts[0] + [sep] + rest == parts[0] + ([sep] + rest);
      SplitPrefix(parts[0], sep, [sep] + rest);
      assert ([sep] + rest)[0] == sep && ([sep] + rest)[1..] == rest;
      assert Split([sep] + rest, sep) == [""] + parts[1..];
      assert parts[0] + "" == parts[0];
      assert [parts[0]] + parts[1..] == parts;
    }
  }

  /** `str.endswith`: `suffix` ends `s`. */
  predicate EndsWith(s: string, suffix: string)
  {
    |suffix| <= |s| && s[|s| - |suffix|..] == suffix
  }

  /** The last element of a non-empty list: `parts[-1]`. */
  function Last(parts: seq<string>): string
    requires |parts| >= 1
  {
    parts[|parts| - 1]
  }

  /** A string splits into a single part exactly when it holds no separator, and then into itself. */
  lemma {:induction false} SplitWithout(s: string, sep: char)
    ensures |Split(s, sep)| == 1 <==> sep !in s
    ensures sep !in s ==> Split(s, sep) == [s]
  {
    if s != [] {
      SplitWithout(s[1..], sep);
      assert s == [s[0]] + s[1..];
      if s[0] != sep && sep !in s[1..] {
        assert Split(s, sep) == [[s[0]] + s[1..]];
      }
    }
  }

  /** How the last part changes when one more character comes in front. */
  lemma SplitStep(s: string, sep: char)
    requires s != []
    ensures var rest := Split(s[1..], sep);
      Last(Split(s, sep)) == if s[0] == sep || |rest| > 1 then Last(rest) else [s[0]] + rest[0]
  {
  }

  /** The last part holds no separator. */
  lemma {:induction false} LastWithout(s: string, sep: char)
    ensures sep !in Last(Split(s, sep))
  {
    if s != [] {
      SplitStep(s, sep);
      LastWithout(s[1..], sep);
    }
  }

  /** The last part ends the string. */
  lemma {:induction false} LastEnds(s: string, sep: char)
    ensures EndsWith(s, Last(Split(s, sep)))
  {
    if s != [] {
      var rest := Split(s[1..], sep);
      var r := Last(Split(s, sep));
      SplitStep(s, sep);
      if s[0] == sep || |rest| > 1 {
        assert r == Last(rest);
        LastEnds(s[1..], sep);
        var t := s[1..];
        assert |r| <= |t| && t[|t| - |r|..] == r;
        assert s[|s| - |r|..] == t[|t| - |r|..];
      } else {
        SplitWithout(s[1..], sep);
        assert rest == [s[1..]];
        assert r == [s[0]] + s[1..];
        assert s[0..] == s;
      }
    }
  }

  /** When the string holds a separator, one stands right before the last part. */
  lemma {:induction false} LastAfterSeparator(s: string, sep: char)
    requires sep in s
    ensures var r := Last(Split(s, sep));
      |r| < |s| && s[|s| - |r| - 1] == sep
  {
    var rest := Split(s[1..], sep);
    var r := Last(Split(s, sep));
    SplitStep(s, sep);
    SplitWithout(s[1..], sep);
    assert s == [s[0]] + s[1..];
    if sep in s[1..] {
      LastAfterSeparator(s[1..], sep);
      assert s[|s| - |r| - 1] == s[1..][|s[1..]| - |r| - 1];
    } else {
      assert s[0] == sep;
      assert r == s[1..];
    }
  }

  /**
   * The last part of a split on `/`: the text after the last slash. The result holds no
   * slash, ends `s`, and when `s` holds a slash it stands right after one.
   */
  function LastSegment(s: string): (r: string)
    ensures '/' !in r
    ensures EndsWith(s, r)
    ensures '/' in s ==> |r| < |s| && s[|s| - |r| - 1] == '/'
    ensures '/' !in s ==> r == s
  {
    LastWithout(s, '/');
    LastEnds(s, '/');
    if '/' in s then
      LastAfterSeparator(s, '/');
      Last(Split(s, '/'))
    else
      SplitWithout(s, '/');
      Last(Split(s, '/'))
  }

  /** The last part of `a + sep + b` is `b` when `b` holds no separator, whatever `a` is. */
  lemma {:induction false} LastPiece(a: string, sep: char, b: string)
    requires sep !in b
    ensures Last(Split(a + [sep] + b, sep)) == b
  {
    var s := a + [sep] + b;
    var rest := Split(s[1..], sep);
    SplitStep(s, sep);
    if a == [] {
      assert s[0] == sep && s[1..] == b;
      SplitWithout(b, sep);
    } else {
      assert s[0] == a[0] && s[1..] == a[1..] + [sep] + b;
      LastPiece(a[1..], sep, b);
      SplitWithout(s[1..], sep);
      assert (a[1..] + [sep] + b)[|a| - 1] == sep;
      assert |rest| > 1;
    }
  }

  /** The file name of `dir/name` is `name`. */
  lemma LastSegmentAfterSlash(dir: string, name: string)
    requires '/' !in name
    ensures LastSegment(dir + "/" + name) == name
  {
    LastPiece(dir, '/', name);
  }

  /** The decimal digit for `d`. */
  function DigitChar(d: nat): char
    requires d < 10
  {
    "0123456789"[d]
  }

  /** `str(n)` for a natural number: a non-empty run of decimal digits. */
  function Digits(n: nat): (r: string)
    ensures |r| > 0
    ensures forall i :: 0 <= i < |r| ==> '0' <= r[i] <= '9'
  {
    if n < 10 then [DigitChar(n)] else Digits(n / 10) + [DigitChar(n % 10)]
  }

  /** `str(i)` for a Python int: a minus sign, then the digits of the magnitude. */
  function Decimal(i: int): string
  {
    if i < 0 then "-" + Digits(-i) else Digits(i)
  }
}
