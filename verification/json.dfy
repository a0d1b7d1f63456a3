/**
 * JSON-like values as the handlers see them after `json.loads`: Python's
 * None, bool, int, float, str, list and dict. A dict is an ordered list of
 * key/value entries, because Python dicts keep insertion order.
 */
module Json {
  import opened Wrappers
  import Text

  datatype Value =
    | Null
    | Bool(b: bool)
    | Int(i: int)
    | Float(r: real)
    | Str(s: string)
    | List(items: seq<Value>)
    | Obj(fields: seq<Entry>)

  datatype Entry = Entry(key: string, val: Value)

  /** What `json.loads` gives for a text: a value, or the decoder's error message. */
  datatype Parsed = Parsed(value: Value) | Malformed(message: string)

  /**
   * Python's `str()` of a float, a list or a dict. Its text (float formatting,
   * `repr` of the elements) is not modelled: it is an uninterpreted function.
   */
  const ReprOf: Value -> string

  /** Python's `str(v)`. */
  function PyStr(v: Value): string
  {
    match v
    case Null => "None"
    case Bool(b) => if b then "True" else "False"
    case Int(i) => Text.Decimal(i)
    case Str(s) => s
    case _ => ReprOf(v)
  }

  /** Python truthiness: None, False, zero and empty containers are false. */
  predicate Truthy(v: Value)
  {
    match v
    case Null => false
    case Bool(b) => b
    case Int(i) => i != 0
    case Float(r) => r != 0.0
    case Str(s) => s != ""
    case List(items) => items != []
    case Obj(fields) => fields != []
  }

  /** Python's `type(v).__name__`, as it appears in an AttributeError message. */
  function TypeName(v: Value): string
  {
    match v
    case Null => "NoneType"
    case Bool(_) => "bool"
    case Int(_) => "int"
    case Float(_) => "float"
    case Str(_) => "str"
    case List(_) => "list"
    case Obj(_) => "dict"
  }

  /** The keys of a dict, in order (`list(d.keys())`). */
  function Keys(d: seq<Entry>): (ks: seq<string>)
    ensures |ks| == |d|
    ensures forall i :: 0 <= i < |d| ==> ks[i] == d[i].key
  {
    seq(|d|, i requires 0 <= i < |d| => d[i].key)
  }

  /** No key occurs twice: what every Python dict satisfies. */
  predicate DistinctKeys(d: seq<Entry>)
  {
    forall i, j :: 0 <= i < j < |d| ==> d[i].key != d[j].key
  }

  /** `d.get(k)`: the value of the first entry with key `k`. */
  function Lookup(d: seq<Entry>, k: string): (r: Option<Value>)
    ensures r.Some? <==> k in Keys(d)
    ensures r.Some? ==> Entry(k, r.value) in d
  {
    if d == [] then None
    else if d[0].key == k then Some(d[0].val)
    else
      assert k in Keys(d) <==> k in Keys(d[1..]) by {
        assert Keys(d) == [d[0].key] + Keys(d[1..]);
      }
      Lookup(d[1..], k)
  }

  /** `v.get(k)` when `v` is a dict; `None` for any other value. */
  function Field(v: Value, k: string): Option<Value>
  {
    if v.Obj? then Lookup(v.fields, k) else None
  }

  /** In a dict, `d.get(k)` finds exactly the value stored beside `k`. */
  lemma {:induction false} LookupDistinct(d: seq<Entry>, i: nat)
    requires DistinctKeys(d) && i < |d|
    ensures Lookup(d, d[i].key) == Some(d[i].val)
  {
    if i > 0 {
      LookupDistinct(d[1..], i - 1);
    }
  }

  /** Looking up a key that none of the leading entries has skips them. */
  lemma {:induction false} LookupSkipFront(extra: seq<Entry>, rest: seq<Entry>, k: string)
    requires k !in Keys(extra)
    ensures Lookup(extra + rest, k) == Lookup(rest, k)
  {
    if extra == [] {
      assert extra + rest == rest;
    } else {
      assert Keys(extra)[0] == extra[0].key;
      assert Keys(extra[1..]) == Keys(extra)[1..];
      assert (extra + rest)[0] == extra[0];
      assert (extra + rest)[1..] == extra[1..] + rest;
      LookupSkipFront(extra[1..], rest, k);
    }
  }

  /** Entries whose keys differ from `k` do not change a lookup of `k`, wherever they sit. */
  lemma {:induction false} LookupSkip(pre: seq<Entry>, extra: seq<Entry>, post: seq<Entry>, k: string)
    requires k !in Keys(extra)
    ensures Lookup(pre + extra + post, k) == Lookup(pre + post, k)
  {
    if pre == [] {
      assert pre + extra + post == extra + post;
      assert pre + post == post;
      LookupSkipFront(extra, post, k);
    } else {
      assert (pre + extra + post)[0] == pre[0] && (pre + post)[0] == pre[0];
      assert (pre + extra + post)[1..] == pre[1..] + extra + post;
      assert (pre + post)[1..] == pre[1..] + post;
      LookupSkip(pre[1..], extra, post, k);
    }
  }

  /** Looking up a key not among the appended entries ignores them. */
  lemma {:induction false} LookupAppend(d: seq<Entry>, extra: seq<Entry>, k: string)
    requires k !in Keys(extra)
    ensures Lookup(d + extra, k) == Lookup(d, k)
  {
    if d == [] {
      assert d + extra == extra;
    } else {
      assert (d + extra)[1..] == d[1..] + extra;
      LookupAppend(d[1..], extra, k);
    }
  }
}
