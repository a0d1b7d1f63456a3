/**
 * The nested `flatten_dict` of `convert_to_csv` (lambda/lambda_function.py):
 * nested dicts are inlined under `parent_child` keys to any depth, and the
 * collected (key, value) pairs are turned back into a dict with `dict(items)`.
 */
module Flatten {
  import opened Wrappers
  import opened Json

  /** The separator `flatten_dict` is always called with. */
  const Sep: char := '_'

  /** A nested key: the parent key, `_` and the key; at the top level, with no parent, the key alone. */
  function JoinKey(parent: string, k: string): string
  {
    if parent == "" then k else parent + [Sep] + k
  }

  /**
   * `d[k] = v` on an insertion-ordered dict: an existing key keeps its
   * position and takes the new value; a new key goes to the end.
   */
  function SetItem(d: seq<Entry>, k: string, v: Value): (r: seq<Entry>)
    ensures |r| == if k in Keys(d) then |d| else |d| + 1
  {
    if d == [] then [Entry(k, v)]
    else if d[0].key == k then [Entry(k, v)] + d[1..]
    else
      assert k in Keys(d) <==> k in Keys(d[1..]) by {
        assert Keys(d) == [d[0].key] + Keys(d[1..]);
      }
      [d[0]] + SetItem(d[1..], k, v)
  }

  /** Assignment keeps the key order, appending the key only when it is new. */
  lemma {:induction false} SetItemKeys(d: seq<Entry>, k: string, v: Value)
    ensures Keys(SetItem(d, k, v)) == if k in Keys(d) then Keys(d) else Keys(d) + [k]
  {
    if d == [] {
      assert Keys(SetItem(d, k, v)) == [k];
    } else if d[0].key == k {
      assert SetItem(d, k, v) == [Entry(k, v)] + d[1..];
      assert Keys(d)[0] == k;
      assert Keys(SetItem(d, k, v)) == Keys(d);
    } else {
      var rest := Keys(d[1..]);
      assert Keys(d) == [d[0].key] + rest;
      SetItemKeys(d[1..], k, v);
      assert Keys(SetItem(d, k, v)) == [d[0].key] + Keys(SetItem(d[1..], k, v));
      if k in rest {
        assert Keys(SetItem(d, k, v)) == Keys(d);
      } else {
        assert [d[0].key] + (rest + [k]) == Keys(d) + [k];
      }
    }
  }

  /** After `d[k] = v`, `k` maps to `v` and every other key to what it mapped to before. */
  lemma {:induction false} SetItemLookup(d: seq<Entry>, k: string, v: Value, k': string)
    ensures Lookup(SetItem(d, k, v), k') == if k' == k then Some(v) else Lookup(d, k')
  {
    if d != [] && d[0].key != k {
      SetItemLookup(d[1..], k, v, k');
    }
  }

  /** Assigning a new key appends one entry. */
  lemma {:induction false} SetItemNew(d: seq<Entry>, k: string, v: Value)
    requires k !in Keys(d)
    ensures SetItem(d, k, v) == d + [Entry(k, v)]
  {
    if d != [] {
      assert Keys(d) == [d[0].key] + Keys(d[1..]);
      assert d[0].key != k && k !in Keys(d[1..]);
      SetItemNew(d[1..], k, v);
      assert SetItem(d, k, v) == [d[0]] + SetItem(d[1..], k, v);
      assert [d[0]] + (d[1..] + [Entry(k, v)]) == d + [Entry(k, v)];
    }
  }

  /** First positions: `ks` with every repeated key after its first occurrence removed. */
  function Dedup(ks: seq<string>): seq<string>
  {
    if ks == [] then []
    else
      var p := Dedup(ks[..|ks| - 1]);
      if ks[|ks| - 1] in p then p else p + [ks[|ks| - 1]]
  }

  /** The value of the last pair with key `k`. */
  function LastValue(items: seq<Entry>, k: string): (r: Option<Value>)
    ensures r.Some? <==> k in Keys(items)
    ensures r.Some? ==> Entry(k, r.value) in items
  {
    if items == [] then None
    else if items[|items| - 1].key == k then Some(items[|items| - 1].val)
    else
      assert Keys(items) == Keys(items[..|items| - 1]) + [items[|items| - 1].key];
      LastValue(items[..|items| - 1], k)
  }

  /** `dict(items)`. */
  function DictOf(items: seq<Entry>): seq<Entry>
  {
    if items == [] then []
    else
      var last := items[|items| - 1];
      SetItem(DictOf(items[..|items| - 1]), last.key, last.val)
  }

  /** `dict(items)` keeps each key at the position of its first occurrence. */
  lemma {:induction false} DictOfKeys(items: seq<Entry>)
    ensures Keys(DictOf(items)) == Dedup(Keys(items))
  {
    if items != [] {
      var init := items[..|items| - 1];
      var last := items[|items| - 1];
      var ks := Keys(items);
      DictOfKeys(init);
      SetItemKeys(DictOf(init), last.key, last.val);
      assert ks[..|ks| - 1] == Keys(init);
      assert ks[|ks| - 1] == last.key;
      var p := Dedup(Keys(init));
      assert Dedup(ks) == if last.key in p then p else p + [last.key];
      assert DictOf(items) == SetItem(DictOf(init), last.key, last.val);
    }
  }

  /** `dict(items)` gives each key the value of its last occurrence. */
  lemma {:induction false} DictOfLookup(items: seq<Entry>, k: string)
    ensures Lookup(DictOf(items), k) == LastValue(items, k)
  {
    if items != [] {
      var init := items[..|items| - 1];
      var last := items[|items| - 1];
      DictOfLookup(init, k);
      SetItemLookup(DictOf(init), last.key, last.val, k);
    }
  }

  /** Every key of a deduplicated list is distinct. */
  lemma {:induction false} DedupDistinct(ks: seq<string>)
    ensures forall i, j :: 0 <= i < j < |Dedup(ks)| ==> Dedup(ks)[i] != Dedup(ks)[j]
  {
    if ks != [] {
      DedupDistinct(ks[..|ks| - 1]);
    }
  }

  /** The result of `dict(items)` is a dict: no key twice. */
  lemma DictOfDistinct(items: seq<Entry>)
    ensures DistinctKeys(DictOf(items))
  {
    DictOfKeys(items);
    DedupDistinct(Keys(items));
    var r := DictOf(items);
    forall i, j | 0 <= i < j < |r| ensures r[i].key != r[j].key {
      assert Keys(r)[i] == r[i].key && Keys(r)[j] == r[j].key;
    }
  }

  /** `dict(items)` of pairs whose keys are already distinct is those pairs. */
  lemma {:induction false} DictOfIdentity(items: seq<Entry>)
    requires DistinctKeys(items)
    ensures DictOf(items) == items
  {
    if items != [] {
      var init := items[..|items| - 1];
      var last := items[|items| - 1];
      DictOfIdentity(init);
      assert last.key !in Keys(init);
      SetItemNew(init, last.key, last.val);
      assert init + [last] == items;
    }
  }

  /**
   * The `items` list `flatten_dict(d, parent_key)` builds before `dict(items)`:
   * a dict value is replaced by the entries of its own flattening under the
   * joined key; every other value (None, lists, scalars) is kept as a leaf.
   */
  function FlatItems(d: seq<Entry>, parent: string): seq<Entry>
    decreases d
  {
    if d == [] then [] else FlatEntry(d[0], parent) + FlatItems(d[1..], parent)
  }

  /** What one loop iteration of `flatten_dict` adds to `items`. */
  function FlatEntry(e: Entry, parent: string): seq<Entry>
    decreases e
  {
    var key := JoinKey(parent, e.key);
    match e.val
    case Obj(sub) => DictOf(FlatItems(sub, key))
    case v => [Entry(key, v)]
  }

  /** `flatten_dict(d, parent_key)`. */
  function FlattenDict(d: seq<Entry>, parent: string): seq<Entry>
  {
    DictOf(FlatItems(d, parent))
  }

  /** No entry holds a dict. */
  predicate IsFlat(d: seq<Entry>)
  {
    forall i :: 0 <= i < |d| ==> !d[i].val.Obj?
  }

  /** Flattening distributes over a split of the input dict. */
  lemma {:induction false} FlatItemsAppend(a: seq<Entry>, b: seq<Entry>, parent: string)
    ensures FlatItems(a + b, parent) == FlatItems(a, parent) + FlatItems(b, parent)
  {
    if a == [] {
      assert a + b == b;
    } else {
      assert (a + b)[0] == a[0];
      assert (a + b)[1..] == a[1..] + b;
      FlatItemsAppend(a[1..], b, parent);
    }
  }

  /** Every value `dict(items)` keeps is a value of some pair in `items`. */
  lemma DictOfValues(items: seq<Entry>, i: nat)
    requires i < |DictOf(items)|
    ensures Entry(DictOf(items)[i].key, DictOf(items)[i].val) in items
  {
    var r := DictOf(items);
    DictOfDistinct(items);
    LookupDistinct(r, i);
    DictOfLookup(items, r[i].key);
  }

  /** The pairs `flatten_dict` collects are all leaves. */
  lemma {:induction false} FlatItemsLeaves(d: seq<Entry>, parent: string)
    ensures IsFlat(FlatItems(d, parent))
    decreases d
  {
    if d != [] {
      FlatEntryLeaves(d[0], parent);
      FlatItemsLeaves(d[1..], parent);
    }
  }

  lemma {:induction false} FlatEntryLeaves(e: Entry, parent: string)
    ensures IsFlat(FlatEntry(e, parent))
    decreases e
  {
    var key := JoinKey(parent, e.key);
    match e.val {
      case Obj(sub) =>
        FlatItemsLeaves(sub, key);
        var r := DictOf(FlatItems(sub, key));
        forall i | 0 <= i < |r| ensures !r[i].val.Obj? {
          DictOfValues(FlatItems(sub, key), i);
        }
      case _ =>
    }
  }

  /**
   * Flattening leaves no dict behind, and its keys are distinct: a dict
   * value has been replaced by its children's keys, to any depth.
   */
  lemma FlattenIsFlat(d: seq<Entry>, parent: string)
    ensures IsFlat(FlattenDict(d, parent))
    ensures DistinctKeys(FlattenDict(d, parent))
  {
    var items := FlatItems(d, parent);
    FlatItemsLeaves(d, parent);
    DictOfDistinct(items);
    forall i | 0 <= i < |DictOf(items)| ensures !DictOf(items)[i].val.Obj? {
      DictOfValues(items, i);
    }
  }

  /** Every key of `dict(items)` is a key of `items`. */
  lemma DictOfKeysFrom(items: seq<Entry>, k: string)
    requires k in Keys(DictOf(items))
    ensures k in Keys(items)
  {
    DictOfLookup(items, k);
  }

  /** Every key `flatten_dict` collects under a non-empty parent starts with `parent_`. */
  lemma {:induction false} FlatItemsPrefix(d: seq<Entry>, parent: string, k: string)
    requires parent != "" && k in Keys(FlatItems(d, parent))
    ensures parent + [Sep] <= k
    decreases d
  {
    var head := FlatEntry(d[0], parent);
    var rest := FlatItems(d[1..], parent);
    assert Keys(head + rest) == Keys(head) + Keys(rest);
    if k in Keys(rest) {
      FlatItemsPrefix(d[1..], parent, k);
    } else {
      FlatEntryPrefix(d[0], parent, k);
    }
  }

  lemma {:induction false} FlatEntryPrefix(e: Entry, parent: string, k: string)
    requires parent != "" && k in Keys(FlatEntry(e, parent))
    ensures parent + [Sep] <= k
    decreases e
  {
    var key := JoinKey(parent, e.key);
    assert parent + [Sep] <= key;
    match e.val {
      case Obj(sub) =>
        DictOfKeysFrom(FlatItems(sub, key), k);
        FlatItemsPrefix(sub, key, k);
        assert key + [Sep] <= k;
      case _ =>
    }
  }

  /** Under a non-empty parent key, every flattened key is `parent_child`. */
  lemma FlattenPrefix(d: seq<Entry>, parent: string)
    requires parent != ""
    ensures forall k :: k in Keys(FlattenDict(d, parent)) ==> parent + [Sep] <= k
  {
    forall k | k in Keys(FlattenDict(d, parent)) ensures parent + [Sep] <= k {
      DictOfKeysFrom(FlatItems(d, parent), k);
      FlatItemsPrefix(d, parent, k);
    }
  }

  /** A non-dict value contributes its own pair, under the joined key, to the collected items. */
  lemma {:induction false} FlatItemsHasLeaf(d: seq<Entry>, parent: string, i: nat)
    requires i < |d| && !d[i].val.Obj?
    ensures Entry(JoinKey(parent, d[i].key), d[i].val) in FlatItems(d, parent)
    decreases i
  {
    assert FlatItems(d, parent) == FlatEntry(d[0], parent) + FlatItems(d[1..], parent);
    if i == 0 {
      assert FlatEntry(d[0], parent) == [Entry(JoinKey(parent, d[0].key), d[0].val)];
    } else {
      assert d[1..][i - 1] == d[i];
      FlatItemsHasLeaf(d[1..], parent, i - 1);
    }
  }

  /**
   * Every non-dict value of a record keeps a column under its joined key; at
   * the top level (empty parent) that is the record's own key, with no `_`.
   */
  lemma LeafKeyKept(d: seq<Entry>, parent: string, i: nat)
    requires i < |d| && !d[i].val.Obj?
    ensures JoinKey(parent, d[i].key) in Keys(FlattenDict(d, parent))
    ensures parent == "" ==> d[i].key in Keys(FlattenDict(d, parent))
  {
    var key := JoinKey(parent, d[i].key);
    var items := FlatItems(d, parent);
    FlatItemsHasLeaf(d, parent, i);
    var j :| 0 <= j < |items| && items[j] == Entry(key, d[i].val);
    assert Keys(items)[j] == key;
    DictOfLookup(items, key);
  }

  /** Top-level keys get no `_` prefix: a dict without nested dicts flattens to itself. */
  lemma {:induction false} FlatRecordUnchanged(d: seq<Entry>)
    requires IsFlat(d) && DistinctKeys(d)
    ensures FlattenDict(d, "") == d
  {
    FlatItemsOfFlat(d);
    DictOfIdentity(d);
  }

  lemma {:induction false} FlatItemsOfFlat(d: seq<Entry>)
    requires IsFlat(d)
    ensures FlatItems(d, "") == d
  {
    if d != [] {
      FlatItemsOfFlat(d[1..]);
      assert [d[0]] + d[1..] == d;
    }
  }

  /** A key whose value is an empty dict contributes no key at all. */
  lemma EmptyObjectVanishes(pre: seq<Entry>, k: string, post: seq<Entry>, parent: string)
    ensures FlattenDict(pre + [Entry(k, Obj([]))] + post, parent) == FlattenDict(pre + post, parent)
  {
    var empty := [Entry(k, Obj([]))];
    assert FlatItems(empty, parent) == [] by {
      assert FlatItems([], JoinKey(parent, k)) == [];
      assert empty[1..] == [];
    }
    FlatItemsAppend(pre + empty, post, parent);
    FlatItemsAppend(pre, empty, parent);
    FlatItemsAppend(pre, post, parent);
    assert FlatItems(pre + empty, parent) == FlatItems(pre, parent);
  }

  /** The entry `{k1: {k2: ... {kn: v}}}` for the key path `ks`. */
  function Nest(ks: seq<string>, v: Value): Entry
    requires |ks| > 0
  {
    if |ks| == 1 then Entry(ks[0], v) else Entry(ks[0], Obj([Nest(ks[1..], v)]))
  }

  /** The flattened key for the key path `ks` under `parent`. */
  function PathKey(parent: string, ks: seq<string>): string
    decreases ks
  {
    if ks == [] then parent else PathKey(JoinKey(parent, ks[0]), ks[1..])
  }

  /** A leaf nested to any depth comes out under its `parent_k1_..._kn` key. */
  lemma {:induction false} NestedLeaf(ks: seq<string>, v: Value, parent: string)
    requires |ks| > 0 && !v.Obj?
    ensures FlattenDict([Nest(ks, v)], parent) == [Entry(PathKey(parent, ks), v)]
  {
    var single := [Entry(PathKey(parent, ks), v)];
    var key := JoinKey(parent, ks[0]);
    if |ks| == 1 {
      assert PathKey(key, ks[1..]) == key;
      assert FlatEntry(Nest(ks, v), parent) == single;
    } else {
      NestedLeaf(ks[1..], v, key);
      assert FlatEntry(Nest(ks, v), parent) == FlattenDict([Nest(ks[1..], v)], key);
    }
    assert [Nest(ks, v)][1..] == [];
    assert FlatItems([Nest(ks, v)], parent) == single + [];
    DictOfIdentity(single);
  }

  /** A flattened key that repeats keeps its first position and its last value. */
  lemma DuplicateFlattenedKey()
    ensures FlattenDict([Entry("a_b", Int(1)), Entry("a", Obj([Entry("b", Int(2))]))], "")
         == [Entry("a_b", Int(2))]
  {
    var inner := [Entry("b", Int(2))];
    NestedLeaf(["b"], Int(2), "a");
    assert Nest(["b"], Int(2)) == Entry("b", Int(2));
    assert PathKey("a", ["b"]) == "a_b";
    var d := [Entry("a_b", Int(1)), Entry("a", Obj(inner))];
    assert FlatEntry(d[1], "") == [Entry("a_b", Int(2))] by {
      assert FlatEntry(d[1], "") == FlattenDict(inner, "a");
    }
    var items := [Entry("a_b", Int(1)), Entry("a_b", Int(2))];
    assert FlatEntry(d[0], "") == [Entry("a_b", Int(1))];
    assert d[1..][1..] == [];
    assert FlatItems(d[1..], "") == FlatEntry(d[1], "") + FlatItems(d[1..][1..], "");
    assert FlatItems(d, "") == FlatEntry(d[0], "") + FlatItems(d[1..], "");
    assert FlatItems(d, "") == items;
    assert items[..1] == [Entry("a_b", Int(1))];
    assert DictOf(items[..1]) == [Entry("a_b", Int(1))];
  }
  /** Flattening a dict that starts with `e` starts with what `e` contributes. */
  lemma FlatItemsCons(e: Entry, rest: seq<Entry>, parent: string)
    ensures FlatItems([e] + rest, parent) == FlatEntry(e, parent) + FlatItems(rest, parent)
  {
    assert ([e] + rest)[0] == e && ([e] + rest)[1..] == rest;
  }
}
