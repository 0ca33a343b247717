/** The per-logger field overlay: an insertion-ordered map from string
    keys to values (the ordered map the logger keeps in its `fields`
    slot). Setting a key that is already present replaces its value and
    keeps its position; a new key goes to the end. */
module Fields {
  import opened Values

  datatype Entry = Entry(key: string, value: Value)

  /** The entries in insertion order. */
  type OrderedMap = seq<Entry>

  /** No key occurs twice. */
  ghost predicate DistinctKeys(m: OrderedMap) {
    forall i, j :: 0 <= i < j < |m| ==> m[i].key != m[j].key
  }

  /** Keys(): the keys in insertion order. */
  function Keys(m: OrderedMap): (ks: seq<string>)
    ensures |ks| == |m|
    ensures forall i :: 0 <= i < |m| ==> ks[i] == m[i].key
  {
    if m == [] then [] else [m[0].key] + Keys(m[1..])
  }

  /** Get(key): the value of the first entry with that key. */
  function Get(m: OrderedMap, k: string): (r: Option<Value>)
    ensures r.Some? <==> k in Keys(m)
  {
    if m == [] then None
    else if m[0].key == k then Some(m[0].value)
    else Get(m[1..], k)
  }

  /** With distinct keys, looking up the key of the i-th entry finds
      that entry's value. */
  lemma {:induction false} GetAt(m: OrderedMap, i: nat)
    requires DistinctKeys(m) && i < |m|
    ensures Get(m, m[i].key) == Some(m[i].value)
  {
    if i > 0 {
      assert m[0].key != m[i].key;
      GetAt(m[1..], i - 1);
    }
  }

  /** Set(key, value): replace the value of an existing key in place, or
      append a new entry. */
  function Set(m: OrderedMap, k: string, v: Value): OrderedMap {
    if m == [] then [Entry(k, v)]
    else if m[0].key == k then [Entry(k, v)] + m[1..]
    else [m[0]] + Set(m[1..], k, v)
  }

  /** Set keeps an existing key at its position and appends a new key at
      the end; the order of the other keys is unchanged. */
  lemma {:induction false} SetKeys(m: OrderedMap, k: string, v: Value)
    ensures Keys(Set(m, k, v)) == if k in Keys(m) then Keys(m) else Keys(m) + [k]
  {
    if m == [] {
      assert Keys([Entry(k, v)]) == [k];
    } else if m[0].key == k {
      assert ([Entry(k, v)] + m[1..])[1..] == m[1..];
    } else {
      SetKeys(m[1..], k, v);
      assert ([m[0]] + Set(m[1..], k, v))[1..] == Set(m[1..], k, v);
    }
  }

  /** After Set, the key maps to the new value and every other key keeps
      its value. */
  lemma {:induction false} SetGet(m: OrderedMap, k: string, v: Value, k': string)
    ensures Get(Set(m, k, v), k') == if k' == k then Some(v) else Get(m, k')
  {
    if m != [] && m[0].key != k {
      SetGet(m[1..], k, v, k');
      assert Set(m, k, v)[1..] == Set(m[1..], k, v);
    }
  }

  /** Set keeps the keys distinct. */
  lemma SetDistinct(m: OrderedMap, k: string, v: Value)
    requires DistinctKeys(m)
    ensures DistinctKeys(Set(m, k, v))
  {
    var r := Set(m, k, v);
    SetKeys(m, k, v);
    forall i, j | 0 <= i < j < |r| ensures r[i].key != r[j].key {
      assert Keys(r)[i] == r[i].key && Keys(r)[j] == r[j].key;
      if j == |m| {
        assert k !in Keys(m);
      } else {
        assert Keys(m)[i] == m[i].key && Keys(m)[j] == m[j].key;
      }
    }
  }

  /** `m` is `m0` after setting, in some order, every key of `fs` that is
      not in `rest` to its value in `fs`. */
  ghost predicate MergedInto(m0: OrderedMap, m: OrderedMap, fs: map<string, Value>, rest: set<string>) {
    && DistinctKeys(m)
    && |m0| <= |m| && Keys(m)[..|m0|] == Keys(m0)
    && (forall k :: Get(m, k) == if k in fs && k !in rest then Some(fs[k]) else Get(m0, k))
    && (forall k :: k in Keys(m) ==> k in Keys(m0) || (k in fs && k !in rest))
  }

  /** Setting one more key of `fs` keeps the merge invariant. */
  lemma MergeStep(m0: OrderedMap, m: OrderedMap, fs: map<string, Value>, rest: set<string>, k: string)
    requires MergedInto(m0, m, fs, rest) && k in rest && k in fs
    ensures MergedInto(m0, Set(m, k, fs[k]), fs, rest - {k})
  {
    var next := Set(m, k, fs[k]);
    SetKeys(m, k, fs[k]);
    SetDistinct(m, k, fs[k]);
    forall k' ensures Get(next, k') == if k' == k then Some(fs[k]) else Get(m, k') {
      SetGet(m, k, fs[k], k');
    }
    assert Keys(next)[..|m0|] == Keys(m)[..|m0|];
  }

  /** The overlay as a flat context: each entry's key, then its value,
      in insertion order. */
  function Pairs(m: OrderedMap): (s: seq<Value>)
    ensures |s| == 2 * |m|
    ensures forall i :: 0 <= i < |m| ==> s[2 * i] == Str(m[i].key) && s[2 * i + 1] == m[i].value
  {
    if m == [] then []
    else
      var init := Pairs(m[..|m| - 1]);
      assert forall i :: 0 <= i < |m| - 1 ==> m[..|m| - 1][i] == m[i];
      init + [Str(m[|m| - 1].key), m[|m| - 1].value]
  }

  /** The loop in write that turns the overlay into context: for each key
      of Keys(), append the key and the value Get returns for it. */
  method OverlayContext(m: OrderedMap) returns (ctx: seq<Value>)
    requires DistinctKeys(m)
    ensures ctx == Pairs(m)
  {
    ctx := [];
    var keys := Keys(m);
    var i := 0;
    while i < |keys|
      invariant 0 <= i <= |keys|
      invariant ctx == Pairs(m[..i])
    {
      var key := keys[i];
      GetAt(m, i);
      var value := Get(m, key).value;
      assert m[..i + 1][..i] == m[..i];
      ctx := ctx + [Str(key), value];
      i := i + 1;
    }
    assert m[..i] == m;
  }
}
