/** Building a logger's context: expanding a Ctx map into key/value
    pairs, normalizing call-site arguments and concatenating contexts. */
module Contexts {
  import opened Values

  /** The key of the j-th pair of a flat context. */
  function KeyAt(s: seq<Value>, j: nat): Value
    requires 2 * j + 1 < |s|
  {
    s[2 * j]
  }

  /** The value of the j-th pair of a flat context. */
  function ValueAt(s: seq<Value>, j: nat): Value
    requires 2 * j + 1 < |s|
  {
    s[2 * j + 1]
  }

  /** `s` lists every entry of `c` as one key/value pair, in some order:
      2·|c| elements, each even position a key of `c` followed by that
      key's value, and each key exactly once. Go's map iteration order
      is unspecified, so the order of the pairs is left open. */
  ghost predicate IsFlattening(c: map<string, Value>, s: seq<Value>) {
    && |s| == 2 * |c|
    && (forall j :: 0 <= j < |c| ==>
          KeyAt(s, j).Str? && KeyAt(s, j).s in c && ValueAt(s, j) == c[KeyAt(s, j).s])
    && (forall j, j' :: 0 <= j < j' < |c| ==> KeyAt(s, j) != KeyAt(s, j'))
    && (forall k :: k in c ==> exists j :: 0 <= j < |c| && KeyAt(s, j) == Str(k))
  }

  /** The flat context listing the entries of `c` under `keys`, in order. */
  ghost function Flat(c: map<string, Value>, keys: seq<string>): seq<Value> {
    if keys == [] then []
    else
      var k := keys[|keys| - 1];
      Flat(c, keys[..|keys| - 1]) + [Str(k), if k in c then c[k] else Nil]
  }

  lemma {:induction false} FlatAt(c: map<string, Value>, keys: seq<string>)
    requires forall j :: 0 <= j < |keys| ==> keys[j] in c
    ensures |Flat(c, keys)| == 2 * |keys|
    ensures forall j :: 0 <= j < |keys| ==>
      KeyAt(Flat(c, keys), j) == Str(keys[j]) && ValueAt(Flat(c, keys), j) == c[keys[j]]
  {
    if keys != [] {
      FlatAt(c, keys[..|keys| - 1]);
    }
  }

  /** Listing every key of `c` once yields a flattening of `c`. */
  lemma FlatIsFlattening(c: map<string, Value>, keys: seq<string>)
    requires |keys| == |c|
    requires forall j :: 0 <= j < |keys| ==> keys[j] in c
    requires forall j, j' :: 0 <= j < j' < |keys| ==> keys[j] != keys[j']
    requires forall k :: k in c ==> k in keys
    ensures IsFlattening(c, Flat(c, keys))
  {
    var s := Flat(c, keys);
    FlatAt(c, keys);
    forall k | k in c ensures exists j :: 0 <= j < |c| && KeyAt(s, j) == Str(k) {
      var j :| 0 <= j < |keys| && keys[j] == k;
      assert KeyAt(s, j) == Str(k);
    }
  }

  /** `done` lists, without repetition, exactly the keys of `c` that are
      not in `rest`. */
  ghost predicate Enumerates(c: map<string, Value>, done: seq<string>, rest: set<string>) {
    && rest <= c.Keys
    && |done| + |rest| == |c|
    && (forall j :: 0 <= j < |done| ==> done[j] in c && done[j] !in rest)
    && (forall k :: k in c && k !in rest ==> k in done)
    && (forall j, j' :: 0 <= j < j' < |done| ==> done[j] != done[j'])
  }

  /** Moving one key from `rest` to the end of `done` keeps the
      enumeration. */
  lemma EnumeratesStep(c: map<string, Value>, done: seq<string>, rest: set<string>, k: string)
    requires Enumerates(c, done, rest) && k in rest
    ensures Enumerates(c, done + [k], rest - {k})
  {
    var done' := done + [k];
    forall j | 0 <= j < |done'| ensures done'[j] in c && done'[j] !in rest - {k} {
      if j < |done| {
        assert done'[j] == done[j];
      }
    }
    forall k' | k' in c && k' !in rest - {k} ensures k' in done' {
      if k' != k {
        assert k' in done;
        var j :| 0 <= j < |done| && done[j] == k';
        assert done'[j] == k';
      } else {
        assert done'[|done|] == k;
      }
    }
  }

  /** `for k := range c`: the map's keys, each once, in an unspecified
      order. */
  method RangeKeys(c: map<string, Value>) returns (keys: seq<string>)
    ensures |keys| == |c|
    ensures forall j :: 0 <= j < |keys| ==> keys[j] in c
    ensures forall j, j' :: 0 <= j < j' < |keys| ==> keys[j] != keys[j']
    ensures forall k :: k in c ==> k in keys
  {
    keys := [];
    var rest := c.Keys;
    while rest != {}
      invariant Enumerates(c, keys, rest)
      decreases rest
    {
      var k :| k in rest;
      EnumeratesStep(c, keys, rest, k);
      keys := keys + [k];
      rest := rest - {k};
    }
  }

  /** The body of toArray's loop: an array of 2·|keys| slots filled with
      each key followed by its value, through a moving index. */
  method FillPairs(c: map<string, Value>, keys: seq<string>) returns (s: seq<Value>)
    requires forall j :: 0 <= j < |keys| ==> keys[j] in c
    ensures s == Flat(c, keys)
  {
    var arr := new Value[|keys| * 2];
    var i := 0;
    for j := 0 to |keys|
      invariant i == 2 * j
      invariant arr[..i] == Flat(c, keys[..j])
    {
      ghost var filled := arr[..i];
      arr[i] := Str(keys[j]);
      arr[i + 1] := c[keys[j]];
      assert arr[..i + 2] == filled + [Str(keys[j]), c[keys[j]]];
      assert keys[..j + 1][..j] == keys[..j];
      i := i + 2;
    }
    s := arr[..];
    assert s == arr[..i] && keys[..|keys|] == keys;
  }

  /** Ctx.toArray: each entry of the map becomes a key/value pair, the
      keys visited in an unspecified order. */
  method ToArray(c: map<string, Value>) returns (s: seq<Value>)
    ensures IsFlattening(c, s)
  {
    var keys := RangeKeys(c);
    s := FillPairs(c, keys);
    FlatIsFlattening(c, keys);
  }

  /** The set of (key, value) pairs a flat context lists. */
  ghost function PairSet(s: seq<Value>): set<(Value, Value)> {
    set j | 0 <= j < |s| / 2 :: (KeyAt(s, j), ValueAt(s, j))
  }

  /** The set of (key, value) pairs of a Ctx map. */
  ghost function EntrySet(c: map<string, Value>): set<(Value, Value)> {
    set k | k in c :: (Str(k), c[k])
  }

  /** Whatever order toArray picks, the pairs it lists are exactly the
      map's entries: flattenings agree as sets of pairs. */
  lemma FlatteningPairs(c: map<string, Value>, s: seq<Value>)
    requires IsFlattening(c, s)
    ensures PairSet(s) == EntrySet(c)
  {
    forall p | p in PairSet(s) ensures p in EntrySet(c) {
      var j :| 0 <= j < |s| / 2 && p == (KeyAt(s, j), ValueAt(s, j));
      var k := KeyAt(s, j).s;
      assert p == (Str(k), c[k]);
    }
    forall p | p in EntrySet(c) ensures p in PairSet(s) {
      var k :| k in c && p == (Str(k), c[k]);
      var j :| 0 <= j < |c| && KeyAt(s, j) == Str(k);
      assert p == (KeyAt(s, j), ValueAt(s, j));
    }
  }

  /** The one argument shape normalize expands: a single Ctx. */
  predicate IsSingleCtx(args: seq<Value>) {
    |args| == 1 && args[0].Ctx?
  }

  /** What normalize may return for `args`. */
  ghost predicate Normalizes(args: seq<Value>, r: seq<Value>) {
    if IsSingleCtx(args) then IsFlattening(args[0].entries, r) else r == args
  }

  /** normalize: a single Ctx argument becomes its key/value pairs; every
      other argument list, odd-length ones included, is returned as it
      is. */
  method Normalize(args: seq<Value>) returns (r: seq<Value>)
    ensures Normalizes(args, r)
  {
    r := args;
    if |args| == 1 {
      match args[0]
      case Ctx(entries) => r := ToArray(entries);
      case _ =>
    }
  }

  /** normalize does not repair odd-length input: only a single Ctx is
      ever changed, and it becomes an even number of elements. */
  lemma NoOddRepair(args: seq<Value>, r: seq<Value>)
    requires Normalizes(args, r)
    ensures |r| % 2 == 1 <==> (|args| % 2 == 1 && !IsSingleCtx(args))
  {
  }

  /** newContext: `prefix` followed by the normalized `suffix`, in new
      storage of length |prefix| + |normalize(suffix)|. */
  method NewContext(prefix: seq<Value>, suffix: seq<Value>) returns (r: seq<Value>)
    ensures |prefix| <= |r| && r[..|prefix|] == prefix
    ensures Normalizes(suffix, r[|prefix|..])
  {
    var normalized := Normalize(suffix);
    r := prefix + normalized;
    assert r[|prefix|..] == normalized;
  }
}
