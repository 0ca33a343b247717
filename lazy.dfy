/** Deferred values: evaluating a Lazy, and the in-place pass the
    lazy-resolving handler makes over a record's context. */
module LazyEval {
  import opened Values
  import opened Records

  /** What evaluating a Lazy yields: an error for anything that is not a
      function, for a function that takes parameters and for one without
      results; the value itself for a single result; the list of all
      results, in order, otherwise. The checks run in that order. */
  function LazyOutcome(fn: Callable): Result<Value, Error> {
    match fn
    case NotFunc(_) => Failure(LazyNotFunc(fn))
    case Func(numIn, results) =>
      if numIn > 0 then Failure(LazyTakesArgs(fn))
      else if |results| == 0 then Failure(LazyNoResult(fn))
      else if |results| == 1 then Success(results[0])
      else Success(List(results))
  }

  /** evaluateLazy, with its loop that copies the results one by one. */
  method EvaluateLazy(fn: Callable) returns (r: Result<Value, Error>)
    ensures r == LazyOutcome(fn)
    ensures r.Failure? <==> (fn.NotFunc? || fn.numIn > 0 || |fn.results| == 0)
    ensures fn.NotFunc? ==> r == Failure(LazyNotFunc(fn))
    ensures fn.Func? && fn.numIn > 0 ==> r == Failure(LazyTakesArgs(fn))
    ensures fn.Func? && fn.numIn == 0 && |fn.results| == 0 ==> r == Failure(LazyNoResult(fn))
    ensures fn.Func? && fn.numIn == 0 && |fn.results| == 1 ==> r == Success(fn.results[0])
    ensures fn.Func? && fn.numIn == 0 && |fn.results| > 1 ==> r == Success(List(fn.results))
  {
    match fn
    case NotFunc(_) =>
      return Failure(LazyNotFunc(fn));
    case Func(numIn, results) =>
      if numIn > 0 {
        return Failure(LazyTakesArgs(fn));
      }
      if |results| == 0 {
        return Failure(LazyNoResult(fn));
      }
      if |results| == 1 {
        return Success(results[0]);
      }
      var values := new Value[|results|];
      var i := 0;
      while i < |results|
        invariant 0 <= i <= |results|
        invariant values[..i] == results[..i]
      {
        values[i] := results[i];
        i := i + 1;
      }
      assert values[..] == results;
      return Success(List(values[..]));
  }

  /** The value the lazy-resolving handler leaves in a value slot: a Lazy
      becomes its result, or the error on failure; anything else stays. */
  function Resolve(v: Value): Value {
    match v
    case Lazy(fn) => (match LazyOutcome(fn) case Success(x) => x case Failure(e) => Err(e))
    case _ => v
  }

  /** A Lazy whose evaluation fails. */
  predicate IsBadLazy(v: Value) {
    v.Lazy? && LazyOutcome(v.fn).Failure?
  }

  /** Some value slot (odd index) of the context holds a failing Lazy. */
  predicate HasBadLazy(ctx: seq<Value>) {
    exists i :: 0 <= i < |ctx| && i % 2 == 1 && IsBadLazy(ctx[i])
  }

  /** The context after the lazy-resolving pass: every value slot
      resolved, keys untouched, and one (LOG_ERROR, "bad lazy") pair
      appended when at least one evaluation failed, however many did. */
  function LazyResolve(ctx: seq<Value>): (r: seq<Value>)
    ensures |r| == |ctx| + (if HasBadLazy(ctx) then 2 else 0)
    ensures forall i :: 0 <= i < |ctx| && i % 2 == 0 ==> r[i] == ctx[i]
    ensures forall i :: 0 <= i < |ctx| && i % 2 == 1 && !ctx[i].Lazy? ==> r[i] == ctx[i]
    ensures forall i :: 0 <= i < |ctx| && i % 2 == 1 && ctx[i].Lazy? ==>
      r[i] == match LazyOutcome(ctx[i].fn) case Success(x) => x case Failure(e) => Err(e)
    ensures HasBadLazy(ctx) ==> r[|ctx|..] == [Str(ErrorKey), Str(BadLazy)]
  {
    var resolved := seq(|ctx|, i requires 0 <= i < |ctx| => if i % 2 == 1 then Resolve(ctx[i]) else ctx[i]);
    if HasBadLazy(ctx) then resolved + [Str(ErrorKey), Str(BadLazy)] else resolved
  }

  /** The context once the value slots below `i` are resolved. */
  ghost function ResolvedBelow(ctx: seq<Value>, i: int): seq<Value> {
    seq(|ctx|, k requires 0 <= k < |ctx| => if k < i && k % 2 == 1 then Resolve(ctx[k]) else ctx[k])
  }

  /** Some value slot below `i` holds a failing Lazy. */
  ghost predicate BadBelow(ctx: seq<Value>, i: int) {
    exists k :: 0 <= k < i && k < |ctx| && k % 2 == 1 && IsBadLazy(ctx[k])
  }

  /** Resolving slot `i` moves the frontier of both to `i + 2`. */
  lemma ResolveStep(ctx: seq<Value>, i: nat)
    requires i < |ctx| && i % 2 == 1
    ensures ResolvedBelow(ctx, i + 2) == ResolvedBelow(ctx, i)[i := Resolve(ctx[i])]
    ensures BadBelow(ctx, i + 2) <==> BadBelow(ctx, i) || IsBadLazy(ctx[i])
  {
    if BadBelow(ctx, i + 2) && !IsBadLazy(ctx[i]) {
      var k :| 0 <= k < i + 2 && k < |ctx| && k % 2 == 1 && IsBadLazy(ctx[k]);
      assert k < i;
    }
  }

  /** Past the last slot, the pass has computed LazyResolve. */
  lemma ResolveDone(ctx: seq<Value>, i: nat)
    requires i >= |ctx|
    ensures LazyResolve(ctx) == ResolvedBelow(ctx, i) + (if BadBelow(ctx, i) then [Str(ErrorKey), Str(BadLazy)] else [])
  {
    assert BadBelow(ctx, i) <==> HasBadLazy(ctx);
  }

  /** LazyHandler's pass over the record: visit the odd indices, overwrite
      each Lazy with its result or its error, remember whether any
      evaluation failed, and append the marker pair once at the end. */
  method ResolveLazy(r: Record)
    modifies r
    ensures r.context == LazyResolve(old(r.context))
  {
    ghost var ctx := r.context;
    var hadErr := false;
    var i := 1;
    while i < |r.context|
      invariant 1 <= i <= |ctx| + 1 && i % 2 == 1
      invariant r.context == ResolvedBelow(ctx, i)
      invariant hadErr <==> BadBelow(ctx, i)
    {
      ResolveStep(ctx, i);
      assert r.context[i] == ctx[i];
      if r.context[i].Lazy? {
        var v := EvaluateLazy(r.context[i].fn);
        if v.Failure? {
          hadErr := true;
          r.context := r.context[i := Err(v.error)];
        } else {
          r.context := r.context[i := v.value];
        }
      } else {
        assert r.context[i := ctx[i]] == r.context;
      }
      i := i + 2;
    }
    ResolveDone(ctx, i);
    if hadErr {
      r.context := r.context + [Str(ErrorKey), Str(BadLazy)];
    }
  }

  /** No Lazy in a value slot evaluates to another Lazy. */
  predicate NoNestedLazy(ctx: seq<Value>) {
    forall i :: 0 <= i < |ctx| && i % 2 == 1 && ctx[i].Lazy? ==>
      !(LazyOutcome(ctx[i].fn).Success? && LazyOutcome(ctx[i].fn).value.Lazy?)
  }

  /** A second lazy-resolving pass (a LazyHandler wrapped around a
      StreamHandler, say) finds no Lazy left to evaluate, changes nothing
      and adds no second marker, unless a Lazy evaluated to a Lazy. */
  lemma LazyResolveIdempotent(ctx: seq<Value>)
    requires NoNestedLazy(ctx)
    ensures LazyResolve(LazyResolve(ctx)) == LazyResolve(ctx)
  {
    var once := LazyResolve(ctx);
    assert !HasBadLazy(once) by {
      forall i | 0 <= i < |once| && i % 2 == 1 ensures !IsBadLazy(once[i]) {
        if i < |ctx| {
          assert !once[i].Lazy?;
        }
      }
    }
    var twice := LazyResolve(once);
    assert |twice| == |once|;
    forall i | 0 <= i < |once| ensures twice[i] == once[i] {
      if i % 2 == 1 && i < |ctx| {
        assert !once[i].Lazy?;
      }
    }
  }
}
