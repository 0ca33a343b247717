/** Handlers and their composition: the function adapter, the
    synchronizing wrapper, fan-out, the lazy-resolving wrapper, the
    stream writer and the swap cell.

    A handler is a value (`Handler`) interpreted by the `Handle` method
    over a mutable `Record` and specified by the function `Run`. What
    happens outside the core is described by an `Env`: the result of each
    user function, each formatter's bytes and each sink's write error.
    `Handle` reports the calls that reached the outside as a list of
    `Event`s. */
module Handlers {
  import opened Values
  import opened Records
  import opened LazyEval

  newtype byte = x: int | 0 <= x < 256

  /** The function a FuncHandler wraps: a user function, or the closure
      StreamHandler builds that formats a record and writes it to a sink. */
  datatype HandlerFunc =
    | UserFunc(id: nat)
    | WriteTo(sink: nat, format: nat)

  datatype Handler =
    | FuncHandler(fn: HandlerFunc)
    | SyncHandler(inner: Handler)
    | MultiHandler(hs: seq<Handler>)
    | LazyHandler(inner: Handler)
    | SwapHandler(cell: SwapCell)    // a *swapHandler used as a Handler

  /** The outside world as the core sees it. */
  datatype Env = Env(
    call: (nat, RecordValue) -> Option<Error>,   // a user function's result
    format: (nat, RecordValue) -> seq<byte>,     // Format.Format
    write: (nat, seq<byte>) -> Option<Error>)    // the sink's Write error

  /** A call that left the core: a user function applied to a record, or
      bytes written to a sink. */
  datatype Event =
    | Called(fn: nat, record: RecordValue)
    | Wrote(sink: nat, bytes: seq<byte>)

  /** What handling a record amounts to: the error returned, the calls
      made outside, and the record's context afterwards. */
  datatype Outcome = Outcome(err: Option<Error>, events: seq<Event>, context: seq<Value>)

  /** StreamHandler: resolve lazies, then, under the lock, format and write. */
  function StreamHandler(sink: nat, format: nat): Handler {
    LazyHandler(SyncHandler(FuncHandler(WriteTo(sink, format))))
  }

  /** Every swap cell `h` reaches is filled, and no path through cells
      visits a cell twice (`cells` holds the cells not yet visited). The
      source panics on an empty cell and recurses forever on a cycle. */
  ghost predicate Grounded(h: Handler, cells: set<SwapCell>)
    reads cells
    decreases cells, h
  {
    match h
    case FuncHandler(_) => true
    case SyncHandler(inner) => Grounded(inner, cells)
    case MultiHandler(hs) => forall j :: 0 <= j < |hs| ==> Grounded(hs[j], cells)
    case LazyHandler(inner) => Grounded(inner, cells)
    case SwapHandler(c) => c in cells && c.stored.Some? && Grounded(c.stored.value, cells - {c})
  }

  /** The meaning of handling a record `rv` with `h`. */
  function Run(h: Handler, rv: RecordValue, env: Env, cells: set<SwapCell>): Outcome
    requires Grounded(h, cells)
    reads cells
    decreases cells, h, if h.MultiHandler? then |h.hs| + 1 else 0
  {
    match h
    case FuncHandler(UserFunc(id)) =>
      Outcome(env.call(id, rv), [Called(id, rv)], rv.context)
    case FuncHandler(WriteTo(sink, format)) =>
      var bytes := env.format(format, rv);
      Outcome(env.write(sink, bytes), [Wrote(sink, bytes)], rv.context)
    case SyncHandler(inner) => Run(inner, rv, env, cells)
    case MultiHandler(hs) => RunMulti(h, |hs|, rv, env, cells)
    case LazyHandler(inner) => Run(inner, rv.(context := LazyResolve(rv.context)), env, cells)
    case SwapHandler(c) => Run(c.stored.value, rv, env, cells - {c})
  }

  /** The first `j` handlers of a MultiHandler, one after the other on
      the same record; their errors are dropped. */
  function RunMulti(h: Handler, j: nat, rv: RecordValue, env: Env, cells: set<SwapCell>): Outcome
    requires h.MultiHandler? && j <= |h.hs| && Grounded(h, cells)
    reads cells
    decreases cells, h, j
  {
    if j == 0 then Outcome(None, [], rv.context)
    else
      var before := RunMulti(h, j - 1, rv, env, cells);
      var last := Run(h.hs[j - 1], rv.(context := before.context), env, cells);
      Outcome(None, before.events + last.events, last.context)
  }

  /** swapHandler: a cell holding the current handler. */
  class SwapCell {
    var stored: Option<Handler>

    /** new(swapHandler): an empty cell. */
    constructor ()
      ensures stored == None
    {
      stored := None;
    }

    /** Swap publishes a new handler. */
    method Swap(h: Handler)
      modifies this
      ensures stored == Some(h)
    {
      stored := Some(h);
    }

    /** Get returns the handler stored last; the cell must not be empty. */
    method Get() returns (h: Handler)
      requires stored.Some?
      ensures h == stored.value
    {
      h := stored.value;
    }

    /** Log hands the record to the stored handler. */
    method Log(r: Record, env: Env, ghost cells: set<SwapCell>) returns (err: Option<Error>, events: seq<Event>)
      requires Grounded(SwapHandler(this), cells)
      modifies r
      ensures Outcome(err, events, r.context) == Run(stored.value, old(r.View()), env, cells - {this})
    {
      var inner := Get();
      err, events := Handle(inner, r, env, cells - {this});
    }
  }

  /** Handler.Log: handle `r` with `h`. */
  method Handle(h: Handler, r: Record, env: Env, ghost cells: set<SwapCell>) returns (err: Option<Error>, events: seq<Event>)
    requires Grounded(h, cells)
    modifies r
    ensures Outcome(err, events, r.context) == Run(h, old(r.View()), env, cells)
    decreases cells, h
  {
    match h
    case FuncHandler(UserFunc(id)) =>
      err := env.call(id, r.View());
      events := [Called(id, r.View())];
    case FuncHandler(WriteTo(sink, format)) =>
      var bytes := env.format(format, r.View());
      err := env.write(sink, bytes);
      events := [Wrote(sink, bytes)];
    case SyncHandler(inner) =>
      // the mutex is left out: calls are sequential here
      err, events := Handle(inner, r, env, cells);
    case MultiHandler(hs) =>
      ghost var rv := r.View();
      events := [];
      var j := 0;
      while j < |hs|
        invariant 0 <= j <= |hs|
        invariant r.View() == rv.(context := r.context)
        invariant Outcome(None, events, r.context) == RunMulti(h, j, rv, env, cells)
      {
        var _, more := Handle(hs[j], r, env, cells);
        events := events + more;
        j := j + 1;
      }
      err := None;
    case LazyHandler(inner) =>
      ResolveLazy(r);
      err, events := Handle(inner, r, env, cells);
    case SwapHandler(c) =>
      var inner := c.Get();
      err, events := Handle(inner, r, env, cells - {c});
  }

  /* The next five lemmas each state one case of `Run` as the source
     defines it; they hold by definition. The proofs with substance are
     `Handle` agreeing with `Run`, `LazyFreeKeepsContext` and
     `MultiFanOut`. */

  /** FuncHandler(fn).Log(r) is fn(r). */
  lemma FuncHandlerCalls(id: nat, rv: RecordValue, env: Env, cells: set<SwapCell>)
    ensures Run(FuncHandler(UserFunc(id)), rv, env, cells) ==
      Outcome(env.call(id, rv), [Called(id, rv)], rv.context)
  {
  }

  /** SyncHandler(h) returns exactly what h returns and leaves the record
      as h leaves it. */
  lemma SyncIsTransparent(h: Handler, rv: RecordValue, env: Env, cells: set<SwapCell>)
    requires Grounded(h, cells)
    ensures Grounded(SyncHandler(h), cells)
    ensures Run(SyncHandler(h), rv, env, cells) == Run(h, rv, env, cells)
  {
  }

  /** A swap cell logs with whatever handler it holds. */
  lemma SwapDelegates(c: SwapCell, rv: RecordValue, env: Env, cells: set<SwapCell>)
    requires Grounded(SwapHandler(c), cells)
    ensures Run(SwapHandler(c), rv, env, cells) == Run(c.stored.value, rv, env, cells - {c})
  {
  }

  /** LazyHandler(h) hands h the record with its lazies resolved and
      returns what h returns. */
  lemma LazyHandlerResolvesFirst(h: Handler, rv: RecordValue, env: Env, cells: set<SwapCell>)
    requires Grounded(h, cells)
    ensures Grounded(LazyHandler(h), cells)
    ensures Run(LazyHandler(h), rv, env, cells) ==
      Run(h, rv.(context := LazyResolve(rv.context)), env, cells)
  {
  }

  /** MultiHandler never returns an error, whatever its handlers return. */
  lemma {:induction false} MultiSwallowsErrors(h: Handler, j: nat, rv: RecordValue, env: Env, cells: set<SwapCell>)
    requires h.MultiHandler? && j <= |h.hs| && Grounded(h, cells)
    ensures RunMulti(h, j, rv, env, cells).err == None
    ensures Run(h, rv, env, cells).err == None
  {
  }

  /** StreamHandler: lazies are resolved before the record reaches the
      formatter; the formatted bytes go to the sink once, and the sink's
      write error is returned unchanged. */
  lemma StreamHandlerSpec(sink: nat, format: nat, rv: RecordValue, env: Env, cells: set<SwapCell>)
    ensures Grounded(StreamHandler(sink, format), cells)
    ensures var resolved := rv.(context := LazyResolve(rv.context));
      var bytes := env.format(format, resolved);
      Run(StreamHandler(sink, format), rv, env, cells) ==
        Outcome(env.write(sink, bytes), [Wrote(sink, bytes)], resolved.context)
  {
    var resolved := rv.(context := LazyResolve(rv.context));
    calc {
      Run(StreamHandler(sink, format), rv, env, cells);
      Run(SyncHandler(FuncHandler(WriteTo(sink, format))), resolved, env, cells);
      Run(FuncHandler(WriteTo(sink, format)), resolved, env, cells);
    }
  }

  /** No LazyHandler is reachable from `h`, through cells included. */
  ghost predicate LazyFree(h: Handler, cells: set<SwapCell>)
    reads cells
    decreases cells, h
  {
    match h
    case FuncHandler(_) => true
    case SyncHandler(inner) => LazyFree(inner, cells)
    case MultiHandler(hs) => forall j :: 0 <= j < |hs| ==> LazyFree(hs[j], cells)
    case LazyHandler(_) => false
    case SwapHandler(c) => c in cells && c.stored.Some? && LazyFree(c.stored.value, cells - {c})
  }

  /** Only a LazyHandler changes the record: without one, the context
      comes back as it went in. */
  lemma {:induction false} LazyFreeKeepsContext(h: Handler, rv: RecordValue, env: Env, cells: set<SwapCell>)
    requires Grounded(h, cells) && LazyFree(h, cells)
    ensures Run(h, rv, env, cells).context == rv.context
    decreases cells, h, if h.MultiHandler? then |h.hs| + 1 else 0
  {
    match h
    case FuncHandler(_) =>
    case SyncHandler(inner) => LazyFreeKeepsContext(inner, rv, env, cells);
    case MultiHandler(hs) => MultiKeepsContext(h, |hs|, rv, env, cells);
    case SwapHandler(c) => LazyFreeKeepsContext(c.stored.value, rv, env, cells - {c});
  }

  lemma {:induction false} MultiKeepsContext(h: Handler, j: nat, rv: RecordValue, env: Env, cells: set<SwapCell>)
    requires h.MultiHandler? && j <= |h.hs| && Grounded(h, cells) && LazyFree(h, cells)
    ensures RunMulti(h, j, rv, env, cells).context == rv.context
    decreases cells, h, j
  {
    if j > 0 {
      MultiKeepsContext(h, j - 1, rv, env, cells);
      LazyFreeKeepsContext(h.hs[j - 1], rv, env, cells);
    }
  }

  /** The events of running each of `hs` on the same record `rv`, in order. */
  ghost function EachEvents(hs: seq<Handler>, rv: RecordValue, env: Env, cells: set<SwapCell>): seq<Event>
    requires forall j :: 0 <= j < |hs| ==> Grounded(hs[j], cells)
    reads cells
  {
    if hs == [] then []
    else EachEvents(hs[..|hs| - 1], rv, env, cells) + Run(hs[|hs| - 1], rv, env, cells).events
  }

  /** MultiHandler over handlers that do not rewrite the record calls each
      of them once, in list order, on the same record, and returns nil. */
  lemma {:induction false} MultiFanOut(h: Handler, j: nat, rv: RecordValue, env: Env, cells: set<SwapCell>)
    requires h.MultiHandler? && j <= |h.hs| && Grounded(h, cells) && LazyFree(h, cells)
    ensures RunMulti(h, j, rv, env, cells) == Outcome(None, EachEvents(h.hs[..j], rv, env, cells), rv.context)
  {
    if j > 0 {
      MultiFanOut(h, j - 1, rv, env, cells);
      MultiKeepsContext(h, j - 1, rv, env, cells);
      LazyFreeKeepsContext(h.hs[j - 1], rv, env, cells);
      assert h.hs[..j][..j - 1] == h.hs[..j - 1];
      assert rv.(context := rv.context) == rv;
    }
  }

  /** One failing handler does not stop the next: with H1 failing and H2
      succeeding, MultiHandler(H1, H2) returns nil and H2 still sees the
      record. */
  lemma MultiFailureIsolated(id1: nat, id2: nat, rv: RecordValue, env: Env, cells: set<SwapCell>)
    requires env.call(id1, rv).Some? && env.call(id2, rv).None?
    ensures var multi := MultiHandler([FuncHandler(UserFunc(id1)), FuncHandler(UserFunc(id2))]);
      Run(multi, rv, env, cells) == Outcome(None, [Called(id1, rv), Called(id2, rv)], rv.context)
  {
    var multi := MultiHandler([FuncHandler(UserFunc(id1)), FuncHandler(UserFunc(id2))]);
    assert LazyFree(multi, cells);
    MultiFanOut(multi, 2, rv, env, cells);
    assert multi.hs[..2] == multi.hs;
    assert multi.hs[..2][..1] == [FuncHandler(UserFunc(id1))];
    assert [FuncHandler(UserFunc(id1))][..0] == [];
    assert EachEvents([FuncHandler(UserFunc(id1))], rv, env, cells) == [Called(id1, rv)];
  }
}
