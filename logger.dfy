/** The logger: an inherited context, a swap cell holding its handler,
    and a field overlay merged into the next record and then cleared. */
module Loggers {
  import opened Values
  import opened Levels
  import opened Contexts
  import opened Fields
  import opened Records
  import opened Handlers

  class Logger {
    /** The inherited context; fixed once the logger exists. */
    const ctx: seq<Value>
    /** The logger's own swap cell. */
    const handler: SwapCell
    /** The `fields` slot: None until an overlay is first stored. */
    var fields: Option<OrderedMap>

    ghost predicate Valid()
      reads this
    {
      fields.Some? ==> DistinctKeys(fields.value)
    }

    /** The overlay newFields hands out: the stored one, or a new empty one. */
    function Overlay(): OrderedMap
      reads this
    {
      if fields.Some? then fields.value else []
    }

    /** &logger{ctx: ctx, handler: handler}. */
    constructor (ctx: seq<Value>, handler: SwapCell)
      ensures this.ctx == ctx && this.handler == handler && fields == None && Valid()
    {
      this.ctx := ctx;
      this.handler := handler;
      fields := None;
    }

    /** newFields: the stored overlay, or a fresh empty one (not stored). */
    method NewFields() returns (m: OrderedMap)
      requires Valid()
      ensures m == Overlay() && DistinctKeys(m)
      ensures fields.None? ==> m == []
    {
      if fields.Some? {
        m := fields.value;
      } else {
        m := [];
      }
    }

    /** releaseFields: if an overlay was ever stored, store an empty one. */
    method ReleaseFields()
      modifies this`fields
      ensures fields == if old(fields).Some? then Some([]) else None
      ensures Valid() && Overlay() == []
    {
      if fields.Some? {
        fields := Some([]);
      }
    }

    /** write: the record handed to the handler carries the level and
        message given, the key names t/lvl/msg, and the inherited context
        followed by the overlay's pairs in insertion order; the overlay is
        empty afterwards. Errors from the handler are dropped. */
    method Write(level: Level, msg: string, now: Instant, call: CallSite, env: Env, ghost cells: set<SwapCell>)
      returns (ghost sent: RecordValue, events: seq<Event>)
      requires Valid() && Grounded(SwapHandler(handler), cells)
      modifies this`fields
      ensures sent == RecordValue(now, level, msg, ctx + Pairs(old(Overlay())), call, DefaultKeyNames)
      ensures events == Run(SwapHandler(handler), sent, env, cells).events
      ensures Valid() && Overlay() == [] && (fields.Some? <==> old(fields.Some?))
    {
      var overlay := NewFields();
      var pairs := OverlayContext(overlay);
      var context := NewContext(ctx, pairs);
      assert !IsSingleCtx(pairs);
      assert context == ctx + pairs by {
        assert context == context[..|ctx|] + context[|ctx|..];
      }
      var r := new Record(now, level, msg, context, call, DefaultKeyNames);
      sent := r.View();
      var _, ev := handler.Log(r, env, cells);
      events := ev;
      ReleaseFields();
    }

    /** Fatal and Fatalf: write at the fatal level, then exit with status 1. */
    method Fatal(msg: string, now: Instant, call: CallSite, env: Env, ghost cells: set<SwapCell>)
      returns (ghost sent: RecordValue, events: seq<Event>, exitStatus: int)
      requires Valid() && Grounded(SwapHandler(handler), cells)
      modifies this`fields
      ensures sent == RecordValue(now, Level.Fatal, msg, ctx + Pairs(old(Overlay())), call, DefaultKeyNames)
      ensures events == Run(SwapHandler(handler), sent, env, cells).events
      ensures Valid() && Overlay() == []
      ensures exitStatus == 1
    {
      sent, events := Write(Level.Fatal, msg, now, call, env, cells);
      exitStatus := 1;
    }

    /** New: a child whose context is newContext(ctx, args) and whose new
        swap cell holds this logger's cell itself (not its current
        handler), so the child follows later SetHandler calls here. */
    method New(args: seq<Value>) returns (child: Logger)
      ensures fresh(child) && fresh(child.handler) && child.Valid()
      ensures |ctx| <= |child.ctx| && child.ctx[..|ctx|] == ctx
      ensures Normalizes(args, child.ctx[|ctx|..])
      ensures child.handler.stored == Some(SwapHandler(handler))
      ensures child.fields == None
    {
      var context := NewContext(ctx, args);
      var cell := new SwapCell();
      child := new Logger(context, cell);
      child.SetHandler(SwapHandler(handler));
    }

    /** WithField: set one entry of the overlay and return this logger. */
    method WithField(key: string, value: Value) returns (l: Logger)
      requires Valid()
      modifies this`fields
      ensures l == this && Valid()
      ensures fields == Some(Set(old(Overlay()), key, value))
    {
      var m := NewFields();
      SetDistinct(m, key, value);
      m := Set(m, key, value);
      fields := Some(m);
      l := this;
    }

    /** WithFields: set every entry of `fs`, visited in the map's
        unspecified order, and return this logger. Keys already present
        keep their position; a key's value is the one given in `fs`. */
    method WithFields(fs: map<string, Value>) returns (l: Logger)
      requires Valid()
      modifies this`fields
      ensures l == this && Valid() && fields.Some?
      ensures |old(Overlay())| <= |Overlay()| && Keys(Overlay())[..|old(Overlay())|] == Keys(old(Overlay()))
      ensures forall k :: Get(Overlay(), k) == if k in fs then Some(fs[k]) else Get(old(Overlay()), k)
      ensures forall k :: k in Keys(Overlay()) ==> k in Keys(old(Overlay())) || k in fs
    {
      var m := NewFields();
      ghost var m0 := m;
      var rest := fs.Keys;
      while rest != {}
        invariant rest <= fs.Keys
        invariant MergedInto(m0, m, fs, rest)
        decreases rest
      {
        var k :| k in rest;
        MergeStep(m0, m, fs, rest, k);
        m := Set(m, k, fs[k]);
        rest := rest - {k};
      }
      fields := Some(m);
      l := this;
    }

    /** GetHandler: the handler in this logger's cell. */
    method GetHandler() returns (h: Handler)
      requires handler.stored.Some?
      ensures h == handler.stored.value
    {
      h := handler.Get();
    }

    /** SetHandler: swap the handler in this logger's cell. */
    method SetHandler(h: Handler)
      modifies handler
      ensures handler.stored == Some(h)
    {
      handler.Swap(h);
    }
  }

  /** A child's SetHandler leaves the parent's handler as it was. */
  method ChildSetHandlerIsolated(parent: Logger, args: seq<Value>, h: Handler) returns (before: Handler, after: Handler)
    requires parent.handler.stored.Some?
    ensures before == after
  {
    before := parent.GetHandler();
    var child := parent.New(args);
    child.SetHandler(h);
    after := parent.GetHandler();
  }

  /** A child's GetHandler returns the parent's cell, whatever the parent
      holds. */
  method ChildHandlerIsParentCell(parent: Logger, args: seq<Value>) returns (got: Handler)
    ensures got == SwapHandler(parent.handler)
  {
    var child := parent.New(args);
    got := child.GetHandler();
  }

  /** Records written by a child follow a later SetHandler on the parent:
      the child's cell leads to the parent's cell and on to its new handler. */
  method ChildFollowsParent(parent: Logger, args: seq<Value>, h: Handler, rv: RecordValue, env: Env, cells: set<SwapCell>)
    returns (child: Logger)
    requires parent.handler in cells && Grounded(h, cells - {parent.handler})
    modifies parent.handler
    ensures fresh(child) && child.handler !in cells
    ensures Grounded(SwapHandler(child.handler), cells + {child.handler})
    ensures Run(SwapHandler(child.handler), rv, env, cells + {child.handler}) ==
      Run(h, rv, env, cells - {parent.handler})
  {
    child := parent.New(args);
    parent.SetHandler(h);
    assert (cells + {child.handler}) - {child.handler} == cells;
  }
}
