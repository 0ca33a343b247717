/** The dynamically typed values that travel through a log context.

    Go's context is a `[]interface{}`; here every element is a `Value`.
    Only the shapes the logging core inspects get a constructor of their
    own: a `Lazy` (deferred value), a `Ctx` (map expanded by normalize),
    an error, and the multi-result list built by lazy evaluation. Every
    other Go value is `Opaque`. */
module Values {

  datatype Option<+T> = None | Some(value: T)

  datatype Result<+T, +E> = Success(value: T) | Failure(error: E)

  /** The shape of the callable held by a Lazy, standing in for what the
      source learns by reflection: either a non-nil value that is not a
      function (identified opaquely by `held`), or a function with `numIn`
      parameters that, when called with no arguments, yields `results`
      (its `NumOut` is `|results|`). A nil Fn has no shape here:
      reflecting on it panics in the source. */
  datatype Callable =
    | NotFunc(held: nat)
    | Func(numIn: nat, results: seq<Value>)

  /** The errors the core creates; `External` stands for any error
      returned by code outside the core (a sink, a user handler). */
  datatype Error =
    | UnknownLevel(name: string)     // "log15: unknown level: <name>"
    | LazyNotFunc(fn: Callable)      // "INVALID_LAZY, not func: ..."
    | LazyTakesArgs(fn: Callable)    // "INVALID_LAZY, func takes args: ..."
    | LazyNoResult(fn: Callable)     // "INVALID_LAZY, no func return val: ..."
    | External(id: nat)

  datatype Value =
    | Nil
    | Str(s: string)
    | Int(i: int)
    | Bool(b: bool)
    | Err(e: Error)
    | List(items: seq<Value>)        // a []interface{} made by lazy evaluation
    | Lazy(fn: Callable)             // log.Lazy{Fn}
    | Ctx(entries: map<string, Value>)  // log.Ctx
    | Opaque(id: nat)

  /** Context keys and the marker written by the lazy-resolving handler. */
  const TimeKey: string := "t"
  const LvlKey: string := "lvl"
  const MsgKey: string := "msg"
  const ErrorKey: string := "LOG_ERROR"
  const BadLazy: string := "bad lazy"
}
