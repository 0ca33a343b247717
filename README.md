# A verified model of the log15-style structured logger core

This project models the heart of a small Go structured-logging package
(`log/logger.go` and `log/handler.go`):

- **Levels.** There are six levels, from trace to fatal. Each has a name,
  and a parser turns a name back into a level; it accepts `"warning"` as
  an alias and tolerates upper case by retrying once in lower case.
- **Contexts.** A context is a flat list of alternating keys and values.
  A single `Ctx` map argument is expanded into key/value pairs in the
  map's unspecified iteration order. Any other argument list, odd-length
  ones included, is kept as it is. A child logger's context is its
  parent's followed by its own normalized arguments.
- **The field overlay.** This is an insertion-ordered map that
  `WithField`/`WithFields` fill in. The next write appends its pairs to
  the record's context and then clears it.
- **Records.** A record is built by `write` with the key names `t`,
  `msg` and `lvl` and handed to the logger's handler. Errors returned by
  the handler are dropped.
- **Handlers.**
  - The function adapter, `FuncHandler`.
  - The lock wrapper, `SyncHandler`.
  - Fan-out, `MultiHandler`: every handler runs on the same record and
    all errors are swallowed.
  - The lazy-resolving wrapper, `LazyHandler`. It rewrites each `Lazy`
    value in place to its result, or to the evaluation error, and
    appends one `LOG_ERROR`/`"bad lazy"` pair when any evaluation failed.
  - `StreamHandler`, which is lazy, then sync, then format and write.
  - The swap cell through which a logger, and every child derived from
    it, reaches its current handler.

The source's shapes are kept:

- The logger and the swap cell are classes whose fields the methods
  update.
- The record is a class whose `context` the lazy pass rewrites in place.
- `toArray`, the loop in `write`, the lazy pass and `evaluateLazy`'s copy
  loop are methods with loop invariants.
- Each of these methods is proved against a specification function or
  predicate, and the properties are proved about those.
- Handlers are values. The method `Handle` interprets them over a
  mutable `Record`, and its contract ties the record's final state and
  the calls made outside to the function `Run`.
- Each user function's result, each formatter's output and each sink's
  write error are supplied by an `Env`. The clock and the call site are
  parameters of `write`.

Three behaviours of the code that are easy to misread:

- `normalize` does not repair odd-length argument lists. This is
  `Contexts.NoOddRepair`.
- `New` stores the parent's swap cell itself in the child's cell, not
  the parent's current handler. So a child follows later `SetHandler`
  calls on its parent (`Loggers.ChildFollowsParent`), while a child's own
  `SetHandler` leaves the parent alone (`Loggers.ChildSetHandlerIsolated`).
- `releaseFields` stores a new empty overlay only if one was stored
  before. After a write on a logger that never had fields, the slot is
  still empty (see `Loggers.Logger.Write`).

## Model

| member | source | states |
|---|---|---|
| Levels.Name | log/logger.go:35-52 | the name of each level parses back to that level with no error; NameInjective adds that distinct levels have distinct names |
| Levels.LevelFromString | log/logger.go:56-78 | whenever an error is returned, the level is Debug and the error names the lower-cased input; LevelFromStringSpec gives the full result for every string |
| Levels.ToLower | log/logger.go:72 | lower-casing keeps the length and maps each character through ASCII lower-casing |
| Levels.ToLowerIdempotent | log/logger.go:72-75 | lower-casing twice is lower-casing once, so the retry recurses at most once |
| Levels.ExactMatchIsTable | log/logger.go:57-69 | a string in the table of known names parses to its level with no error; a lower-case unknown string gives Debug with an unknown-level error |
| Levels.LevelFromStringSpec | log/logger.go:56-78 | for every string: the level its lower-case form names, with no error, if that form is a known name; otherwise Debug and an unknown-level error naming the lower-cased string |
| Levels.SeverityAscending | log/logger.go:25-32 | the six levels are numbered from 0 upwards in ascending severity, trace lowest and fatal highest, each with its own number |
| Levels.NameRoundTrip | log/logger.go:35-69 | each level's name parses back to that level without an error |
| Levels.WarningAliases | log/logger.go:64-65 | both "warn" and "warning" parse to the warning level |
| Levels.UpperCaseWarn | log/logger.go:70-75 | "WARN" parses to the warning level through the lower-case retry |
| Levels.NameInjective | log/logger.go:35-52 | distinct levels have distinct names |
| Contexts.ToArray | log/logger.go:320-331 | the array has 2·len(c) slots; each pair is a key of the map followed by its value; each key appears exactly once |
| Contexts.RangeKeys | log/logger.go:324 | ranging over a map visits each of its keys exactly once, in some order |
| Contexts.FillPairs | log/logger.go:321-330 | the array, filled through a moving index, holds each visited key followed by its value, in visiting order |
| Contexts.FlatteningPairs | log/logger.go:320-331 | whatever order toArray visits, the set of pairs it lists equals the map's set of entries |
| Contexts.Normalize | log/logger.go:276-284 | a lone Ctx argument becomes a flattening of its map; any other argument list is returned unchanged |
| Contexts.NoOddRepair | log/logger.go:276-284 | the result has odd length exactly when the input had odd length and was not a lone Ctx |
| Contexts.NewContext | log/logger.go:194-200 | the result is the prefix followed by a normalization of the suffix |
| Fields.Keys | log/logger.go:163 | the overlay's keys, one per entry, in insertion order |
| Fields.Get | log/logger.go:164 | a lookup finds a value exactly when the key is among the keys |
| Fields.GetAt | log/logger.go:163-164 | with distinct keys, looking up the i-th key yields the i-th value |
| Fields.Set | log/logger.go:254 | orderedmap's Set; its properties are stated by SetKeys (key order), SetGet (lookups) and SetDistinct (no duplicate keys) |
| Fields.SetKeys | log/logger.go:254 | setting an existing key keeps the key order; setting a new key appends it at the end |
| Fields.SetGet | log/logger.go:254 | after setting k to v, k maps to v and every other key keeps its value |
| Fields.SetDistinct | log/logger.go:254 | setting a key keeps the keys distinct |
| Fields.MergeStep | log/logger.go:261-263 | setting one more key of the merged map keeps the merge invariant: distinct keys, earlier keys first, merged keys with the map's values, others unchanged |
| Fields.Pairs | log/logger.go:162-166 | the flat form has two slots per entry: key i at 2i and value i at 2i+1 |
| Fields.OverlayContext | log/logger.go:162-166 | the loop over Keys() with Get appends exactly the overlay's pairs, in insertion order |
| Records.Record.constructor | log/logger.go:81-95 | a new record holds exactly the time, level, message, context, call site and key names given |
| LazyEval.EvaluateLazy | log/handler.go:155-180 | agrees with the specification function LazyOutcome: error for a non-function, for a function with parameters and for one without results, checked in that order; the single result itself; otherwise the list of all results in order |
| LazyEval.LazyResolve | log/handler.go:128-149 | keys and non-Lazy values are unchanged; each Lazy value becomes its result or its error; one marker pair is appended exactly when some evaluation failed |
| LazyEval.ResolveLazy | log/handler.go:128-149 | the in-place pass over odd indices leaves the record's context equal to LazyResolve of the old context |
| LazyEval.LazyResolveIdempotent | log/handler.go:126-153 | a second lazy pass (a LazyHandler around a StreamHandler) changes nothing and adds no second marker unless a Lazy yields a Lazy |
| Handlers.SwapCell.constructor | log/handler.go:16-18 | a new swap cell is empty |
| Handlers.SwapCell.Swap | log/handler.go:24-26 | the cell holds the new handler afterwards |
| Handlers.SwapCell.Get | log/handler.go:28-30 | returns the handler stored last |
| Handlers.SwapCell.Log | log/handler.go:20-22 | handling by the cell is handling by its stored handler, with that cell used up on the path |
| Handlers.Handle | log/handler.go:42-153 | the returned error, the calls made outside and the record's final context are those Run gives for the record as it was |
| Handlers.FuncHandlerCalls | log/handler.go:42-50 | a function handler calls its function once on the record and returns its error |
| Handlers.SyncIsTransparent | log/handler.go:70-77 | SyncHandler(h) returns what h returns and leaves the record as h leaves it |
| Handlers.SwapDelegates | log/handler.go:20-22 | a swap handler behaves as the handler it currently holds |
| Handlers.LazyHandlerResolvesFirst | log/handler.go:126-153 | LazyHandler(h) hands h the record with its lazies resolved and returns h's result |
| Handlers.MultiSwallowsErrors | log/handler.go:112-120 | a MultiHandler returns nil whatever its handlers return |
| Handlers.StreamHandler | log/handler.go:59-65 | the stream handler is the write function wrapped in SyncHandler and then LazyHandler; its behaviour is stated by StreamHandlerSpec |
| Handlers.StreamHandlerSpec | log/handler.go:59-65 | a stream handler writes the formatted, lazy-resolved record to the sink once and returns the sink's error |
| Handlers.LazyFreeKeepsContext | log/handler.go:42-77 | a handler with no LazyHandler reachable from it leaves the record's context unchanged |
| Handlers.MultiKeepsContext | log/handler.go:112-120 | running the first j handlers of a lazy-free fan-out leaves the context unchanged |
| Handlers.MultiFanOut | log/handler.go:112-120 | over lazy-free handlers, a fan-out calls each handler once, in list order, on the same record, and returns nil |
| Handlers.MultiFailureIsolated | log/handler.go:112-120 | when the first handler fails and the second succeeds, both are called on the record and the fan-out returns nil |
| Loggers.Logger.constructor | log/logger.go:151-157 | a new logger has the given context and cell and no stored overlay |
| Loggers.Logger.NewFields | log/logger.go:294-300 | returns the stored overlay, or an empty one when none is stored |
| Loggers.Logger.ReleaseFields | log/logger.go:286-292 | stores an empty overlay if one was stored before, else stores nothing |
| Loggers.Logger.Write | log/logger.go:159-181 | the record sent has the level, message, clock value, call site and t/msg/lvl key names given, and context = the logger's context + the overlay's pairs; the handler receives it; the overlay is empty afterwards |
| Loggers.Logger.Fatal | log/logger.go:222-225 | writes at the fatal level as Write does, then exits with status 1 |
| Loggers.Logger.New | log/logger.go:183-192 | the child is new, has the parent's context followed by the normalized arguments, and a new cell holding the parent's cell |
| Loggers.Logger.WithField | log/logger.go:252-257 | the stored overlay is the previous overlay with the key set; returns the same logger |
| Loggers.Logger.WithFields | log/logger.go:259-266 | after merging, each key of the map has the map's value, other keys keep theirs, earlier keys keep their order and only the map's keys are added |
| Loggers.Logger.GetHandler | log/logger.go:268-270 | returns the handler in the logger's own cell |
| Loggers.Logger.SetHandler | log/logger.go:272-274 | the logger's cell holds the new handler afterwards |
| Loggers.ChildSetHandlerIsolated | log/logger.go:183-192 | a child's SetHandler leaves the parent's handler as it was |
| Loggers.ChildHandlerIsParentCell | log/logger.go:186-190 | a child's GetHandler returns its parent's swap cell, whatever that cell holds |
| Loggers.ChildFollowsParent | log/logger.go:183-192 | after the parent's SetHandler, records handled through the child's cell behave as under the parent's new handler |

## Left out

- Time and call sites: `time.Now()` and `stack.Caller(2)` are parameters of `Write`. `stack.CallStack` values returned by a Lazy are not trimmed, since stack frames are not modelled.
- Message formatting: `fmt.Sprint`/`fmt.Sprintf` are not modelled. The leveled methods Trace through Errorf are each `Write` at their level with the message already formatted. `Fatal` stands for both Fatal and Fatalf.
- `os.Exit(1)` is modelled as an exit status that `Fatal` returns.
- Concurrency: mutexes and atomic loads and stores are not modelled. Calls are sequential, `SyncHandler` passes through, and the atomic slots are plain fields.
- Output: the formatter and the writer are functions in `Env`, and user handler functions are observers that return an error. Sink state and user functions that change the record are not modelled.
- `FileHandler` and `closingHandler` (file I/O), the surrounding `log/root.go` and the request package are not part of this model.
- Levels: only the six predefined levels are modelled. `String()` on any other integer panics in the source. `strings.ToLower` is modelled on ASCII letters only.
- LazyEval.EvaluateLazy: a Lazy whose Fn is nil is not modelled. Reflecting on a nil Fn panics in the source, and the panic reaches the caller of the logging method. `Callable` has no nil shape, so the contract covers only non-nil Fn values.
- LazyEval.LazyResolve: for the same reason, a context holding a Lazy with a nil Fn, on which the source's lazy pass panics, cannot be expressed.
- Nil handlers are not modelled. In the source, `SetHandler(nil)`, `FuncHandler(nil)` and a nil entry in `MultiHandler`'s list are accepted, and the next `Log` through them panics. The `Handler` datatype has no nil shape, so these panics cannot be expressed.
- Lazy values compute the same results every time they are evaluated. So the model cannot express a child logger whose Lazy reports the current value of changing state, and it does not record how many times a Lazy was evaluated. No proved property depends on either.
- Lazy values: reflection is abstracted to a `Callable` shape (a non-nil value that is not a function, identified opaquely, or a parameter count and the results a call yields). A Lazy function that panics is not modelled.
- Error text: `evaluateLazy`'s and `LevelFromString`'s error messages are modelled as error values naming their cause, not as formatted strings.
- Failures that stop the program: a panic on an empty swap cell and endless recursion through a cycle of cells are excluded by the `Grounded` precondition. The source has no check for either.
- Sharing: a `Record` is never shared between goroutines. The in-place updates of the overlay through the pointer `newFields` returns are modelled as storing the updated value back in the logger's slot.
