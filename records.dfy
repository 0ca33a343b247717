/** The record a logger hands to its handler. */
module Records {
  import opened Values
  import opened Levels

  /** The emission time (taken from the clock by the caller of write). */
  datatype Instant = Instant(nanos: int)

  /** The captured call site (stack.Caller(2)), kept opaque. */
  datatype CallSite = CallSite(frame: nat)

  /** RecordKeyNames: the labels a formatter uses for time, message and level. */
  datatype KeyNames = KeyNames(time: string, message: string, level: string)

  /** The names every logger writes: "t", "msg" and "lvl". */
  const DefaultKeyNames: KeyNames := KeyNames(TimeKey, MsgKey, LvlKey)

  /** A record's contents at one moment, as a handler observes it. */
  datatype RecordValue = RecordValue(
    time: Instant, level: Level, message: string,
    context: seq<Value>, call: CallSite, keyNames: KeyNames)

  /** Record. Only the context is ever changed after construction: the
      lazy-resolving handler rewrites and extends it in place. */
  class Record {
    const time: Instant
    const level: Level
    const message: string
    var context: seq<Value>
    const call: CallSite
    const keyNames: KeyNames

    constructor (time: Instant, level: Level, message: string,
                 context: seq<Value>, call: CallSite, keyNames: KeyNames)
      ensures View() == RecordValue(time, level, message, context, call, keyNames)
    {
      this.time := time;
      this.level := level;
      this.message := message;
      this.context := context;
      this.call := call;
      this.keyNames := keyNames;
    }

    /** The record's current contents. */
    function View(): RecordValue
      reads this
    {
      RecordValue(time, level, message, context, call, keyNames)
    }
  }
}
