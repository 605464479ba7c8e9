/**
 * `createLogCollector`: a closure-held list of log records with one logging
 * function per log level, a `getAll` that hands out that very list, and an
 * optional `onLog` callback that is handed every record as it is made.
 *
 * The list of log levels (`LogLevels` in the types file) is not part of this
 * model, so the collector takes it as a constructor argument. The callback's
 * promise is not awaited and its rejection is caught, so the model records
 * only which records the callback was handed.
 */
module LogCollector {

  datatype Log = Log(level: string, message: string, timeStamp: int)

  /** The collector's `logs` array: one list that every log call pushes onto and `getAll` hands out. */
  class LogList {
    var items: seq<Log>

    constructor()
      ensures items == []
    {
      items := [];
    }

    /** `logs.push(log)`. */
    method Push(log: Log)
      modifies this
      ensures items == old(items) + [log]
    {
      items := items + [log];
    }
  }

  class Collector {
    /** The levels a logging function exists for. */
    const levels: seq<string>
    /** Whether an `onLog` callback was supplied. */
    const hasCallback: bool
    /** The closure's `logs`: the same list for the collector's whole life. */
    const logs: LogList
    /** The records handed to `onLog`, in call order. */
    ghost var delivered: seq<Log>

    ghost predicate Valid()
      reads this, logs
    {
      delivered == if hasCallback then logs.items else []
    }

    constructor(levels: seq<string>, hasCallback: bool)
      ensures Valid() && fresh(logs)
      ensures this.levels == levels && this.hasCallback == hasCallback && logs.items == []
    {
      this.levels := levels;
      this.hasCallback := hasCallback;
      logs := new LogList();
      delivered := [];
    }

    /** Whether `collector[level]` is a logging function. */
    predicate HasLevel(level: string)
      reads this
    {
      level in levels
    }

    /**
     * `collector[level](message)`: pushes one record onto the list and hands
     * it to the callback when there is one; a rejected callback never
     * reaches the caller.
     */
    method Emit(level: string, message: string, now: int)
      requires Valid() && HasLevel(level)
      modifies this, logs
      ensures Valid()
      ensures logs.items == old(logs.items) + [Log(level, message, now)]
      ensures delivered == old(delivered) + (if hasCallback then [Log(level, message, now)] else [])
    {
      var log := Log(level, message, now);
      logs.Push(log);
      if hasCallback {
        delivered := delivered + [log];
      }
    }

    /** `getAll()`: the list itself, not a copy, so that later log calls show through it. */
    method GetAll() returns (r: LogList)
      ensures r == logs && r.items == logs.items
    {
      r := logs;
    }
  }

  /**
   * A list obtained from `getAll` before a log call holds that call's record
   * afterwards: the caller and the collector share one list.
   */
  method HeldListGrows(c: Collector, level: string, message: string, now: int) returns (held: LogList)
    requires c.Valid() && c.HasLevel(level)
    modifies c, c.logs
    ensures c.Valid()
    ensures held == c.logs
    ensures held.items == old(c.logs.items) + [Log(level, message, now)]
  {
    held := c.GetAll();
    c.Emit(level, message, now);
  }

  /** After a run of emissions, the records are those emissions in order. */
  function Emitted(levels: seq<string>, messages: seq<string>, stamps: seq<int>): (r: seq<Log>)
    requires |levels| == |messages| == |stamps|
    ensures |r| == |levels|
    ensures forall i :: 0 <= i < |r| ==> r[i] == Log(levels[i], messages[i], stamps[i])
  {
    seq(|levels|, i requires 0 <= i < |levels| => Log(levels[i], messages[i], stamps[i]))
  }

  /** Emitting each call of a series in turn leaves exactly the series' records, in call order, and delivers each once. */
  method EmitAll(c: Collector, levels: seq<string>, messages: seq<string>, stamps: seq<int>)
    requires c.Valid() && |levels| == |messages| == |stamps|
    requires forall i :: 0 <= i < |levels| ==> c.HasLevel(levels[i])
    modifies c, c.logs
    ensures c.Valid()
    ensures c.logs.items == old(c.logs.items) + Emitted(levels, messages, stamps)
    ensures c.hasCallback ==> c.delivered == old(c.delivered) + Emitted(levels, messages, stamps)
  {
    var i := 0;
    while i < |levels|
      invariant 0 <= i <= |levels|
      invariant c.Valid()
      invariant c.logs.items == old(c.logs.items) + Emitted(levels[..i], messages[..i], stamps[..i])
    {
      c.Emit(levels[i], messages[i], stamps[i]);
      assert Emitted(levels[..i + 1], messages[..i + 1], stamps[..i + 1])
        == Emitted(levels[..i], messages[..i], stamps[..i]) + [Log(levels[i], messages[i], stamps[i])];
      i := i + 1;
    }
    assert levels[..i] == levels && messages[..i] == messages && stamps[..i] == stamps;
  }
}
