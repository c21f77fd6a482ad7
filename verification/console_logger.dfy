/** The component-level `ConsoleLoggerService` the dependency-injection
    demo provides: entries tagged `[ConsoleLogger]` with `INFO`, `WARN` or
    `ERROR`, appended in call order. */
module ConsoleLoggerService {
  import opened Common
  import Loggers

  datatype ConsoleLogger = ConsoleLogger(logs: seq<String>)

  const Initial := ConsoleLogger([])

  /** `log` reports as `INFO`; the other two use their own names. */
  function Tag(level: Loggers.Level): String {
    match level
    case Log => "INFO"
    case Warn => "WARN"
    case Error => "ERROR"
  }

  function Entry(level: Loggers.Level, message: String): (r: String)
    ensures IsSuffix(message, r)
    ensures r[..|r| - |message|] == "[ConsoleLogger] " + Tag(level) + ": "
  {
    var head := "[ConsoleLogger] " + Tag(level) + ": ";
    var r := head + message;
    assert r[|r| - |message|..] == message;
    assert r[..|r| - |message|] == head;
    r
  }

  /** `log`, `warn` or `error`: exactly one entry at the end. */
  function Write(l: ConsoleLogger, level: Loggers.Level, message: String): (r: ConsoleLogger)
    ensures |r.logs| == |l.logs| + 1 && r.logs[..|l.logs|] == l.logs
    ensures Last(r.logs) == Entry(level, message)
  {
    var logs := l.logs + [Entry(level, message)];
    assert logs[..|l.logs|] == l.logs;
    ConsoleLogger(logs)
  }

  /** `getLogs()`: a copy of the entries, which for an immutable sequence
      is the sequence itself. */
  function GetLogs(l: ConsoleLogger): seq<String> {
    l.logs
  }

  function WriteAll(l: ConsoleLogger, calls: seq<(Loggers.Level, String)>): ConsoleLogger {
    if calls == [] then l else Write(WriteAll(l, calls[..|calls| - 1]), Last(calls).0, Last(calls).1)
  }

  /** The entries a sequence of calls writes, one per call, in call order. */
  function Entries(calls: seq<(Loggers.Level, String)>): (r: seq<String>)
    ensures |r| == |calls|
    ensures forall i :: 0 <= i < |calls| ==> r[i] == Entry(calls[i].0, calls[i].1)
  {
    seq(|calls|, i requires 0 <= i < |calls| => Entry(calls[i].0, calls[i].1))
  }

  /** The entries of all calls are those of all but the last, then the
      last call's entry. */
  lemma EntriesSnoc(calls: seq<(Loggers.Level, String)>)
    requires calls != []
    ensures Entries(calls) == Entries(calls[..|calls| - 1]) + [Entry(Last(calls).0, Last(calls).1)]
  {
  }

  /** A sequence of calls appends exactly its entries, in call order, after
      the earlier ones. */
  lemma {:induction false} WriteAllInOrder(l: ConsoleLogger, calls: seq<(Loggers.Level, String)>)
    ensures GetLogs(WriteAll(l, calls)) == GetLogs(l) + Entries(calls)
  {
    if calls != [] {
      var p := calls[..|calls| - 1];
      WriteAllInOrder(l, p);
      EntriesSnoc(calls);
      assert WriteAll(l, calls).logs == WriteAll(l, p).logs + [Entry(Last(calls).0, Last(calls).1)];
    }
  }
}
