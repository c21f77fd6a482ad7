/** The `LoggerService` implementations of the services module: the root
    `ConsoleLoggerService` (timestamped entries), `PrefixedLoggerService`
    and `SilentLoggerService`. Each keeps an append-only list of entries;
    console output is not modelled, and the local time string is an input. */
module Loggers {
  import opened Common

  /** The three logging methods of the `LoggerService` contract. */
  datatype Level = Log | Warn | Error

  /** One call: the logging method, its message and the local time at the call. */
  datatype Call = Call(level: Level, message: String, time: String)

  function LevelTag(m: Level): String {
    match m
    case Log => "LOG"
    case Warn => "WARN"
    case Error => "ERROR"
  }

  /** Distinct levels have distinct tags. */
  lemma LevelTagInjective(a: Level, b: Level)
    ensures LevelTag(a) == LevelTag(b) ==> a == b
  {
  }

  // ---------------------------------------------------------------------
  // Root ConsoleLoggerService

  datatype ConsoleLogger = ConsoleLogger(logs: seq<String>)

  /** `[LOG] <time>: <message>` and its `WARN` and `ERROR` variants. */
  function ConsoleEntry(c: Call): (r: String)
    ensures IsPrefix("[" + LevelTag(c.level) + "] ", r)
    ensures IsSuffix(": " + c.message, r)
  {
    var head := "[" + LevelTag(c.level) + "] ";
    var r := head + c.time + ": " + c.message;
    assert r[..|head|] == head;
    assert r[|r| - |": " + c.message|..] == ": " + c.message;
    r
  }

  function ConsoleCall(l: ConsoleLogger, c: Call): (r: ConsoleLogger)
    ensures |r.logs| == |l.logs| + 1 && r.logs[..|l.logs|] == l.logs
    ensures Last(r.logs) == ConsoleEntry(c)
  {
    var logs := l.logs + [ConsoleEntry(c)];
    assert logs[..|l.logs|] == l.logs;
    ConsoleLogger(logs)
  }

  /** `getLogs()`: a copy of the entries, which for an immutable sequence
      is the sequence itself. */
  function ConsoleGetLogs(l: ConsoleLogger): seq<String> {
    l.logs
  }

  function ConsoleRun(l: ConsoleLogger, calls: seq<Call>): ConsoleLogger {
    if calls == [] then l else ConsoleCall(ConsoleRun(l, calls[..|calls| - 1]), Last(calls))
  }

  /** The entries a sequence of calls writes, one per call, in call order. */
  function ConsoleEntries(calls: seq<Call>): (r: seq<String>)
    ensures |r| == |calls|
    ensures forall i :: 0 <= i < |calls| ==> r[i] == ConsoleEntry(calls[i])
  {
    seq(|calls|, i requires 0 <= i < |calls| => ConsoleEntry(calls[i]))
  }

  lemma ConsoleEntriesSnoc(calls: seq<Call>)
    requires calls != []
    ensures ConsoleEntries(calls) == ConsoleEntries(calls[..|calls| - 1]) + [ConsoleEntry(Last(calls))]
  {
  }

  /** After a sequence of calls the log is the earlier log followed by one
      entry per call, in call order. */
  lemma {:induction false} ConsoleRunAppends(l: ConsoleLogger, calls: seq<Call>)
    ensures ConsoleGetLogs(ConsoleRun(l, calls)) == ConsoleGetLogs(l) + ConsoleEntries(calls)
  {
    if calls != [] {
      var p := calls[..|calls| - 1];
      ConsoleRunAppends(l, p);
      ConsoleEntriesSnoc(calls);
      assert ConsoleRun(l, calls).logs == ConsoleRun(l, p).logs + [ConsoleEntry(Last(calls))];
    }
  }

  // ---------------------------------------------------------------------
  // PrefixedLoggerService

  datatype PrefixedLogger = PrefixedLogger(logs: seq<String>, prefix: String)

  const DefaultPrefix: String := "[APP]"

  const PrefixedInitial := PrefixedLogger([], DefaultPrefix)

  /** `<prefix> LOG: <message>` and its variants. */
  function PrefixedEntry(prefix: String, m: Level, message: String): (r: String)
    ensures IsPrefix(prefix, r)
    ensures r[|prefix|..] == " " + LevelTag(m) + ": " + message
  {
    var r := prefix + " " + LevelTag(m) + ": " + message;
    assert r[..|prefix|] == prefix;
    assert r[|prefix|..] == " " + LevelTag(m) + ": " + message;
    r
  }

  /** `setPrefix(prefix)`: entries already written keep the old prefix. */
  function SetPrefix(l: PrefixedLogger, prefix: String): (r: PrefixedLogger)
    ensures r.logs == l.logs && r.prefix == prefix
  {
    l.(prefix := prefix)
  }

  function PrefixedCall(l: PrefixedLogger, m: Level, message: String): (r: PrefixedLogger)
    ensures |r.logs| == |l.logs| + 1 && r.logs[..|l.logs|] == l.logs
    ensures Last(r.logs) == PrefixedEntry(l.prefix, m, message)
    ensures r.prefix == l.prefix
  {
    var logs := l.logs + [PrefixedEntry(l.prefix, m, message)];
    assert logs[..|l.logs|] == l.logs;
    l.(logs := logs)
  }

  /** `getLogs()` of the prefixed logger. */
  function PrefixedGetLogs(l: PrefixedLogger): seq<String> {
    l.logs
  }

  /** Reading an entry back: with the prefix known, the level and the
      message are recovered. */
  lemma {:induction false} PrefixedEntryInjective(prefix: String, m1: Level, msg1: String, m2: Level, msg2: String)
    requires PrefixedEntry(prefix, m1, msg1) == PrefixedEntry(prefix, m2, msg2)
    ensures m1 == m2 && msg1 == msg2
  {
    var s1 := " " + LevelTag(m1) + ": " + msg1;
    var s2 := " " + LevelTag(m2) + ": " + msg2;
    assert s1 == s2;
    assert s1[1] == LevelTag(m1)[0] && s2[1] == LevelTag(m2)[0];
    assert msg1 == s1[|LevelTag(m1)| + 3..];
  }

  /** A new prefix is used by the next entry, and the entries before it are
      unchanged. */
  lemma SetPrefixAffectsOnlyLater(l: PrefixedLogger, prefix: String, m: Level, message: String)
    ensures var r := PrefixedCall(SetPrefix(l, prefix), m, message);
      r.logs == l.logs + [PrefixedEntry(prefix, m, message)]
  {
  }

  // ---------------------------------------------------------------------
  // SilentLoggerService

  datatype SilentLogger = SilentLogger(logs: seq<String>)

  /** `[SILENT LOG] <message>` and its variants. */
  function SilentEntry(m: Level, message: String): (r: String)
    ensures IsSuffix(message, r)
    ensures r[..|r| - |message|] == "[SILENT " + LevelTag(m) + "] "
  {
    var head := "[SILENT " + LevelTag(m) + "] ";
    var r := head + message;
    assert r[|r| - |message|..] == message;
    assert r[..|r| - |message|] == head;
    r
  }

  function SilentCall(l: SilentLogger, m: Level, message: String): (r: SilentLogger)
    ensures |r.logs| == |l.logs| + 1 && r.logs[..|l.logs|] == l.logs
    ensures Last(r.logs) == SilentEntry(m, message)
  {
    var logs := l.logs + [SilentEntry(m, message)];
    assert logs[..|l.logs|] == l.logs;
    SilentLogger(logs)
  }

  /** `getLogs()` of the silent logger: the entries it recorded without
      printing them. */
  function SilentGetLogs(l: SilentLogger): seq<String> {
    l.logs
  }
}
