/** `DiDemoComponent`: a newest-first activity log of at most ten entries,
    a logger obtained by injection (the component-level
    `ConsoleLoggerService`), the injected configuration and a tab selector.
    `new Date()` and `toLocaleTimeString()` are inputs. */
module DiDemo {
  import opened Common
  import Text
  import BoundedLog
  import Loggers
  import ConsoleLoggerService
  import Config

  /** An opaque point in time. */
  type Timestamp = int

  datatype LogEntry = LogEntry(timestamp: Timestamp, source: String, message: String)

  datatype DiDemo = DiDemo(
    logs: seq<LogEntry>,
    activeTab: String,
    logger: ConsoleLoggerService.ConsoleLogger,
    config: Config.AppConfig)

  const InitialTab: String := "providedIn"

  /** `logger.constructor.name` for the provider the component declares. */
  const LoggerTypeName: String := "ConsoleLoggerService"

  /** `addLog(source, message)` at time `now`. */
  function AddLog(d: DiDemo, source: String, message: String, now: Timestamp): (r: DiDemo)
    ensures |r.logs| > 0 && r.logs[0] == LogEntry(now, source, message)
    ensures IsPrefix(r.logs[1..], d.logs)
    ensures |d.logs| <= BoundedLog.Capacity ==> |r.logs| == Min(|d.logs| + 1, BoundedLog.Capacity)
    ensures r == d.(logs := r.logs)
  {
    d.(logs := BoundedLog.Prepend(d.logs, LogEntry(now, source, message)))
  }

  /** The constructor: three entries, the newest (configuration) first. */
  function Create(logger: ConsoleLoggerService.ConsoleLogger, config: Config.AppConfig, t1: Timestamp, t2: Timestamp, t3: Timestamp): (r: DiDemo)
    ensures |r.logs| == 3 && r.activeTab == InitialTab
    ensures r.logs[0] == LogEntry(t3, "DiDemoComponent", "Config loaded: " + config.appName + " v" + config.version)
    ensures r.logs[1] == LogEntry(t2, "DiDemoComponent", "Logger type: " + LoggerTypeName)
    ensures r.logs[2] == LogEntry(t1, "DiDemoComponent", "Component initialized")
  {
    var d := DiDemo([], InitialTab, logger, config);
    var d1 := AddLog(d, "DiDemoComponent", "Component initialized", t1);
    var d2 := AddLog(d1, "DiDemoComponent", "Logger type: " + LoggerTypeName, t2);
    AddLog(d2, "DiDemoComponent", "Config loaded: " + config.appName + " v" + config.version, t3)
  }

  datatype TestLevel = Info | Warn | Error

  /** The `level` argument as written in the template literal. */
  function LevelName(level: TestLevel): String {
    match level
    case Info => "info"
    case Warn => "warn"
    case Error => "error"
  }

  /** The logger method `testLogger` calls for a level. */
  function LoggerLevel(level: TestLevel): Loggers.Level {
    match level
    case Info => Loggers.Log
    case Warn => Loggers.Warn
    case Error => Loggers.Error
  }

  /** `testLogger(level)`: one call to the matching logger method, and one
      "Logger" entry whose message starts with the level in upper case. */
  function TestLogger(d: DiDemo, level: TestLevel, localTime: String, now: Timestamp): (r: DiDemo)
    ensures var message := "Test " + LevelName(level) + " message at " + localTime;
      && r.logger.logs == d.logger.logs + [ConsoleLoggerService.Entry(LoggerLevel(level), message)]
      && |r.logs| > 0 && r.logs[0] == LogEntry(now, "Logger", Text.Upper(LevelName(level)) + ": " + message)
    ensures IsPrefix(r.logs[1..], d.logs)
    ensures r.activeTab == d.activeTab && r.config == d.config
  {
    var message := "Test " + LevelName(level) + " message at " + localTime;
    var logger := ConsoleLoggerService.Write(d.logger, LoggerLevel(level), message);
    assert logger.logs == d.logger.logs + [ConsoleLoggerService.Entry(LoggerLevel(level), message)];
    AddLog(d.(logger := logger), "Logger", Text.Upper(LevelName(level)) + ": " + message, now)
  }

  /** The upper-cased level names as they appear in the entries. */
  lemma UpperLevelNames()
    ensures Text.Upper(LevelName(Info)) == "INFO"
    ensures Text.Upper(LevelName(Warn)) == "WARN"
    ensures Text.Upper(LevelName(Error)) == "ERROR"
  {
  }

  /** `setActiveTab(tab)`. */
  function SetActiveTab(d: DiDemo, tab: String): (r: DiDemo)
    ensures r.activeTab == tab && r.logs == d.logs && r.logger == d.logger
  {
    d.(activeTab := tab)
  }

  /** `clearLogs()`: only the "Logs cleared" entry remains. */
  function ClearLogs(d: DiDemo, now: Timestamp): (r: DiDemo)
    ensures r.logs == [LogEntry(now, "System", "Logs cleared")]
    ensures r.activeTab == d.activeTab && r.logger == d.logger
  {
    AddLog(d.(logs := []), "System", "Logs cleared", now)
  }

  datatype Action =
    | DoAddLog(source: String, message: String, at: Timestamp)
    | DoTestLogger(level: TestLevel, localTime: String, testAt: Timestamp)
    | DoSetActiveTab(tab: String)
    | DoClearLogs(clearedAt: Timestamp)

  function Apply(d: DiDemo, a: Action): DiDemo {
    match a
    case DoAddLog(s, m, t) => AddLog(d, s, m, t)
    case DoTestLogger(l, lt, t) => TestLogger(d, l, lt, t)
    case DoSetActiveTab(tab) => SetActiveTab(d, tab)
    case DoClearLogs(t) => ClearLogs(d, t)
  }

  function Run(d: DiDemo, actions: seq<Action>): DiDemo {
    if actions == [] then d else Apply(Run(d, actions[..|actions| - 1]), Last(actions))
  }

  /** The activity log never holds more than ten entries, whatever the
      component does. */
  lemma {:induction false} LogStaysBounded(d: DiDemo, actions: seq<Action>)
    requires |d.logs| <= BoundedLog.Capacity
    ensures |Run(d, actions).logs| <= BoundedLog.Capacity
  {
    if actions != [] {
      LogStaysBounded(d, actions[..|actions| - 1]);
    }
  }

  /** In particular the freshly constructed component stays within the
      bound. */
  lemma CreatedLogBounded(logger: ConsoleLoggerService.ConsoleLogger, config: Config.AppConfig,
                          t1: Timestamp, t2: Timestamp, t3: Timestamp, actions: seq<Action>)
    ensures |Run(Create(logger, config, t1, t2, t3), actions).logs| <= BoundedLog.Capacity
  {
    LogStaysBounded(Create(logger, config, t1, t2, t3), actions);
  }
}
