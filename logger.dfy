/** The level filter of backend/utils/logger.js. A logger is its configured
    level name; a call yields the line it prints, or nothing when the level
    is filtered out. Line formatting (timestamp, metadata) is not modelled. */
module Logging {
  import opened Common

  /** The four levels the logging methods use. */
  datatype Level = Error | Warn | Info | Debug

  function LevelName(l: Level): (name: string) {
    match l
    case Error => "error"
    case Warn => "warn"
    case Info => "info"
    case Debug => "debug"
  }

  function LevelRank(l: Level): (rank: nat) {
    match l
    case Error => 0
    case Warn => 1
    case Info => 2
    case Debug => 3
  }

  /** The `levels` table looked up by a name: any other name has no rank. */
  function Rank(name: string): (r: Option<nat>)
    ensures r.None? <==> forall l: Level :: LevelName(l) != name
    ensures forall l: Level :: LevelName(l) == name ==> r == Some(LevelRank(l))
  {
    // the four names differ in their first letter
    assert LevelName(Error)[0] == 'e' && LevelName(Warn)[0] == 'w' && LevelName(Info)[0] == 'i' && LevelName(Debug)[0] == 'd';
    if name == "error" then Some(0)
    else if name == "warn" then Some(1)
    else if name == "info" then Some(2)
    else if name == "debug" then Some(3)
    else None
  }

  const DEFAULT_LEVEL: string := "info"

  datatype Logger = Logger(logLevel: string)

  /** The constructor: `LOG_LEVEL` when set and non-empty, else "info". */
  function NewLogger(env: Option<string>): (lg: Logger)
    ensures Present(env) ==> lg.logLevel == env.value
    ensures !Present(env) ==> lg.logLevel == DEFAULT_LEVEL
  {
    Logger(if Present(env) then env.value else DEFAULT_LEVEL)
  }

  /** `shouldLog`: `undefined <= n` is false in JavaScript, so an unranked
      configured level lets nothing through. */
  predicate ShouldLog(lg: Logger, level: Level) {
    match Rank(lg.logLevel)
    case None => false
    case Some(configured) => LevelRank(level) <= configured
  }

  /** A printed line: its level and message. */
  datatype Line = Line(level: Level, message: string)

  /** `error`, `warn`, `info` and `debug`: print one line when the level
      passes the filter. */
  function Log(lg: Logger, level: Level, message: string): (r: Option<Line>)
    ensures r.Some? <==> ShouldLog(lg, level)
    ensures r.Some? ==> r.value.level == level && r.value.message == message
  {
    if ShouldLog(lg, level) then Some(Line(level, message)) else None
  }

  /** `logRequest`: error level for a status of 400 or more, else info. */
  function LogRequest(lg: Logger, statusCode: int): (r: Option<Line>)
    ensures r.Some? ==> (r.value.level == Error <==> statusCode >= 400)
    ensures r.Some? ==> (r.value.level == Info <==> statusCode < 400)
    ensures r.None? <==> !ShouldLog(lg, if statusCode >= 400 then Error else Info)
  {
    if statusCode >= 400 then Log(lg, Error, "HTTP Request Error")
    else Log(lg, Info, "HTTP Request")
  }

  /** `logSocketEvent` logs at info. */
  function LogSocketEvent(lg: Logger): (r: Option<Line>)
    ensures r.Some? ==> r.value.level == Info
    ensures r.Some? <==> ShouldLog(lg, Info)
  {
    Log(lg, Info, "Socket Event")
  }

  /** `logSecurityEvent` logs at warn. */
  function LogSecurityEvent(lg: Logger): (r: Option<Line>)
    ensures r.Some? ==> r.value.level == Warn
    ensures r.Some? <==> ShouldLog(lg, Warn)
  {
    Log(lg, Warn, "Security Event")
  }

  /** The filter is the rank order: a level passes iff its rank is at most
      the configured level's, and every level below a passing one passes. */
  lemma ShouldLogIsRankOrder(lg: Logger, level: Level, lower: Level)
    ensures ShouldLog(lg, level) <==>
              exists c: Level :: LevelName(c) == lg.logLevel && LevelRank(level) <= LevelRank(c)
    ensures ShouldLog(lg, level) && LevelRank(lower) <= LevelRank(level) ==> ShouldLog(lg, lower)
  {
    if ShouldLog(lg, level) {
      var c :| LevelName(c) == lg.logLevel;
    }
  }

  /** Without `LOG_LEVEL`, debug is suppressed and the other three pass. */
  lemma DefaultLevelSuppressesOnlyDebug(level: Level)
    ensures ShouldLog(NewLogger(None), level) <==> level != Debug
  {
  }

  /** Under any known configured level, error lines always pass; debug lines
      pass only under "debug". */
  lemma ErrorAlwaysDebugOnlyAtDebug(lg: Logger)
    requires Rank(lg.logLevel).Some?
    ensures ShouldLog(lg, Error)
    ensures ShouldLog(lg, Debug) <==> lg.logLevel == "debug"
  {
  }

  /** An unknown configured level silences every logging call. */
  lemma UnknownLevelLogsNothing(lg: Logger, level: Level, statusCode: int)
    requires forall l: Level :: LevelName(l) != lg.logLevel
    ensures Log(lg, level, "") == None && LogRequest(lg, statusCode) == None
    ensures LogSocketEvent(lg) == None && LogSecurityEvent(lg) == None
  {
  }

  /** A failing request is logged under every known configured level. */
  lemma FailedRequestAlwaysLogged(lg: Logger, statusCode: int)
    requires Rank(lg.logLevel).Some? && statusCode >= 400
    ensures LogRequest(lg, statusCode) == Some(Line(Error, "HTTP Request Error"))
  {
  }
}
