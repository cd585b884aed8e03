/**
 * The console logger of lib/logger.js: a level name, the numeric threshold
 * derived from it, and the check that decides whether a message is printed.
 * The printing itself (timestamp, prefix, console output) is not modelled;
 * each logging call answers whether it would print.
 */
module Logging {
  import opened Wrappers

  /** The level names and their ranks (lib/logger.js:7-12). */
  const LogLevels: map<string, nat> := map["debug" := 0, "info" := 1, "warn" := 2, "error" := 3]

  /**
   * `logLevels[level] || 1`: the rank of a known level, except that an
   * unknown name and "debug" (whose rank 0 is falsy) both give 1.
   */
  function Threshold(level: string): (r: nat)
    ensures 1 <= r <= 3
    ensures level in LogLevels && level != "debug" ==> r == LogLevels[level]
    ensures level !in LogLevels || level == "debug" ==> r == 1
  {
    if level in LogLevels && LogLevels[level] != 0 then LogLevels[level] else 1
  }

  class Logger {
    var level: string
    var currentLevel: nat

    /** The threshold always follows the level name. */
    ghost predicate Valid()
      reads this
    {
      currentLevel == Threshold(level)
    }

    /** `new Logger(config)`: the configured level if it is a non-empty string, else "info". */
    constructor(logLevel: Option<string>)
      ensures logLevel.Some? && logLevel.value != "" ==> level == logLevel.value
      ensures logLevel.None? || logLevel.value == "" ==> level == "info" && currentLevel == 1
      ensures Valid()
    {
      level := if logLevel.Some? && logLevel.value != "" then logLevel.value else "info";
      currentLevel := Threshold(if logLevel.Some? && logLevel.value != "" then logLevel.value else "info");
    }

    /** `setLevel`: both fields follow the new name, whatever it is. */
    method SetLevel(newLevel: string)
      modifies this
      ensures level == newLevel
      ensures Valid()
    {
      level := newLevel;
      currentLevel := Threshold(newLevel);
    }

    /** `log(name, ...)`: prints iff the name is a known level ranked at or above the threshold. */
    function Log(name: string): (printed: bool)
      reads this
      ensures name !in LogLevels ==> !printed
      ensures name in LogLevels ==> (printed <==> currentLevel <= LogLevels[name])
    {
      name in LogLevels && LogLevels[name] >= currentLevel
    }

    /** `debug(...)`: never prints, since the threshold is never below 1. */
    function Debug(): (printed: bool)
      reads this
      requires Valid()
      ensures !printed
    {
      Log("debug")
    }

    /** `info(...)`: prints unless the level is "warn" or "error". */
    function Info(): (printed: bool)
      reads this
      requires Valid()
      ensures printed <==> level != "warn" && level != "error"
    {
      Log("info")
    }

    /** `warn(...)`: prints unless the level is "error". */
    function Warn(): (printed: bool)
      reads this
      requires Valid()
      ensures printed <==> level != "error"
    {
      Log("warn")
    }

    /** `error(...)`: always prints. */
    function Error(): (printed: bool)
      reads this
      requires Valid()
      ensures printed
    {
      Log("error")
    }
  }

  /**
   * Whether a message prints is monotone in its level: whatever the logger's
   * level, a message that prints at one rank also prints at every higher rank.
   */
  lemma PrintingIsMonotone(logger: Logger, lower: string, higher: string)
    requires lower in LogLevels && higher in LogLevels && LogLevels[lower] <= LogLevels[higher]
    ensures logger.Log(lower) ==> logger.Log(higher)
  {
  }

  /**
   * "debug" and an unknown level name behave alike: both make the logger
   * print exactly the info, warn and error messages.
   */
  lemma DebugIsInfo(logger: Logger)
    requires logger.Valid()
    requires logger.level == "debug" || logger.level !in LogLevels
    ensures !logger.Debug() && logger.Info() && logger.Warn() && logger.Error()
  {
  }
}
