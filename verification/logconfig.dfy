/**
 * Logger set-up rules (logconfig/config.go): verbosity to level, the humanize choice, the
 * alternate log file name and the retry when the log file cannot be created. Opening files,
 * directories and streams is done by the caller and passed in.
 */
module LogConfig {
  import opened Wrappers
  import opened GoStrings
  import opened LogLevels
  import LogCore

  const TargetStdOut: string := ":stdout"
  const TargetStdErr: string := ":stderr"
  const TargetNull: string := ":null"

  const HumanizeAuto: int := -1
  const HumanizeFalse: int := 0
  const HumanizeTrue: int := 1

  datatype Options = Options(
    verbosityLevel: int,
    logFile: string,
    loggerMutex: bool,
    humanize: int)

  /** LogLevelFromVerbosityLevel: -1..3 are Error..Trace; every other verbosity is Trace. */
  function LogLevelFromVerbosityLevel(vLevel: int): (lvl: Level)
    ensures -1 <= vLevel <= 3 ==> lvl == [ErrorLevel, WarnLevel, InfoLevel, DebugLevel, TraceLevel][vLevel + 1]
    ensures !(-1 <= vLevel <= 3) ==> lvl == TraceLevel
    ensures IsValidLevel(lvl) && lvl != DisabledLevel
  {
    match vLevel
    case -1 => ErrorLevel
    case 0 => WarnLevel
    case 1 => InfoLevel
    case 2 => DebugLevel
    case 3 => TraceLevel
    case _ => TraceLevel
  }

  /** Higher verbosity never gives a lower level within the documented range. */
  lemma VerbosityMonotone(a: int, b: int)
    requires -1 <= a <= b <= 3
    ensures LogLevelFromVerbosityLevel(a) <= LogLevelFromVerbosityLevel(b)
  {
  }

  /** getHumanizeValue: Auto means "humanize iff the target is a terminal stream"; other values pass through. */
  function GetHumanizeValue(opts: Options): (h: int)
    ensures opts.humanize == HumanizeAuto ==>
      (h == HumanizeTrue <==> opts.logFile == TargetStdErr || opts.logFile == TargetStdOut)
    ensures opts.humanize == HumanizeAuto ==> h == HumanizeTrue || h == HumanizeFalse
    ensures opts.humanize != HumanizeAuto ==> h == opts.humanize
  {
    if opts.humanize == HumanizeAuto then
      if opts.logFile == TargetStdErr || opts.logFile == TargetStdOut then HumanizeTrue else HumanizeFalse
    else opts.humanize
  }

  /** alternateFileName: ".pid-N" goes before a trailing ".txt" when there is a name before it, else at the end. */
  function AlternateFileName(filename: string, pid: nat): (r: string)
    ensures |filename| > 4 && HasSuffix(filename, ".txt") ==>
      r == filename[..|filename| - 4] + ".pid-" + Itoa(pid) + ".txt"
    ensures !(|filename| > 4 && HasSuffix(filename, ".txt")) ==> r == filename + ".pid-" + Itoa(pid)
    ensures HasPrefix(r, TrimSuffix(filename, ".txt")) || HasPrefix(r, filename)
  {
    var txt := ".txt";
    var (prefix, ext) :=
      if |filename| > |txt| && filename[|filename| - |txt|..] == txt
      then (filename[..|filename| - |txt|], txt)
      else (filename, "");
    var name := prefix + ".pid-" + Itoa(pid);
    if |ext| > 0 then name + ext else name
  }

  /**
   * checkedLogFileName: tries the name, then once the alternate name; when both cannot be created
   * the error of the FIRST attempt is returned. `touch` gives the error of creating a file, if any.
   */
  function CheckedLogFileName(logFile: string, pid: nat, touch: string -> Option<string>): (r: Result<string, string>)
    ensures touch(logFile).None? ==> r == Success(logFile)
    ensures touch(logFile).Some? && touch(AlternateFileName(logFile, pid)).None? ==>
      r == Success(AlternateFileName(logFile, pid))
    ensures touch(logFile).Some? && touch(AlternateFileName(logFile, pid)).Some? ==>
      r == Failure(touch(logFile).value)
    ensures r.Success? ==> touch(r.value).None?
  {
    match touch(logFile)
    case None => Success(logFile)
    case Some(err) =>
      var alt := AlternateFileName(logFile, pid);
      if touch(alt).Some? then Failure(err) else Success(alt)
  }

  /** The outcome of Init, updated in place. */
  class LogInitResult {
    var enabled: bool
    var filename: string
    var logger: Option<LogCore.Logger>

    constructor ()
      ensures !enabled && logger.None?
    {
      enabled := false;
      filename := "";
      logger := None;
    }

    /**
     * Init. `stream` and `name` are what mustCreateWriteStream opened (it exits the process on
     * failure). The logger is a stream sink with the humanized or plain formatter, filtered at
     * the level the verbosity gives.
     */
    method Init(opts: Options, stream: nat, name: string)
      modifies this
      ensures enabled <==> opts.logFile != TargetNull
      ensures !enabled ==> logger == old(logger) && filename == old(filename)
      ensures enabled ==> filename == name && logger.Some?
      ensures enabled ==> logger.value.fields == []
      ensures enabled ==> logger.value.sink == LogCore.StreamSink(
        if GetHumanizeValue(opts) == HumanizeTrue then LogCore.ColorHumanText else LogCore.PlainText, stream)
      ensures enabled ==> forall l: Level ::
        logger.value.filter(l) == LogFilterForLevel(LogLevelFromVerbosityLevel(opts.verbosityLevel))(l)
    {
      enabled := false;
      var logFile := opts.logFile;
      if logFile == TargetNull {
        return;
      }
      var level := LogLevelFromVerbosityLevel(opts.verbosityLevel);
      if level == 0 {
        return;
      }
      var humanize := GetHumanizeValue(opts);
      var formatter := if humanize == HumanizeTrue then LogCore.ColorHumanText else LogCore.PlainText;
      var sink := LogCore.StreamSink(formatter, stream);
      var l := LogCore.New(sink);
      l := LogCore.SetFilter(l, Some(LogFilterForLevel(level)));
      enabled := true;
      filename := name;
      logger := Some(l);
    }
  }
}
