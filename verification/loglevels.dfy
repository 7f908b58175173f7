/**
 * Log levels and level filters (log/log.go level constants and log/utils.go).
 * A level is Go's `uint`, modelled as a 64-bit unsigned integer.
 */
module LogLevels {
  import opened GoStrings

  const MaxUint: int := 0xFFFF_FFFF_FFFF_FFFF

  newtype Level = x: int | 0 <= x <= MaxUint

  /** The levels are powers of two, with Disabled = 0. */
  const DisabledLevel: Level := 0
  const ErrorLevel: Level := 1
  const WarnLevel: Level := 2
  const InfoLevel: Level := 4
  const DebugLevel: Level := 8
  const TraceLevel: Level := 16

  /** The level that LogLevelFromString gives for a name it does not know: ^uint(0). */
  const UnknownLevel: Level := MaxUint as Level

  type Filter = Level -> bool

  function DisabledFilter(lvl: Level): bool { false }
  function AllLevelsFilter(lvl: Level): bool { true }
  function ErrorLevelFilter(lvl: Level): bool { lvl <= ErrorLevel }
  function WarnLevelFilter(lvl: Level): bool { lvl <= WarnLevel }
  function InfoLevelFilter(lvl: Level): bool { lvl <= InfoLevel }
  function DebugLevelFilter(lvl: Level): bool { lvl <= DebugLevel }
  function TraceLevelFilter(lvl: Level): bool { AllLevelsFilter(lvl) }

  predicate IsValidLevel(lvl: Level) {
    lvl == DisabledLevel || lvl == InfoLevel || lvl == WarnLevel || lvl == ErrorLevel
    || lvl == DebugLevel || lvl == TraceLevel
  }

  /** The names LogLevelFromString knows. */
  predicate IsLevelName(s: string) {
    s == "error" || s == "warn" || s == "info" || s == "debug" || s == "trace" || s == "all" || s == "off"
  }

  function LogLevelFromString(level: string): (lvl: Level)
    ensures IsValidLevel(lvl) <==> IsLevelName(level)
    ensures !IsLevelName(level) ==> lvl == UnknownLevel
  {
    match level
    case "error" => ErrorLevel
    case "warn" => WarnLevel
    case "info" => InfoLevel
    case "debug" => DebugLevel
    case "trace" => TraceLevel
    case "all" => TraceLevel
    case "off" => DisabledLevel
    case _ => UnknownLevel
  }

  function LogLevelString(lvl: Level): (s: string)
    ensures IsValidLevel(lvl) ==> LogLevelFromString(s) == lvl
    ensures IsValidLevel(lvl) <==> s != "msg"
  {
    if lvl == InfoLevel then "info"
    else if lvl == WarnLevel then "warn"
    else if lvl == ErrorLevel then "error"
    else if lvl == DebugLevel then "debug"
    else if lvl == TraceLevel then "trace"
    else if lvl == DisabledLevel then "off"
    else "msg"
  }

  /** Every known name except the alias "all" survives a trip through a level. */
  lemma NameRoundTrip(s: string)
    requires IsLevelName(s) && s != "all"
    ensures LogLevelString(LogLevelFromString(s)) == s
  {
  }

  function LogFilterForLevel(lvl: Level): (f: Filter)
    ensures IsValidLevel(lvl) && lvl != DisabledLevel && lvl != TraceLevel ==>
      forall l: Level :: f(l) <==> l <= lvl
    ensures lvl == TraceLevel ==> forall l: Level :: f(l)
    ensures lvl == DisabledLevel ==> forall l: Level :: !f(l)
    ensures !IsValidLevel(lvl) ==> forall l: Level :: f(l) <==> l <= InfoLevel
  {
    if lvl == InfoLevel then InfoLevelFilter
    else if lvl == WarnLevel then WarnLevelFilter
    else if lvl == ErrorLevel then ErrorLevelFilter
    else if lvl == DebugLevel then DebugLevelFilter
    else if lvl == TraceLevel then TraceLevelFilter
    else if lvl == DisabledLevel then DisabledFilter
    else InfoLevelFilter
  }

  /** The filter for a valid level accepts that level itself, except Disabled which accepts nothing. */
  lemma FilterAcceptsOwnLevel(lvl: Level)
    requires IsValidLevel(lvl)
    ensures LogFilterForLevel(lvl)(lvl) <==> lvl != DisabledLevel
  {
  }

  /**
   * log.PaddedString (identical in log/utils.go and log/formatter.go): pads with spaces up to
   * `width`; lengths are counted in characters.
   */
  function PaddedString(s: string, width: int): (r: string)
    ensures |r| == if width > |s| then width else |s|
    ensures r[..|s|] == s
    ensures forall i :: |s| <= i < |r| ==> r[i] == ' '
  {
    var diff := width - |s|;
    if diff == 1 then s + " "
    else if diff > 1 then s + Spaces(diff)
    else s
  }
}
