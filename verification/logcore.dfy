/**
 * The structured logger (log/log.go) and its sinks (log/sinks.go).
 * A logger is a value: Go copies `Logger` structs (With and WithFields return new ones) and the
 * request context stores one by value. What a logger hands to its sink is returned as a sequence
 * of records; what a sink writes to its streams is returned as a sequence of writes.
 */
module LogCore {
  import opened Wrappers
  import opened LogLevels

  /**
   * The dynamic values (`interface{}`) that appear as log arguments and field values. A Colored
   * value is one with a ColorString method, which a colour formatter prints instead of the value.
   */
  datatype Value = Text(s: string) | Number(n: int) | Uuid(bytes: seq<bv8>) | Bytes(b: seq<bv8>) | Colored(kind: ColorKind, n: int)

  /** The request logger's colourable argument types: an HTTP status, a duration, a transfer size. */
  datatype ColorKind = HttpStatus | Duration | TransferSize

  datatype Field = Field(name: string, value: Value)

  /** A log record; `fields` are the fields of the logger that produced it. Time and caller are left out. */
  datatype Record = Record(level: Level, format: string, args: seq<Value>, fields: seq<Field>)

  /** Which formatter a stream sink uses; formatting itself (time, fmt verbs) is not modelled. */
  datatype FormatterId = HumanText | ColorHumanText | PlainText

  datatype Sink =
    | NopSink
    | LeveledSink(maxLevel: Level, target: Sink)
    | StreamSink(formatter: FormatterId, stream: nat)
    | MultiSink(children: seq<Sink>)

  /** One formatted line written to a stream. */
  datatype Write = Write(stream: nat, formatter: FormatterId, record: Record)

  /** Sink.IsEnabled: Nop never, Leveled up to its MaxLevel, Stream always, Multi if any child is. */
  predicate IsEnabled(s: Sink, lvl: Level)
    decreases s
  {
    match s
    case NopSink => false
    case LeveledSink(maxLevel, _) => lvl <= maxLevel
    case StreamSink(_, _) => true
    case MultiSink(cs) => exists i :: 0 <= i < |cs| && IsEnabled(cs[i], lvl)
  }

  function Flatten<T>(parts: seq<seq<T>>): seq<T> {
    if |parts| == 0 then [] else parts[0] + Flatten(parts[1..])
  }

  lemma {:induction false} FlattenSnoc<T>(parts: seq<seq<T>>, last: seq<T>)
    ensures Flatten(parts + [last]) == Flatten(parts) + last
  {
    if |parts| == 0 {
      assert parts + [last] == [last];
    } else {
      assert (parts + [last])[1..] == parts[1..] + [last];
      FlattenSnoc(parts[1..], last);
    }
  }

  /** Sink.Log: the writes one record produces. A LeveledSink forwards without checking its level. */
  function SinkLog(s: Sink, r: Record): seq<Write>
    decreases s
  {
    match s
    case NopSink => []
    case LeveledSink(_, target) => SinkLog(target, r)
    case StreamSink(formatter, stream) => [Write(stream, formatter, r)]
    case MultiSink(cs) =>
      Flatten(seq(|cs|, i requires 0 <= i < |cs| =>
        if IsEnabled(cs[i], r.level) then SinkLog(cs[i], r) else []))
  }

  /** What MultiSink.Log does for one child: forward only if that child is enabled for the level. */
  function ChildLog(c: Sink, r: Record): seq<Write> {
    if IsEnabled(c, r.level) then SinkLog(c, r) else []
  }

  /** Sink.Flush, as the sequence of sinks whose Flush runs: a MultiSink flushes every child in order. */
  function FlushCalls(s: Sink): seq<Sink>
    decreases s
  {
    match s
    case MultiSink(cs) => [s] + Flatten(seq(|cs|, i requires 0 <= i < |cs| => FlushCalls(cs[i])))
    case _ => [s]
  }

  /** MultiSink.Log: forwards the record to each enabled child, in order. */
  method MultiSinkLog(children: seq<Sink>, r: Record) returns (out: seq<Write>)
    ensures out == SinkLog(MultiSink(children), r)
    ensures forall k :: 0 <= k < |children| && !IsEnabled(children[k], r.level) ==> ChildLog(children[k], r) == []
  {
    ghost var parts := seq(|children|, i requires 0 <= i < |children| => ChildLog(children[i], r));
    out := [];
    var i := 0;
    while i < |children|
      invariant 0 <= i <= |children|
      invariant out == Flatten(parts[..i])
    {
      var c := children[i];
      var w := if IsEnabled(c, r.level) then SinkLog(c, r) else [];
      assert parts[..i + 1] == parts[..i] + [w];
      FlattenSnoc(parts[..i], w);
      out := out + w;
      i := i + 1;
    }
    assert parts[..i] == parts;
    assert SinkLog(MultiSink(children), r) == Flatten(parts) by {
      var whole := seq(|children|, i requires 0 <= i < |children| =>
        if IsEnabled(children[i], r.level) then SinkLog(children[i], r) else []);
      assert forall k :: 0 <= k < |children| ==> whole[k] == parts[k];
      assert whole == parts;
    }
  }

  /** MultiSink.IsEnabled: true as soon as one child is enabled; false for no children. */
  method MultiSinkIsEnabled(children: seq<Sink>, lvl: Level) returns (enabled: bool)
    ensures enabled <==> exists i :: 0 <= i < |children| && IsEnabled(children[i], lvl)
    ensures |children| == 0 ==> !enabled
  {
    var i := 0;
    while i < |children|
      invariant 0 <= i <= |children|
      invariant forall k :: 0 <= k < i ==> !IsEnabled(children[k], lvl)
    {
      if IsEnabled(children[i], lvl) {
        return true;
      }
      i := i + 1;
    }
    return false;
  }

  /** MultiSink.Flush: flushes every child, in order. */
  method MultiSinkFlush(children: seq<Sink>) returns (calls: seq<Sink>)
    ensures [MultiSink(children)] + calls == FlushCalls(MultiSink(children))
  {
    ghost var parts := seq(|children|, i requires 0 <= i < |children| => FlushCalls(children[i]));
    calls := [];
    var i := 0;
    while i < |children|
      invariant 0 <= i <= |children|
      invariant calls == Flatten(parts[..i])
    {
      var c := FlushCalls(children[i]);
      assert parts[..i + 1] == parts[..i] + [c];
      FlattenSnoc(parts[..i], c);
      calls := calls + c;
      i := i + 1;
    }
    assert parts[..i] == parts;
  }

  /** A logger: its sink, its level filter and the fields it adds to every record. */
  datatype Logger = Logger(sink: Sink, filter: Filter, fields: seq<Field>)

  /** log.New: accepts every level and has no fields. */
  function New(sink: Sink): (l: Logger)
    ensures l.sink == sink && l.fields == []
    ensures forall lvl: Level :: l.filter(lvl)
  {
    Logger(sink, AllLevelsFilter, [])
  }

  /** Logger.IsEnabled consults only the filter, never the sink. */
  predicate LoggerIsEnabled(l: Logger, lvl: Level) {
    l.filter(lvl)
  }

  /** Logger.Logf: the records handed to the sink — one if the filter accepts the level, none otherwise. */
  function Logf(l: Logger, lvl: Level, format: string, args: seq<Value>): (sent: seq<Record>)
    ensures |sent| <= 1
    ensures |sent| == 1 <==> l.filter(lvl)
    ensures forall k :: 0 <= k < |sent| ==>
      sent[k].level == lvl && sent[k].format == format && sent[k].args == args && sent[k].fields == l.fields
  {
    if LoggerIsEnabled(l, lvl) then [Record(lvl, format, args, l.fields)] else []
  }

  /** Logger.Log: like Logf with no arguments. */
  function Log(l: Logger, lvl: Level, message: string): (sent: seq<Record>)
    ensures sent == Logf(l, lvl, message, [])
  {
    if LoggerIsEnabled(l, lvl) then [Record(lvl, message, [], l.fields)] else []
  }

  /** Logger.Logv: Logf with an empty format. */
  function Logv(l: Logger, lvl: Level, args: seq<Value>): (sent: seq<Record>)
    ensures |sent| == 1 <==> l.filter(lvl)
    ensures forall k :: 0 <= k < |sent| ==> sent[k].format == "" && sent[k].args == args
  {
    Logf(l, lvl, "", args)
  }

  /** What the logger's sink finally writes for what Logf sends. */
  function Emit(l: Logger, sent: seq<Record>): seq<Write> {
    Flatten(seq(|sent|, i requires 0 <= i < |sent| => SinkLog(l.sink, sent[i])))
  }

  /** Logger.With: one more field at the end; sink and filter are shared. */
  function With(l: Logger, name: string, value: Value): (r: Logger)
    ensures r.sink == l.sink && r.filter == l.filter
    ensures |r.fields| == |l.fields| + 1 && r.fields[..|l.fields|] == l.fields
    ensures r.fields[|l.fields|] == Field(name, value)
  {
    Logger(l.sink, l.filter, l.fields + [Field(name, value)])
  }

  /** Logger.WithFields: the given fields appended in order. */
  function WithFields(l: Logger, fields: seq<Field>): (r: Logger)
    ensures r.sink == l.sink && r.filter == l.filter
    ensures |r.fields| == |l.fields| + |fields|
    ensures r.fields[..|l.fields|] == l.fields && r.fields[|l.fields|..] == fields
  {
    Logger(l.sink, l.filter, l.fields + fields)
  }

  /** With is WithFields of a single field. */
  lemma WithIsWithFields(l: Logger, name: string, value: Value)
    ensures With(l, name, value).fields == WithFields(l, [Field(name, value)]).fields
  {
  }

  /** log.SetFilter: a nil filter installs AllLevelsFilter. Returns the updated logger. */
  function SetFilter(l: Logger, filter: Option<Filter>): (r: Logger)
    ensures r.sink == l.sink && r.fields == l.fields
    ensures filter.Some? ==> r.filter == filter.value
    ensures filter.None? ==> forall lvl: Level :: r.filter(lvl)
  {
    Logger(l.sink, if filter.Some? then filter.value else AllLevelsFilter, l.fields)
  }

  /** Logger.Flush flushes the logger's sink. */
  function Flush(l: Logger): (calls: seq<Sink>)
    ensures |calls| >= 1 && calls[0] == l.sink
  {
    FlushCalls(l.sink)
  }
}
