/**
 * The request-logging middleware (http/middleware/logger.go): after the next handler it logs the
 * error chain and recorded panic stacks, then one line per request; and the colour rules of the
 * status, duration and transfer-size arguments of that line.
 */
module RequestLogger {
  import opened Wrappers
  import opened GoStrings
  import opened Http
  import opened AnsiCode
  import opened LogLevels
  import LogCore
  import ErrorHandlers

  // ---------------------------------------------------------------------------------------------
  // Status colours

  const StatusColors: seq<string> := [CyanBright, Green, MagentaBright, YellowBright, RedBright]

  /** The colour slot of a status code of at least 100: its class, wrapping round every five classes. */
  function StatusColorIndex(code: int): (i: nat)
    requires code >= 100
    ensures i < |StatusColors|
  {
    (code / 100 - 1) % |StatusColors|
  }

  /** coloredStatusIntString: below 100 only the first colour (no number, no Reset); otherwise colour, code, Reset. */
  function ColoredStatus(code: int): (r: string)
    ensures code < 100 ==> r == StatusColors[0]
    ensures code >= 100 ==>
      StatusColors[StatusColorIndex(code)] <= r && r[|StatusColors[StatusColorIndex(code)]|..] == Itoa(code) + Reset
  {
    if code < 100 then StatusColors[0]
    else StatusColors[StatusColorIndex(code)] + Itoa(code) + Reset
  }

  /** Informational codes are cyan, success green, redirects magenta, client errors yellow, server errors red. */
  lemma StatusClassColors(code: int)
    requires 100 <= code < 600
    ensures StatusColorIndex(code) == code / 100 - 1
    ensures 100 <= code < 200 ==> StatusColors[StatusColorIndex(code)] == CyanBright
    ensures 200 <= code < 300 ==> StatusColors[StatusColorIndex(code)] == Green
    ensures 300 <= code < 400 ==> StatusColors[StatusColorIndex(code)] == MagentaBright
    ensures 400 <= code < 500 ==> StatusColors[StatusColorIndex(code)] == YellowBright
    ensures 500 <= code < 600 ==> StatusColors[StatusColorIndex(code)] == RedBright
  {
    var q := code / 100;
    assert 1 <= q <= 5;
    assert (q - 1) % 5 == q - 1;
  }

  /** The colours repeat every 500 codes: 600 is coloured like 100. */
  lemma {:induction false} StatusColorsWrap(code: int)
    requires code >= 100
    ensures StatusColorIndex(code + 500) == StatusColorIndex(code)
  {
    assert (code + 500) / 100 == code / 100 + 5;
  }

  // ---------------------------------------------------------------------------------------------
  // Colour indexes from limits

  /** How many of the limits, taken in order, `v` exceeds before the first it does not. */
  function LeadingExceeded(limits: seq<int>, v: int): (n: nat)
    ensures n <= |limits|
    ensures forall k :: 0 <= k < n ==> v > limits[k]
    ensures n < |limits| ==> v <= limits[n]
  {
    if |limits| == 0 || v <= limits[0] then 0
    else
      var n := LeadingExceeded(limits[1..], v);
      assert forall k :: 1 <= k < |limits| ==> limits[k] == limits[1..][k - 1];
      1 + n
  }

  /** The loop shared by the colour rules: count leading limits exceeded, then clamp to `maxIndex`. */
  method ClampedLimitIndex(limits: seq<int>, v: int, maxIndex: nat) returns (index: nat)
    ensures index == if LeadingExceeded(limits, v) >= maxIndex then maxIndex else LeadingExceeded(limits, v)
  {
    index := 0;
    for j := 0 to |limits|
      invariant index == j
      invariant forall k :: 0 <= k < j ==> v > limits[k]
      invariant LeadingExceeded(limits, v) >= j
    {
      if v > limits[j] {
        index := index + 1;
      } else {
        break;
      }
    }
    if index >= maxIndex {
      index := maxIndex;
    }
  }

  const SizeColors: seq<string> := [BlackBright, YellowBright, RedBright]
  const SizeColorLimits: seq<int> := [80 * 1000, 400 * 1000]

  /** ColoredTransferSize.ColorString's colour: the count of size limits exceeded; the clamp to len(statusColors) − 1 never acts. */
  method SizeColorIndex(size: int) returns (index: nat)
    ensures index < |SizeColors|
    ensures index == 0 <==> size <= 80000
    ensures index == 1 <==> 80000 < size <= 400000
    ensures index == 2 <==> size > 400000
  {
    index := ClampedLimitIndex(SizeColorLimits, size, |StatusColors| - 1);
  }

  const TimeColors: seq<string> := [BlackBright, YellowBright, RedBright, Red, RedBrightBg + White, RedBg + White + Bold]
  const TimeColorLimits: seq<int> := [80, 200, 500, 1000, 2000]

  /** Go's integer division of a signed value, truncating toward zero. */
  function Quo(a: int, b: int): (q: int)
    requires b > 0
    ensures a >= 0 ==> q == a / b
    ensures a < 0 ==> q == -((-a) / b)
  {
    if a >= 0 then a / b else -((-a) / b)
  }

  /** The whole milliseconds of a duration given in nanoseconds, as coloredTimeString computes them. */
  function Millis(nanos: int): int {
    Quo(Quo(nanos, 1000), 1000)
  }

  /** coloredTimeString's colour as written: clamped to len(statusColors) − 1 = 4, below the last time colour. */
  method TimeColorIndexAsWritten(nanos: int) returns (index: nat)
    ensures index == if LeadingExceeded(TimeColorLimits, Millis(nanos)) >= 4 then 4 else LeadingExceeded(TimeColorLimits, Millis(nanos))
    ensures index < |TimeColors| - 1
  {
    index := ClampedLimitIndex(TimeColorLimits, Millis(nanos), |StatusColors| - 1);
  }

  /** coloredTimeString's colour as intended: clamped to the last time colour. */
  method TimeColorIndex(nanos: int) returns (index: nat)
    ensures index == LeadingExceeded(TimeColorLimits, Millis(nanos))
    ensures index < |TimeColors|
  {
    index := ClampedLimitIndex(TimeColorLimits, Millis(nanos), |TimeColors| - 1);
  }

  predicate Ascending(limits: seq<int>) {
    forall j, k :: 0 <= j < k < |limits| ==> limits[j] < limits[k]
  }

  /** Over ascending limits, the count is `m` exactly when `v` exceeds limit m − 1 and not limit m. */
  lemma LeadingExceededBand(limits: seq<int>, v: int, m: nat)
    requires Ascending(limits) && m <= |limits|
    ensures LeadingExceeded(limits, v) == m <==> (m == 0 || v > limits[m - 1]) && (m == |limits| || v <= limits[m])
  {
  }

  /** The time colour bands: each limit exceeded moves one colour on; above 2 s the last colour. */
  lemma TimeColorBands(ms: int)
    ensures LeadingExceeded(TimeColorLimits, ms) == 0 <==> ms <= 80
    ensures LeadingExceeded(TimeColorLimits, ms) == 3 <==> 500 < ms <= 1000
    ensures LeadingExceeded(TimeColorLimits, ms) == 4 <==> 1000 < ms <= 2000
    ensures LeadingExceeded(TimeColorLimits, ms) == 5 <==> ms > 2000
  {
    LeadingExceededBand(TimeColorLimits, ms, 0);
    LeadingExceededBand(TimeColorLimits, ms, 3);
    LeadingExceededBand(TimeColorLimits, ms, 4);
    LeadingExceededBand(TimeColorLimits, ms, 5);
  }

  /** As written, a 3 s request and a 1.5 s one get the same colour; the last time colour is never used. */
  lemma SlowRequestsShareColor()
    ensures Millis(3_000_000_000) == 3000 && Millis(1_500_000_000) == 1500
    ensures LeadingExceeded(TimeColorLimits, 3000) == 5 && LeadingExceeded(TimeColorLimits, 1500) == 4
  {
    TimeColorBands(3000);
    TimeColorBands(1500);
  }

  // ---------------------------------------------------------------------------------------------
  // Size units

  const SizeSuffixes: seq<string> := ["b", "kb", "mb", "gb"]

  function Pow1000(n: nat): (p: nat)
    ensures p >= 1
  {
    if n == 0 then 1 else 1000 * Pow1000(n - 1)
  }

  /** The unit sizeString picks: its suffix index and the divisor of the printed number. */
  datatype SizeUnit = SizeUnit(index: nat, divisor: nat)

  /** sizeString's unit as written: from 10^12 bytes on, the index passes the last suffix and the lookup panics. */
  method SizeUnitAsWritten(size: int) returns (u: Option<SizeUnit>)
    ensures u.None? <==> size > Pow1000(4)
    ensures u.Some? ==> u.value.index < |SizeSuffixes| && u.value.divisor == Pow1000(u.value.index)
    ensures u.Some? && u.value.index > 0 ==> size > u.value.divisor
    ensures u.Some? ==> size <= 1000 * u.value.divisor
  {
    var index: nat := 0;
    var i: nat := 1000;
    while size > i
      invariant i == Pow1000(index + 1)
      invariant index > 0 ==> size > Pow1000(index)
      decreases size - i
    {
      index := index + 1;
      i := i * 1000;
    }
    if index >= |SizeSuffixes| {
      assert size > Pow1000(index) >= Pow1000(4) by { PowMonotone(4, index); }
      return None;
    }
    if size > Pow1000(4) {
      PowMonotone(index + 1, 4);
      assert false;
    }
    return Some(SizeUnit(index, i / 1000));
  }

  /** sizeString's unit as intended: sizes beyond the last suffix are shown in gigabytes. */
  method SizeUnitClamped(size: int) returns (u: SizeUnit)
    ensures u.index < |SizeSuffixes| && u.divisor == Pow1000(u.index)
    ensures u.index > 0 ==> size > u.divisor
    ensures u.index < |SizeSuffixes| - 1 ==> size <= 1000 * u.divisor
  {
    var index: nat := 0;
    var i: nat := 1000;
    while size > i
      invariant i == Pow1000(index + 1)
      invariant index > 0 ==> size > Pow1000(index)
      decreases size - i
    {
      index := index + 1;
      i := i * 1000;
    }
    if index >= |SizeSuffixes| {
      PowMonotone(3, index);
      return SizeUnit(3, Pow1000(3));
    }
    return SizeUnit(index, i / 1000);
  }

  lemma {:induction false} PowMonotone(a: nat, b: nat)
    requires a <= b
    ensures Pow1000(a) <= Pow1000(b)
    decreases b
  {
    if a < b {
      PowMonotone(a, b - 1);
    }
  }

  /** Two terabytes: the unit lookup as written panics, the intended one gives gigabytes. */
  method TwoTerabytes() returns (asWritten: Option<SizeUnit>, intended: SizeUnit)
    ensures asWritten.None?
    ensures intended == SizeUnit(3, 1_000_000_000)
  {
    asWritten := SizeUnitAsWritten(2_000_000_000_000);
    intended := SizeUnitClamped(2_000_000_000_000);
  }

  // ---------------------------------------------------------------------------------------------
  // Error logging

  const StackFormat := "[[stack-%d]]\r\n%s[[stack:end]]\r\n"
  const CauseFormat := "cause: %s => %#v "

  /** The stacks LogErrorStack prints: the non-empty ones, in order. */
  function NonEmpty(stacks: seq<seq<bv8>>): (r: seq<seq<bv8>>)
    ensures |r| <= |stacks|
    ensures forall k :: 0 <= k < |r| ==> |r[k]| > 0
  {
    if |stacks| == 0 then []
    else
      var last := stacks[|stacks| - 1];
      NonEmpty(stacks[..|stacks| - 1]) + (if |last| > 0 then [last] else [])
  }

  /** The records LogErrorStack sends: stack k of the non-empty ones is numbered k. */
  function StackRecords(l: LogCore.Logger, stacks: seq<seq<bv8>>): seq<LogCore.Record> {
    var ne := NonEmpty(stacks);
    if l.filter(ErrorLevel) then
      seq(|ne|, k requires 0 <= k < |ne| => LogCore.Record(ErrorLevel, StackFormat, [LogCore.Number(k), LogCore.Bytes(ne[k])], l.fields))
    else []
  }

  /** LogErrorStack: one error record per non-empty stack, numbered from 0 without gaps. */
  method LogErrorStack(l: LogCore.Logger, stacks: seq<seq<bv8>>) returns (sent: seq<LogCore.Record>)
    ensures sent == StackRecords(l, stacks)
  {
    sent := [];
    var i := 0;
    for j := 0 to |stacks|
      invariant i == |NonEmpty(stacks[..j])|
      invariant sent == StackRecords(l, stacks[..j])
    {
      assert stacks[..j + 1][..j] == stacks[..j];
      if |stacks[j]| > 0 {
        sent := sent + LogCore.Logf(l, ErrorLevel, StackFormat, [LogCore.Number(i), LogCore.Bytes(stacks[j])]);
        i := i + 1;
      }
    }
    assert stacks[..|stacks|] == stacks;
  }

  /** The numbering: record k carries the number k and the k-th non-empty stack; empty stacks are skipped. */
  lemma StackNumbering(l: LogCore.Logger, stacks: seq<seq<bv8>>)
    requires l.filter(ErrorLevel)
    ensures |StackRecords(l, stacks)| == |NonEmpty(stacks)|
    ensures forall k :: 0 <= k < |StackRecords(l, stacks)| ==>
      StackRecords(l, stacks)[k].args == [LogCore.Number(k), LogCore.Bytes(NonEmpty(stacks)[k])]
  {
  }

  /** Every non-empty stack is printed and nothing else is: the kept stacks are exactly the non-empty ones. */
  lemma {:induction false} NonEmptyKeepsEvery(stacks: seq<seq<bv8>>)
    ensures forall x :: x in NonEmpty(stacks) <==> x in stacks && |x| > 0
    decreases |stacks|
  {
    if |stacks| > 0 {
      var init := stacks[..|stacks| - 1];
      NonEmptyKeepsEvery(init);
      assert stacks == init + [stacks[|stacks| - 1]];
    }
  }

  /** The error chain errutils walks, at most `limit` errors: the error, then its causes. */
  function Chain(e: Error, limit: nat): (c: seq<Error>)
    ensures |c| <= limit
    ensures limit > 0 ==> |c| > 0 && c[0] == e
    decreases limit
  {
    if limit == 0 then []
    else if e.HttpError? && e.cause.Some? then [e] + Chain(e.cause.value, limit - 1)
    else [e]
  }

  /** The records LogError sends: one per error of the chain that has a message. */
  function CauseRecords(l: LogCore.Logger, chain: seq<Error>, hasMessage: Error -> bool, goSyntax: Error -> string): seq<LogCore.Record>
    decreases |chain|
  {
    if |chain| == 0 then []
    else
      CauseRecords(l, chain[..|chain| - 1], hasMessage, goSyntax)
      + (var e := chain[|chain| - 1];
         if hasMessage(e) then LogCore.Logf(l, ErrorLevel, CauseFormat, [LogCore.Text(ErrorHandlers.ErrorText(e)), LogCore.Text(goSyntax(e))]) else [])
  }

  /** LogError on an error: walks at most ten errors of the chain, logging those with a message. */
  method LogError(l: LogCore.Logger, err: Error, hasMessage: Error -> bool, goSyntax: Error -> string) returns (sent: seq<LogCore.Record>)
    ensures sent == CauseRecords(l, Chain(err, 10), hasMessage, goSyntax)
  {
    var chain := Chain(err, 10);
    sent := [];
    for j := 0 to |chain|
      invariant sent == CauseRecords(l, chain[..j], hasMessage, goSyntax)
    {
      assert chain[..j + 1][..j] == chain[..j];
      var e := chain[j];
      if hasMessage(e) {
        sent := sent + LogCore.Logf(l, ErrorLevel, CauseFormat, [LogCore.Text(ErrorHandlers.ErrorText(e)), LogCore.Text(goSyntax(e))]);
      }
    }
    assert chain[..|chain|] == chain;
  }

  /** LogError sends at most ten records, all at the error level with the cause format. */
  lemma {:induction false} CauseRecordsShape(l: LogCore.Logger, chain: seq<Error>, hasMessage: Error -> bool, goSyntax: Error -> string)
    ensures |CauseRecords(l, chain, hasMessage, goSyntax)| <= |chain|
    ensures forall r :: r in CauseRecords(l, chain, hasMessage, goSyntax) ==> r.level == ErrorLevel && r.format == CauseFormat
    decreases |chain|
  {
    if |chain| > 0 {
      CauseRecordsShape(l, chain[..|chain| - 1], hasMessage, goSyntax);
    }
  }

  // ---------------------------------------------------------------------------------------------
  // The middleware

  const WriterAssertionPanic := "interface conversion: http.ResponseWriter is not writer.ResponseWriter"
  /** FromRequest's type assertion on a request without a context record. */
  const NilContextPanic := "interface conversion: interface {} is nil, not *middleware.RequestContext"

  /** Writer.Status of the status-tracking writer: the status sent, 0 before any. */
  function StatusOf(w: Writer): int {
    if w.status.Some? then w.status.value else 0
  }

  /** The request line: method, status, duration, size when something was written, request URI, remote address. */
  function RequestLine(l: LogCore.Logger, lvl: Level, r: Request, w: Writer, elapsed: int): (sent: seq<LogCore.Record>)
    ensures |sent| <= 1 && (|sent| == 1 <==> l.filter(lvl))
    ensures forall k :: 0 <= k < |sent| ==> sent[k].level == lvl
    ensures forall k :: 0 <= k < |sent| ==> |sent[k].args| == (if w.bytesWritten > 0 then 6 else 5)
    ensures forall k :: 0 <= k < |sent| ==> sent[k].args[1] == LogCore.Colored(LogCore.HttpStatus, StatusOf(w))
  {
    var status := LogCore.Colored(LogCore.HttpStatus, StatusOf(w));
    var duration := LogCore.Colored(LogCore.Duration, elapsed);
    if w.bytesWritten > 0 then
      LogCore.Logf(l, lvl, "%s %v %v %v %s %s",
        [LogCore.Text(r.verb), status, duration, LogCore.Colored(LogCore.TransferSize, w.bytesWritten), LogCore.Text(r.requestUri), LogCore.Text(r.remoteAddr)])
    else
      LogCore.Logf(l, lvl, "%s %v %v %s %s",
        [LogCore.Text(r.verb), status, duration, LogCore.Text(r.requestUri), LogCore.Text(r.remoteAddr)])
  }

  /**
   * CreateLogMiddleware: the writer must be the status-tracking one; after next, an error is
   * logged with its chain and the recorded stacks, then the request line; the result is always nil.
   * `elapsed` is the request's duration in nanoseconds, as the clock reports it.
   */
  function LogMiddleware(lvl: Level, elapsed: int, hasMessage: Error -> bool, goSyntax: Error -> string): Middleware {
    (next: Handler) => (x: Exchange) =>
      if !x.s.w.tracking then Panicked(x.s, WriterAssertionPanic)
      else
        match next(x)
        case Panicked(s, v) => Panicked(s, v)
        case Returned(s, err) =>
          if s.ctx.None? then Panicked(s, NilContextPanic)
          else
            var l := s.ctx.value.logger;
            var errors := if err.Some? then CauseRecords(l, Chain(err.value, 10), hasMessage, goSyntax) + StackRecords(l, s.ctx.value.errorStacks) else [];
            Returned(EmitAll(s, ErrorHandlers.LoggedEffects(errors + RequestLine(l, lvl, x.r, s.w, elapsed))), None)
  }

  /**
   * The middleware swallows next's error and adds only log records: the writer and context are
   * next's, the request line comes last, and error records appear only when next failed.
   */
  lemma LogMiddlewareRules(lvl: Level, elapsed: int, hasMessage: Error -> bool, goSyntax: Error -> string, next: Handler, x: Exchange)
    requires x.s.w.tracking && next(x).Returned? && next(x).s.ctx.Some?
    ensures var o := LogMiddleware(lvl, elapsed, hasMessage, goSyntax)(next)(x);
      var s := next(x).s;
      var line := RequestLine(s.ctx.value.logger, lvl, x.r, s.w, elapsed);
      && o.Returned? && o.err.None?
      && o.s.w == s.w && o.s.ctx == s.ctx
      && |s.effects| <= |o.s.effects|
      && o.s.effects[|o.s.effects| - |line|..] == ErrorHandlers.LoggedEffects(line)
      && (next(x).err.None? ==> o.s.effects == s.effects + ErrorHandlers.LoggedEffects(line))
  {
    var s := next(x).s;
    var l := s.ctx.value.logger;
    var line := RequestLine(l, lvl, x.r, s.w, elapsed);
    var errors := if next(x).err.Some? then CauseRecords(l, Chain(next(x).err.value, 10), hasMessage, goSyntax) + StackRecords(l, s.ctx.value.errorStacks) else [];
    var o := LogMiddleware(lvl, elapsed, hasMessage, goSyntax)(next)(x);
    assert o == Returned(EmitAll(s, ErrorHandlers.LoggedEffects(errors + line)), None);
    var all := ErrorHandlers.LoggedEffects(errors + line);
    assert all[|all| - |line|..] == ErrorHandlers.LoggedEffects(line);
  }

  /** Without the status-tracking writer the middleware panics before next runs. */
  lemma LogMiddlewareNeedsTrackingWriter(lvl: Level, elapsed: int, hasMessage: Error -> bool, goSyntax: Error -> string, next: Handler, x: Exchange)
    requires !x.s.w.tracking
    ensures LogMiddleware(lvl, elapsed, hasMessage, goSyntax)(next)(x) == Panicked(x.s, WriterAssertionPanic)
  {
  }
}
