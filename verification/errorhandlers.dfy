/**
 * Error handlers (http/handlerutils/errorhandlers.go): turn a handler's error into a status on
 * the response, writing the status at most once on the status-tracking writer.
 */
module ErrorHandlers {
  import opened Wrappers
  import opened Http
  import LogLevels
  import LogCore

  /** An mchain.ErrorHandler: it returns nothing, but may panic. */
  type ErrorHandler = (Error, Exchange) -> Served

  /** The text `%v` gives for an error. */
  function ErrorText(e: Error): string {
    match e
    case HttpError(_, _, message, _) => message
    case PlainError(message) => message
    case Recovered(value) => value
  }

  /** 5xx status codes. */
  predicate IsServerErrorCode(code: int) {
    500 <= code <= 599
  }

  function LoggedEffects(sent: seq<LogCore.Record>): (es: seq<Effect>)
    ensures |es| == |sent|
    ensures forall i :: 0 <= i < |sent| ==> es[i] == Logged(sent[i])
  {
    seq(|sent|, i requires 0 <= i < |sent| => Logged(sent[i]))
  }

  /**
   * logger.Errorf("error-handler: %v", e) on the request logger: the records the logger sends
   * become effects. The request logger is read through the request context; without one the
   * type assertion panics.
   */
  function LogError(s: Shared, e: Error): (res: Served)
    ensures s.ctx.None? <==> res.Aborted?
    ensures res.s.w == s.w && res.s.ctx == s.ctx
    ensures s.ctx.Some? ==>
      res.s.effects == s.effects + LoggedEffects(LogCore.Logf(s.ctx.value.logger, LogLevels.ErrorLevel, "error-handler: %v", [LogCore.Text(ErrorText(e))]))
  {
    if s.ctx.None? then Aborted(s, "request context missing")
    else
      var sent := LogCore.Logf(s.ctx.value.logger, LogLevels.ErrorLevel, "error-handler: %v", [LogCore.Text(ErrorText(e))]);
      Served(EmitAll(s, LoggedEffects(sent)))
  }

  /** Writing a status: the tracking writer only when none was written yet; any other writer always. */
  function StatusOnce(w: Writer, status: int): (r: Writer)
    ensures w.tracking && IsStatusWritten(w) ==> r == w
    ensures !(w.tracking && IsStatusWritten(w)) ==> r == WriteHeader(w, status)
  {
    if w.tracking && IsStatusWritten(w) then w else WriteHeader(w, status)
  }

  /** StatusErrorHandler: logs when logErrors is set, then writes the status. */
  function StatusErrorHandler(status: int, logErrors: bool): ErrorHandler {
    (e: Error, x: Exchange) =>
      var logged := if logErrors then LogError(x.s, e) else Served(x.s);
      match logged
      case Aborted(s, v) => Aborted(s, v)
      case Served(s) => Served(SetWriter(s, StatusOnce(s.w, status)))
  }

  /** HttpErrorHandler: an HttpError's code and headers, anything else through StatusErrorHandler(fallbackStatus). */
  function HttpErrorHandler(fallbackStatus: int, logErrors: bool): ErrorHandler {
    (e: Error, x: Exchange) =>
      match e
      case HttpError(code, headers, _, _) =>
        var logged := if IsServerErrorCode(code) && logErrors then LogError(x.s, e) else Served(x.s);
        (match logged
         case Aborted(s, v) => Aborted(s, v)
         case Served(s) =>
           if s.w.tracking && IsStatusWritten(s.w) then Served(s)
           else Served(SetWriter(s, WriteHeaderText(WriteHeader(s.w, code), headers))))
      case _ => StatusErrorHandler(fallbackStatus, logErrors)(e, x)
  }

  /** Logging on a request without a request context panics before any status is written. */
  lemma StatusErrorHandlerNeedsContext(status: int, logErrors: bool, e: Error, x: Exchange)
    ensures StatusErrorHandler(status, logErrors)(e, x).Aborted? <==> logErrors && x.s.ctx.None?
    ensures StatusErrorHandler(status, logErrors)(e, x).Aborted? ==> StatusErrorHandler(status, logErrors)(e, x).s == x.s
  {
  }

  /**
   * On the tracking writer the status is written at most once: a fresh response gets exactly the
   * given status, one that already has a status is not written to again. The request context is
   * needed only when the error is logged.
   */
  lemma StatusErrorHandlerWritesOnce(status: int, logErrors: bool, e: Error, x: Exchange)
    requires x.s.w.tracking
    ensures var res := StatusErrorHandler(status, logErrors)(e, x);
      !(logErrors && x.s.ctx.None?) ==>
      res.Served? &&
      (IsStatusWritten(x.s.w) ==> res.s.w == x.s.w) &&
      (!IsStatusWritten(x.s.w) ==> res.s.w.status == Some(status) && res.s.w.statusCalls == x.s.w.statusCalls + [status])
  {
    var logged := if logErrors then LogError(x.s, e) else Served(x.s);
    assert logged.Served? <==> !(logErrors && x.s.ctx.None?);
    assert logged.s.w == x.s.w;
    if logged.Served? {
      assert StatusErrorHandler(status, logErrors)(e, x) == Served(SetWriter(logged.s, StatusOnce(logged.s.w, status)));
    }
  }

  /** Any other writer gets the status on every call that does not panic. */
  lemma StatusErrorHandlerPlainWriter(status: int, logErrors: bool, e: Error, x: Exchange)
    requires !x.s.w.tracking
    ensures !(logErrors && x.s.ctx.None?) ==>
      StatusErrorHandler(status, logErrors)(e, x).s.w.statusCalls == x.s.w.statusCalls + [status]
  {
    var logged := if logErrors then LogError(x.s, e) else Served(x.s);
    assert logged.s.w == x.s.w;
    if logged.Served? {
      assert StatusErrorHandler(status, logErrors)(e, x) == Served(SetWriter(logged.s, StatusOnce(logged.s.w, status)));
    }
  }

  /**
   * StatusErrorHandler adds one record exactly when logErrors is set, a request context exists and
   * its logger accepts errors; none otherwise.
   */
  lemma StatusErrorHandlerLogs(status: int, logErrors: bool, e: Error, x: Exchange)
    ensures var added := |StatusErrorHandler(status, logErrors)(e, x).s.effects| - |x.s.effects|;
      added == (if logErrors && x.s.ctx.Some? && x.s.ctx.value.logger.filter(LogLevels.ErrorLevel) then 1 else 0)
  {
    var logged := if logErrors then LogError(x.s, e) else Served(x.s);
    assert logged.s.w == x.s.w;
    if logged.Served? {
      assert StatusErrorHandler(status, logErrors)(e, x) == Served(SetWriter(logged.s, StatusOnce(logged.s.w, status)));
    }
  }

  /**
   * HttpErrorHandler: an HttpError is logged only with a 5xx code and logErrors, which panics
   * without a request context; its code, then its headers as body text, are written only when no
   * status was written on the tracking writer.
   */
  lemma HttpErrorHandlerRules(fallbackStatus: int, logErrors: bool, code: int, headers: Header, msg: string,
                              cause: Option<Error>, x: Exchange)
    ensures var res := HttpErrorHandler(fallbackStatus, logErrors)(HttpError(code, headers, msg, cause), x);
      res.Aborted? <==> IsServerErrorCode(code) && logErrors && x.s.ctx.None?
    ensures var e := HttpError(code, headers, msg, cause);
      var res := HttpErrorHandler(fallbackStatus, logErrors)(e, x);
      res.Served? ==>
      (!(IsServerErrorCode(code) && logErrors) ==> res.s.effects == x.s.effects) &&
      (x.s.w.tracking && IsStatusWritten(x.s.w) ==> res.s.w == x.s.w) &&
      (!(x.s.w.tracking && IsStatusWritten(x.s.w)) ==> res.s.w == WriteHeaderText(WriteHeader(x.s.w, code), headers))
  {
    var e := HttpError(code, headers, msg, cause);
    var logged := if IsServerErrorCode(code) && logErrors then LogError(x.s, e) else Served(x.s);
    assert logged.s.w == x.s.w;
    assert !(IsServerErrorCode(code) && logErrors) ==> logged.s == x.s;
    if logged.Served? {
      assert HttpErrorHandler(fallbackStatus, logErrors)(e, x)
          == if logged.s.w.tracking && IsStatusWritten(logged.s.w) then Served(logged.s)
             else Served(SetWriter(logged.s, WriteHeaderText(WriteHeader(logged.s.w, code), headers)));
    }
  }

  /** Other errors are handled by StatusErrorHandler with the fallback status. */
  lemma HttpErrorHandlerFallback(fallbackStatus: int, logErrors: bool, e: Error, x: Exchange)
    requires !e.HttpError?
    ensures HttpErrorHandler(fallbackStatus, logErrors)(e, x) == StatusErrorHandler(fallbackStatus, logErrors)(e, x)
  {
  }
}
