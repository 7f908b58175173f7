/** Panic recovery and error-to-status middlewares (http/middleware/common.go). */
module CommonMiddleware {
  import opened Wrappers
  import opened Http

  /** PanicRecoveryMiddleware: next's result; a panic becomes the returned error (RecoverIntoError). */
  function PanicRecoveryMiddleware(next: Handler): Handler {
    (x: Exchange) =>
      match next(x)
      case Returned(s, err) => Returned(s, err)
      case Panicked(s, v) => Returned(s, Some(Recovered(v)))
  }

  lemma PanicRecoveryRules(next: Handler, x: Exchange)
    ensures PanicRecoveryMiddleware(next)(x).Returned?
    ensures PanicRecoveryMiddleware(next)(x).s == next(x).State()
    ensures next(x).Returned? ==> PanicRecoveryMiddleware(next)(x) == next(x)
    ensures next(x).Panicked? ==> PanicRecoveryMiddleware(next)(x).err == Some(Recovered(next(x).value))
  {
  }

  /**
   * The writes ErrorHandlerMiddleware makes after next returned err: none for a nil error or a
   * response whose status is already written; the code and headers of an HttpError; 500 otherwise.
   */
  function StatusForError(w: Writer, err: Option<Error>): Writer {
    if err.None? || IsStatusWritten(w) then w
    else
      match err.value
      case HttpError(code, headers, _, _) => WriteHeaderText(WriteHeader(w, code), headers)
      case _ => WriteHeader(w, 500)
  }

  /**
   * ErrorHandlerMiddleware: after next, the writer must be the tracking writer (the type assertion
   * panics otherwise); a hijacked connection gets no writes; the error is always returned unchanged.
   */
  function ErrorHandlerMiddleware(next: Handler): Handler {
    (x: Exchange) =>
      match next(x)
      case Panicked(s, v) => Panicked(s, v)
      case Returned(s, err) =>
        if !s.w.tracking then Panicked(s, "interface conversion")
        else if s.w.hijacked then Returned(s, err)
        else Returned(SetWriter(s, StatusForError(s.w, err)), err)
  }

  /**
   * A panic of next passes through; a writer that is not the tracking writer fails the type
   * assertion. Otherwise the middleware returns next's error unchanged; it writes nothing on a
   * hijacked connection, for a nil error, or once a status was written; otherwise an HttpError's
   * code followed by its headers written as body text, and 500 for any other error.
   */
  lemma ErrorHandlerRules(next: Handler, x: Exchange)
    ensures next(x).Panicked? ==> ErrorHandlerMiddleware(next)(x) == next(x)
    ensures next(x).Returned? && !next(x).s.w.tracking ==> ErrorHandlerMiddleware(next)(x).Panicked?
    ensures var out := next(x);
      var res := ErrorHandlerMiddleware(next)(x);
      out.Returned? && out.s.w.tracking ==>
      && res.Returned? && res.err == out.err
      && res.s.ctx == out.s.ctx && res.s.effects == out.s.effects
      && (out.s.w.hijacked || out.err.None? || IsStatusWritten(out.s.w) ==> res.s == out.s)
      && (!out.s.w.hijacked && out.err.Some? && !IsStatusWritten(out.s.w) ==>
           if out.err.value.HttpError? then
             res.s.w == WriteHeaderText(WriteHeader(out.s.w, out.err.value.code), out.err.value.headers)
             && res.s.w.statusCalls == out.s.w.statusCalls + [out.err.value.code]
             && res.s.w.status == Some(out.err.value.code)
           else
             res.s.w == WriteHeader(out.s.w, 500) && res.s.w.status == Some(500))
  {
    var out := next(x);
    if out.Returned? && out.s.w.tracking {
      assert ErrorHandlerMiddleware(next)(x)
          == if out.s.w.hijacked then Returned(out.s, out.err) else Returned(SetWriter(out.s, StatusForError(out.s.w, out.err)), out.err);
    }
  }

  /** Once the status is written, the middleware never writes another. */
  lemma ErrorHandlerWritesAtMostOnce(next: Handler, x: Exchange)
    requires next(x).Returned? && next(x).s.w.tracking
    requires IsStatusWritten(next(x).s.w)
    ensures ErrorHandlerMiddleware(next)(x) == next(x)
  {
    var out := next(x);
    assert ErrorHandlerMiddleware(next)(x)
        == if out.s.w.hijacked then Returned(out.s, out.err) else Returned(SetWriter(out.s, StatusForError(out.s.w, out.err)), out.err);
  }
}
