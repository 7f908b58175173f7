/**
 * Conversions between neo handlers and net/http handlers (app/neo/hconv/conv.go).
 * A neo handler runs on a Context — here the exchange of request and shared state.
 */
module HandlerConv {
  import opened Wrappers
  import opened Http

  /**
   * FuncToHttpFactory: for a context c, an http handler that runs h on c (the request of c, the
   * current shared state) and hands a non-nil error to the error handler, if there is one.
   */
  function FuncToHttpFactory(h: Handler, errorHandler: Option<ErrorSink>): Exchange -> HttpHandler {
    (c: Exchange) => (x: Exchange) =>
      match h(Exchange(c.r, x.s))
      case Returned(s, err) =>
        if err.Some? && errorHandler.Some? then Served(Emit(s, errorHandler.value(err.value))) else Served(s)
      case Panicked(s, v) => Aborted(s, v)
  }

  /** ToHttpFactory: FuncToHttpFactory of h.Run; for a function-valued handler h.Run is h. */
  function ToHttpFactory(h: Handler, errorHandler: Option<ErrorSink>): (f: Exchange -> HttpHandler)
    ensures f == FuncToHttpFactory(h, errorHandler)
  {
    FuncToHttpFactory(h, errorHandler)
  }

  /** The error sink is called exactly once when the handler returns an error and a sink is given, never otherwise. */
  lemma ErrorSinkCalledIffError(h: Handler, errorHandler: Option<ErrorSink>, c: Exchange, x: Exchange)
    requires h(Exchange(c.r, x.s)).Returned?
    ensures var out := h(Exchange(c.r, x.s));
      var served := FuncToHttpFactory(h, errorHandler)(c)(x);
      served.Served? &&
      served.s.effects == out.s.effects +
        (if out.err.Some? && errorHandler.Some? then [errorHandler.value(out.err.value)] else [])
  {
  }

  /** With no error handler the error is dropped: the state is exactly what the handler left. */
  lemma NilErrorHandlerDrops(h: Handler, c: Exchange, x: Exchange)
    requires h(Exchange(c.r, x.s)).Returned?
    ensures FuncToHttpFactory(h, None)(c)(x) == Served(h(Exchange(c.r, x.s)).s)
  {
  }

  /** FuncFromHttp: runs the http handler on the context's writer and request; the error is always nil. */
  function FuncFromHttp(h: HttpHandler): Handler {
    (x: Exchange) =>
      match h(x)
      case Served(s) => Returned(s, None)
      case Aborted(s, v) => Panicked(s, v)
  }

  /** FuncFromHttpRecoverable: a panic of the http handler becomes the returned error. */
  function FuncFromHttpRecoverable(h: HttpHandler): Handler {
    (x: Exchange) =>
      match h(x)
      case Served(s) => Returned(s, None)
      case Aborted(s, v) => Returned(s, Some(Recovered(v)))
  }

  function FromHttp(h: HttpHandler): Handler {
    FuncFromHttp(h)
  }

  function FromHttpRecoverable(h: HttpHandler): Handler {
    FuncFromHttpRecoverable(h)
  }

  /** A handler made from an http handler never returns an error; it returns or panics. */
  lemma FromHttpNeverErrs(h: HttpHandler, x: Exchange)
    ensures FromHttp(h)(x).Returned? ==> FromHttp(h)(x).err.None?
    ensures FromHttp(h)(x).State() == h(x).s
  {
  }

  /** The recoverable variant never panics, and returns an error exactly when the http handler panicked. */
  lemma FromHttpRecoverableNeverPanics(h: HttpHandler, x: Exchange)
    ensures FromHttpRecoverable(h)(x).Returned?
    ensures FromHttpRecoverable(h)(x).err.Some? <==> h(x).Aborted?
  {
  }
}
