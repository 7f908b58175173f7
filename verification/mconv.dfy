/** Conversions between middleware shapes (app/neo/mconv/mconv.go). */
module MiddlewareConv {
  import opened Wrappers
  import opened Http
  import HandlerConv

  /** A neo.SimpleMiddleware: a function of the context and the next handler. */
  type SimpleMiddleware = (Exchange, Handler) -> Outcome

  function FromSimple(fn: SimpleMiddleware): Middleware {
    (next: Handler) => (c: Exchange) => fn(c, next)
  }

  function ToSimple(m: Middleware): SimpleMiddleware {
    (c: Exchange, next: Handler) => m(next)(c)
  }

  /** FromSimple(fn)(next) runs fn with that next handler; ToSimple(m) runs m(next). */
  lemma SimpleConversions(fn: SimpleMiddleware, m: Middleware, next: Handler, c: Exchange)
    ensures FromSimple(fn)(next)(c) == fn(c, next)
    ensures ToSimple(m)(c, next) == m(next)(c)
    ensures ToSimple(FromSimple(fn))(c, next) == fn(c, next)
    ensures FromSimple(ToSimple(m))(next)(c) == m(next)(c)
  {
  }

  /**
   * FromHttp: an http middleware as a neo middleware. The next neo handler is adapted with
   * ToHttpFactory (its errors go to innerErrorHandler); the result is always a nil error.
   */
  function FromHttp(h: HttpHandler -> HttpHandler, innerErrorHandler: Option<ErrorSink>): Middleware {
    (hx: Handler) => (c: Exchange) =>
      match h(HandlerConv.ToHttpFactory(hx, innerErrorHandler)(c))(c)
      case Served(s) => Returned(s, None)
      case Aborted(s, v) => Panicked(s, v)
  }

  /** FromHttpRecoverable: as FromHttp, with a panic turned into the returned error. */
  function FromHttpRecoverable(h: HttpHandler -> HttpHandler, innerErrorHandler: Option<ErrorSink>): Middleware {
    (hx: Handler) => (c: Exchange) =>
      match h(HandlerConv.ToHttpFactory(hx, innerErrorHandler)(c))(c)
      case Served(s) => Returned(s, None)
      case Aborted(s, v) => Returned(s, Some(Recovered(v)))
  }

  /** The errors of the wrapped neo chain never reach the caller of a FromHttp middleware. */
  lemma FromHttpHidesErrors(h: HttpHandler -> HttpHandler, eh: Option<ErrorSink>, next: Handler, c: Exchange)
    ensures FromHttp(h, eh)(next)(c).Returned? ==> FromHttp(h, eh)(next)(c).err.None?
    ensures FromHttpRecoverable(h, eh)(next)(c).Returned?
  {
  }
}
