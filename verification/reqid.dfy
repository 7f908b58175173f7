/**
 * Request-id middlewares (http/middleware/reqid.go). Both read the per-request context (a
 * missing context makes the type assertion of reqcontext.FromRequest panic), give the request an
 * id and add a "reqid" field to the request logger, or reject the request with a 400 error.
 * UUID generation and parsing are parameters: newId gives the fresh random id of a request,
 * parse is uuid.Parse.
 */
module RequestId {
  import opened Wrappers
  import opened Http
  import LogCore

  const RequestIDHeaderKey: string := "X-Request-Id"

  const IllegalHeaderMessage: string := "illegal header (X-Request-Id)"
  const MalformedHeaderMessage: string := "malformed header (X-Request-Id)"

  /** The result of requestIDParseFromHeaders. */
  datatype HeaderParse =
    | NotPresent                  // (false, nil)
    | Adopted(id: Uuid)           // (true, nil), the target holding the parsed id
    | ParseError(cause: string)   // (false, err)
    | EmptyValues                 // the header key is present with no value: idStr[0] panics

  /** requestIDParseFromHeaders: only the first value of the header is parsed. */
  function ParseFromHeaders(h: Header, parse: string -> Result<Uuid, string>): (p: HeaderParse)
    ensures RequestIDHeaderKey !in h <==> p == NotPresent
    ensures RequestIDHeaderKey in h && |h[RequestIDHeaderKey]| == 0 ==> p == EmptyValues
    ensures RequestIDHeaderKey in h && |h[RequestIDHeaderKey]| > 0 ==>
      (p.Adopted? <==> parse(h[RequestIDHeaderKey][0]).Success?) &&
      (p.Adopted? ==> p.id == parse(h[RequestIDHeaderKey][0]).value) &&
      (p.ParseError? ==> p.cause == parse(h[RequestIDHeaderKey][0]).error)
  {
    if RequestIDHeaderKey in h then
      var idStr := h[RequestIDHeaderKey];
      if |idStr| == 0 then EmptyValues
      else
        match parse(idStr[0])
        case Success(id) => Adopted(id)
        case Failure(err) => ParseError(err)
    else NotPresent
  }

  /** Headers with the same first X-Request-Id value parse alike, whatever their other values. */
  lemma OnlyFirstValueParsed(h1: Header, h2: Header, parse: string -> Result<Uuid, string>)
    requires RequestIDHeaderKey in h1 && RequestIDHeaderKey in h2
    requires |h1[RequestIDHeaderKey]| > 0 && |h2[RequestIDHeaderKey]| > 0
    requires h1[RequestIDHeaderKey][0] == h2[RequestIDHeaderKey][0]
    ensures ParseFromHeaders(h1, parse) == ParseFromHeaders(h2, parse)
  {
  }

  /** The context with the id set and the logger extended with the "reqid" field. */
  function WithRequestId(c: RequestContext, id: Uuid): (c2: RequestContext)
    ensures c2.requestId == id && c2.errorStacks == c.errorStacks
    ensures c2.logger == LogCore.With(c.logger, "reqid", LogCore.Uuid(id))
  {
    c.(requestId := id, logger := LogCore.With(c.logger, "reqid", LogCore.Uuid(id)))
  }

  /** requestIDInitOrFailHandler: any X-Request-Id header is illegal; otherwise a fresh id. */
  function InitOrFailHandler(r: Request, c: RequestContext, freshId: Uuid): (res: Result<RequestContext, Error>)
    ensures RequestIDHeaderKey in r.header <==> res.Failure?
    ensures res.Failure? ==> res.error == HttpError(400, map[], IllegalHeaderMessage, None)
    ensures res.Success? ==> res.value == WithRequestId(c, freshId)
  {
    if RequestIDHeaderKey in r.header then Failure(HttpError(400, map[], IllegalHeaderMessage, None))
    else Success(WithRequestId(c, freshId))
  }

  /**
   * requestIDInitOrReuseHandler: a header that parses is adopted, an absent one gives a fresh id,
   * a malformed one is a 400 error carrying the parse error as its cause.
   */
  function InitOrReuseHandler(r: Request, c: RequestContext, freshId: Uuid, parse: string -> Result<Uuid, string>)
    : (res: Option<Result<RequestContext, Error>>)
    ensures res.None? <==> ParseFromHeaders(r.header, parse).EmptyValues?
    ensures ParseFromHeaders(r.header, parse).Adopted? ==> res == Some(Success(WithRequestId(c, ParseFromHeaders(r.header, parse).id)))
    ensures ParseFromHeaders(r.header, parse).NotPresent? ==> res == Some(Success(WithRequestId(c, freshId)))
    ensures ParseFromHeaders(r.header, parse).ParseError? ==>
      res == Some(Failure(HttpError(400, map[], MalformedHeaderMessage, Some(PlainError(ParseFromHeaders(r.header, parse).cause)))))
  {
    match ParseFromHeaders(r.header, parse)
    case EmptyValues => None
    case ParseError(cause) => Some(Failure(HttpError(400, map[], MalformedHeaderMessage, Some(PlainError(cause)))))
    case NotPresent => Some(Success(WithRequestId(c, freshId)))
    case Adopted(id) => Some(Success(WithRequestId(c, id)))
  }

  /** requestIDInitOrFailMiddleware. */
  function InitOrFailMiddleware(newId: Exchange -> Uuid): Middleware {
    (next: Handler) => (x: Exchange) =>
      if x.s.ctx.None? then Panicked(x.s, "request context missing")
      else
        match InitOrFailHandler(x.r, x.s.ctx.value, newId(x))
        case Failure(e) => Returned(x.s, Some(e))
        case Success(c) => next(Exchange(x.r, x.s.(ctx := Some(c))))
  }

  /** requestIDInitOrReuseMiddleware. */
  function InitOrReuseMiddleware(newId: Exchange -> Uuid, parse: string -> Result<Uuid, string>): Middleware {
    (next: Handler) => (x: Exchange) =>
      if x.s.ctx.None? then Panicked(x.s, "request context missing")
      else
        match InitOrReuseHandler(x.r, x.s.ctx.value, newId(x), parse)
        case None => Panicked(x.s, "index out of range")
        case Some(Failure(e)) => Returned(x.s, Some(e))
        case Some(Success(c)) => next(Exchange(x.r, x.s.(ctx := Some(c))))
  }

  /** RequestIDMiddleware: true selects init-or-reuse, false init-or-fail. */
  function RequestIDMiddleware(reuseUpstreamID: bool, newId: Exchange -> Uuid, parse: string -> Result<Uuid, string>): (m: Middleware)
    ensures reuseUpstreamID ==> m == InitOrReuseMiddleware(newId, parse)
    ensures !reuseUpstreamID ==> m == InitOrFailMiddleware(newId)
  {
    if reuseUpstreamID then InitOrReuseMiddleware(newId, parse) else InitOrFailMiddleware(newId)
  }

  /**
   * Init-or-fail: a request carrying the header is answered with the 400 error, the shared state
   * (context included) unchanged, and next is not invoked; any other request reaches next with
   * a fresh id and the "reqid" logger field.
   */
  lemma InitOrFailRules(newId: Exchange -> Uuid, next1: Handler, next2: Handler, x: Exchange)
    requires x.s.ctx.Some?
    ensures RequestIDHeaderKey in x.r.header ==>
      InitOrFailMiddleware(newId)(next1)(x) == Returned(x.s, Some(HttpError(400, map[], IllegalHeaderMessage, None))) &&
      InitOrFailMiddleware(newId)(next1)(x) == InitOrFailMiddleware(newId)(next2)(x)
    ensures RequestIDHeaderKey !in x.r.header ==>
      InitOrFailMiddleware(newId)(next1)(x) == next1(Exchange(x.r, x.s.(ctx := Some(WithRequestId(x.s.ctx.value, newId(x))))))
  {
  }

  /**
   * Init-or-reuse: a parsed header id is adopted, an absent header gives a fresh id, a malformed
   * header is rejected with its cause and the state unchanged, without invoking next.
   */
  lemma InitOrReuseRules(newId: Exchange -> Uuid, parse: string -> Result<Uuid, string>, next: Handler, x: Exchange)
    requires x.s.ctx.Some?
    ensures RequestIDHeaderKey !in x.r.header ==>
      InitOrReuseMiddleware(newId, parse)(next)(x) == next(Exchange(x.r, x.s.(ctx := Some(WithRequestId(x.s.ctx.value, newId(x))))))
    ensures RequestIDHeaderKey in x.r.header && |x.r.header[RequestIDHeaderKey]| > 0 ==>
      var idStr := x.r.header[RequestIDHeaderKey][0];
      (parse(idStr).Success? ==>
        InitOrReuseMiddleware(newId, parse)(next)(x) == next(Exchange(x.r, x.s.(ctx := Some(WithRequestId(x.s.ctx.value, parse(idStr).value)))))) &&
      (parse(idStr).Failure? ==>
        InitOrReuseMiddleware(newId, parse)(next)(x)
          == Returned(x.s, Some(HttpError(400, map[], MalformedHeaderMessage, Some(PlainError(parse(idStr).error))))))
  {
  }

  /** Without a request context both middlewares panic before anything else. */
  lemma MissingContextPanics(reuse: bool, newId: Exchange -> Uuid, parse: string -> Result<Uuid, string>, next: Handler, x: Exchange)
    requires x.s.ctx.None?
    ensures RequestIDMiddleware(reuse, newId, parse)(next)(x) == Panicked(x.s, "request context missing")
  {
  }
}
