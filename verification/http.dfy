/**
 * The request/response world that handlers and middlewares act on.
 *
 * A handler runs on an exchange: the request (a value; Go handlers that change it copy it first)
 * and the state that Go shares by reference during one request — the response writer, the
 * per-request context record and the observable side effects (log records, error-sink calls,
 * markers). A handler returns the new shared state and an error, or panics.
 */
module Http {
  import opened Wrappers
  import LogCore

  type Header = map<string, seq<string>>

  /** http.Header.Get: the first value, or "". */
  function HeaderGet(h: Header, key: string): string {
    if key in h && |h[key]| > 0 then h[key][0] else ""
  }

  /** http.Header.Set: replaces all values of the key by one. */
  function HeaderSet(h: Header, key: string, value: string): (r: Header)
    ensures r.Keys == h.Keys + {key} && r[key] == [value]
    ensures forall k :: k in h && k != key ==> r[k] == h[k]
  {
    h[key := [value]]
  }

  datatype Url = Url(scheme: string, host: string, path: string, rawQuery: string)

  /** An inbound request (`verb` is its method); `stripped` is the stripped-prefix list attached to its context, if any. */
  datatype Request = Request(
    verb: string,
    host: string,
    url: Url,
    header: Header,
    requestUri: string,
    remoteAddr: string,
    stripped: Option<seq<string>>)

  function WithPath(r: Request, path: string): (r2: Request)
    ensures r2.url.path == path
  {
    r.(url := r.url.(path := path))
  }

  /** What has been written into the response body. */
  datatype Chunk =
    | HeaderText(h: Header)       // http.Header.Write(w): the header's wire form written as body text
    | Content(name: string)       // http.ServeContent of a file
    | Message(text: string)       // http.Error and similar plain-text bodies

  /**
   * The response writer. `tracking` says whether it is the status-tracking writer
   * (writer.ResponseWriter); `status` is the status sent, fixed by the first WriteHeader
   * (later calls are ignored, as net/http does); `statusCalls` records every WriteHeader call.
   */
  datatype Writer = Writer(
    tracking: bool,
    hijacked: bool,
    status: Option<int>,
    statusCalls: seq<int>,
    header: Header,
    body: seq<Chunk>,
    bytesWritten: nat)

  predicate IsStatusWritten(w: Writer) {
    w.status.Some?
  }

  /** ResponseWriter.WriteHeader. */
  function WriteHeader(w: Writer, code: int): (r: Writer)
    ensures r.statusCalls == w.statusCalls + [code]
    ensures r.status == if w.status.None? then Some(code) else w.status
    ensures r.header == w.header && r.body == w.body
  {
    w.(status := if w.status.None? then Some(code) else w.status, statusCalls := w.statusCalls + [code])
  }

  /** ResponseWriter.Write: a body write sends status 200 first if no status was written. */
  function WriteBody(w: Writer, c: Chunk): (r: Writer)
    ensures r.body == w.body + [c]
    ensures r.status == if w.status.None? then Some(200) else w.status
  {
    w.(status := if w.status.None? then Some(200) else w.status, body := w.body + [c])
  }

  /** A 16-byte UUID. */
  type Uuid = seq<bv8>

  const ZeroUuid: Uuid := seq(16, _ => 0 as bv8)

  /** The per-request record (http/reqcontext): request id, request logger, recorded panic stacks. */
  datatype RequestContext = RequestContext(requestId: Uuid, logger: LogCore.Logger, errorStacks: seq<seq<bv8>>)

  /** The errors handlers return. */
  datatype Error =
    | HttpError(code: int, headers: Header, message: string, cause: Option<Error>)
    | PlainError(message: string)
    | Recovered(value: string)           // mchain.RecoverIntoError applied to a panic value

  datatype Effect =
    | Mark(tag: string)                  // an observable step of a handler
    | Sunk(e: Error)                     // an error handed to an error sink
    | Logged(rec: LogCore.Record)        // a record handed to a logger's sink

  datatype Shared = Shared(w: Writer, ctx: Option<RequestContext>, effects: seq<Effect>)

  /** The pair (w, r) of an mchain handler, or the Context of a neo handler. */
  datatype Exchange = Exchange(r: Request, s: Shared)

  datatype Outcome =
    | Returned(s: Shared, err: Option<Error>)
    | Panicked(s: Shared, value: string)
  {
    function State(): Shared {
      match this
      case Returned(s, _) => s
      case Panicked(s, _) => s
    }
  }

  type Handler = Exchange -> Outcome
  type Middleware = Handler -> Handler
  type ErrorSink = Error -> Effect

  /** An http.Handler: no error result, but it may panic. */
  datatype Served = Served(s: Shared) | Aborted(s: Shared, value: string)
  type HttpHandler = Exchange -> Served

  function Run(h: Handler, r: Request, s: Shared): Outcome {
    h(Exchange(r, s))
  }

  function Emit(s: Shared, e: Effect): Shared {
    s.(effects := s.effects + [e])
  }

  function EmitAll(s: Shared, es: seq<Effect>): Shared {
    s.(effects := s.effects + es)
  }

  function SetWriter(s: Shared, w: Writer): Shared {
    s.(w := w)
  }

  /**
   * http.Redirect / http.RedirectHandler: the Location header, then the status. The resolution of
   * a relative target against the request path and the short HTML body are not modelled.
   */
  function Redirect(w: Writer, url: string, code: int): (r: Writer)
    ensures HeaderGet(r.header, "Location") == url
    ensures r.statusCalls == w.statusCalls + [code]
    ensures r.status == if w.status.None? then Some(code) else w.status
  {
    WriteHeader(w.(header := HeaderSet(w.header, "Location", url)), code)
  }

  /** http.Error: plain-text content headers, the status, then the message as the body. */
  function ErrorReply(w: Writer, msg: string, code: int): (r: Writer)
    ensures HeaderGet(r.header, "Content-Type") == "text/plain; charset=utf-8"
    ensures HeaderGet(r.header, "X-Content-Type-Options") == "nosniff"
    ensures r.statusCalls == w.statusCalls + [code] && r.body == w.body + [Message(msg)]
    ensures r.status == if w.status.None? then Some(code) else w.status
  {
    var h := HeaderSet(HeaderSet(w.header, "Content-Type", "text/plain; charset=utf-8"), "X-Content-Type-Options", "nosniff");
    WriteBody(WriteHeader(w.(header := h), code), Message(msg))
  }

  /** The (done, err) pair of the prefix helpers: Skipped is (false, nil) with nothing run. */
  datatype PrefixRun = Skipped | Ran(out: Outcome)
  {
    /** The outcome of a handler that discards the done flag: nil error and no change when skipped. */
    function Discard(s: Shared): (o: Outcome)
      ensures Skipped? ==> o == Returned(s, None)
      ensures Ran? ==> o == out
    {
      if Skipped? then Returned(s, None) else out
    }
  }

  /** http.Header.Write(w): the header's wire form written into the body; nothing for an empty header. */
  function WriteHeaderText(w: Writer, h: Header): (r: Writer)
    ensures h == map[] ==> r == w
    ensures h != map[] ==> r == WriteBody(w, HeaderText(h))
  {
    if h == map[] then w else WriteBody(w, HeaderText(h))
  }
}
