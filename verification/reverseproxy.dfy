/**
 * Reverse-proxy directors (http/reverseproxy/reverseproxy.go). A director rewrites the outgoing
 * request in place; here it returns the rewritten request. The proxying itself
 * (httputil.ReverseProxy) is not part of this model.
 */
module ReverseProxy {
  import opened GoStrings
  import opened Http

  /** singleJoiningSlash: joins a and b with one '/' where both or neither side has one; otherwise plain a + b. */
  function SingleJoiningSlash(a: string, b: string): (r: string)
    ensures HasSuffix(a, "/") && HasPrefix(b, "/") ==> r == a + b[1..]
    ensures !HasSuffix(a, "/") && !HasPrefix(b, "/") ==> r == a + "/" + b
    ensures HasSuffix(a, "/") != HasPrefix(b, "/") ==> r == a + b
  {
    var aslash := HasSuffix(a, "/");
    var bslash := HasPrefix(b, "/");
    if aslash && bslash then a + b[1..]
    else if !aslash && !bslash then a + "/" + b
    else a + b
  }

  /**
   * In every case the seam holds exactly the one slash: the result is a without its trailing
   * slash, "/", and b without its leading slash. The result always starts with a.
   */
  lemma JoinSeam(a: string, b: string)
    ensures SingleJoiningSlash(a, b) == TrimSuffix(a, "/") + "/" + TrimPrefix(b, "/")
    ensures HasPrefix(SingleJoiningSlash(a, b), a)
  {
    var r := SingleJoiningSlash(a, b);
    if HasSuffix(a, "/") {
      assert TrimSuffix(a, "/") + "/" == a;
    }
    if HasPrefix(b, "/") {
      assert "/" + TrimPrefix(b, "/") == b;
    }
    assert TrimSuffix(a, "/") + "/" + TrimPrefix(b, "/") == TrimSuffix(a, "/") + ("/" + TrimPrefix(b, "/"));
    assert r[..|a|] == a;
  }

  /** appendQueryIfNeeded: the two queries joined with "&" when both are non-empty, else concatenated. */
  function AppendQuery(targetRawQuery: string, reqRawQuery: string): (q: string)
    ensures targetRawQuery == "" ==> q == reqRawQuery
    ensures reqRawQuery == "" ==> q == targetRawQuery
    ensures targetRawQuery != "" && reqRawQuery != "" ==> q == targetRawQuery + "&" + reqRawQuery
  {
    if targetRawQuery == "" || reqRawQuery == "" then targetRawQuery + reqRawQuery
    else targetRawQuery + "&" + reqRawQuery
  }

  function AppendQueryIfNeeded(req: Request, targetRawQuery: string): Request {
    req.(url := req.url.(rawQuery := AppendQuery(targetRawQuery, req.url.rawQuery)))
  }

  /** clearUserAgentIfNotValid: an absent User-Agent is set to "" (so no default is sent); a present one is kept. */
  function ClearUserAgentIfNotValid(req: Request): (r: Request)
    ensures "User-Agent" in r.header
    ensures "User-Agent" in req.header ==> r == req
    ensures "User-Agent" !in req.header ==> r.header == req.header["User-Agent" := [""]] && r.url == req.url && r.host == req.host
  {
    if "User-Agent" in req.header then req else req.(header := HeaderSet(req.header, "User-Agent", ""))
  }

  /** The director of NewURLProxy: scheme and host of the target, the joined path, the merged query. */
  function URLDirector(target: Url, req: Request): (r: Request)
    ensures r.url.scheme == target.scheme && r.url.host == target.host
    ensures r.url.path == SingleJoiningSlash(target.path, req.url.path)
    ensures r.url.rawQuery == AppendQuery(target.rawQuery, req.url.rawQuery)
    ensures r.host == req.host && r.verb == req.verb
    ensures r.requestUri == req.requestUri && r.remoteAddr == req.remoteAddr && r.stripped == req.stripped
    ensures r.header.Keys == req.header.Keys + {"User-Agent"}
    ensures forall k :: k in req.header ==> r.header[k] == req.header[k]
    ensures "User-Agent" !in req.header ==> r.header["User-Agent"] == [""]
  {
    var r1 := req.(url := req.url.(scheme := target.scheme, host := target.host,
                                   path := SingleJoiningSlash(target.path, req.url.path)));
    ClearUserAgentIfNotValid(AppendQueryIfNeeded(r1, target.rawQuery))
  }

  /**
   * The director of NewHostProxy: forceHttp sets the scheme to "http"; replaceHostHeader moves the
   * old Host into X-Forwarded-Host and sets Host to the target host; otherwise URL.Host takes the
   * request's Host.
   */
  function HostDirector(host: string, forceHttp: bool, replaceHostHeader: bool, req: Request): (r: Request)
    ensures forceHttp ==> r.url.scheme == "http"
    ensures !forceHttp ==> r.url.scheme == req.url.scheme
    ensures replaceHostHeader ==> r.host == host && HeaderGet(r.header, "X-Forwarded-Host") == req.host && r.url.host == req.url.host
    ensures !replaceHostHeader ==> r.host == req.host && r.url.host == req.host
    ensures r.url.path == req.url.path && r.url.rawQuery == req.url.rawQuery
    ensures r.verb == req.verb && r.requestUri == req.requestUri && r.remoteAddr == req.remoteAddr && r.stripped == req.stripped
    ensures r.header.Keys == req.header.Keys + {"User-Agent"} + (if replaceHostHeader then {"X-Forwarded-Host"} else {})
    ensures replaceHostHeader ==> r.header["X-Forwarded-Host"] == [req.host]
    ensures forall k :: k in req.header && !(replaceHostHeader && k == "X-Forwarded-Host") ==> r.header[k] == req.header[k]
    ensures "User-Agent" !in req.header ==> r.header["User-Agent"] == [""]
  {
    var r1 := if forceHttp then req.(url := req.url.(scheme := "http")) else req;
    var r2 := if replaceHostHeader then r1.(header := HeaderSet(r1.header, "X-Forwarded-Host", r1.host), host := host)
              else r1.(url := r1.url.(host := r1.host));
    ClearUserAgentIfNotValid(r2)
  }
}
