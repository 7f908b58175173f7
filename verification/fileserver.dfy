/**
 * The file server of http/fileserver/fileserver.go: path checks, the redirect and index.html
 * decisions of serveFile, the If-Modified-Since precondition (section 3.3 of RFC 7232) and the
 * 304 header rules (section 4.1 of RFC 7232).
 *
 * The file system is a parameter: opening a name either fails or gives a file whose Stat fails
 * or gives its FileInfo. Times are Unix nanoseconds. path.Clean, http.ParseTime, the
 * time-to-text formatting of Last-Modified and UnsafeRedirectPath are parameters too.
 */
module FileServer {
  import opened Wrappers
  import opened GoStrings
  import opened Http

  datatype FileInfo = FileInfo(name: string, isDir: bool, modTime: int)

  /** What fs.Open(name) gives: an error, or a file whose Stat gives its info or an error. */
  datatype Opened = OpenFailed(cause: string) | Opened(stat: Result<FileInfo, string>)

  type FileSystem = string -> Opened

  const IndexPage: string := "/index.html"

  // ---------------------------------------------------------------------------------------------
  // Path helpers

  predicate IsSlashRune(c: char) {
    c == '/' || c == '\\'
  }

  /** strings.FieldsFunc(v, isSlashRune), with `cur` the field read so far: the maximal runs of non-slashes. */
  function FieldsFrom(v: string, cur: string): seq<string>
    decreases |v|
  {
    if |v| == 0 then (if cur == "" then [] else [cur])
    else if IsSlashRune(v[0]) then (if cur == "" then [] else [cur]) + FieldsFrom(v[1..], "")
    else FieldsFrom(v[1..], cur + [v[0]])
  }

  function Fields(v: string): seq<string> {
    FieldsFrom(v, "")
  }

  /** ContainsDotDot: true when some '/'- or '\'-separated segment is "..". */
  predicate ContainsDotDot(v: string) {
    Contains(v, "..") && ".." in Fields(v)
  }

  /** Every field is a piece of the text it was cut from. */
  lemma {:induction false} FieldOccurs(v: string, cur: string, f: string) returns (i: nat)
    requires f in FieldsFrom(v, cur)
    ensures i + |f| <= |cur + v| && (cur + v)[i..i + |f|] == f
    decreases |v|
  {
    if |v| == 0 {
      i := 0;
      assert f == cur;
    } else if IsSlashRune(v[0]) {
      if cur != "" && f == cur {
        i := 0;
      } else {
        var j := FieldOccurs(v[1..], "", f);
        i := |cur| + 1 + j;
        assert ("" + v[1..]) == v[1..];
        assert (cur + v)[i..i + |f|] == v[1..][j..j + |f|];
      }
    } else {
      i := FieldOccurs(v[1..], cur + [v[0]], f);
      assert (cur + [v[0]]) + v[1..] == cur + v;
    }
  }

  lemma ContainsAt(s: string, i: nat, sub: string)
    requires i + |sub| <= |s| && s[i..i + |sub|] == sub
    ensures Contains(s, sub)
  {
    assert HasPrefix(s[i..], sub);
    assert Contains(s[i..], sub);
    ContainsInLonger(s, i, sub);
  }

  /** The substring pre-check never changes the answer: a ".." segment is a ".." substring. */
  lemma ContainsDotDotIffSegment(v: string)
    ensures ContainsDotDot(v) <==> ".." in Fields(v)
    ensures !Contains(v, "..") ==> !ContainsDotDot(v)
  {
    if ".." in Fields(v) {
      var i := FieldOccurs(v, "", "..");
      assert "" + v == v;
      ContainsAt(v, i, "..");
    }
  }

  /** The final element of a '/'-separated path (path.Base). */
  function TrimTrailingSlashes(p: string): (q: string)
    ensures |q| <= |p| && q == p[..|q|]
    ensures |q| > 0 ==> q[|q| - 1] != '/'
  {
    if |p| > 0 && p[|p| - 1] == '/' then TrimTrailingSlashes(p[..|p| - 1]) else p
  }

  /** The index of the last '/', or -1. */
  function LastSlash(p: string): (i: int)
    ensures -1 <= i < |p|
    ensures 0 <= i ==> p[i] == '/'
    ensures forall k :: i < k < |p| ==> p[k] != '/'
  {
    if |p| == 0 then -1 else if p[|p| - 1] == '/' then |p| - 1 else LastSlash(p[..|p| - 1])
  }

  /** path.Base: "." for "", "/" for a path of slashes, otherwise the last element. */
  function Base(p: string): (b: string)
    ensures p == "" ==> b == "."
    ensures p != "" && TrimTrailingSlashes(p) == "" ==> b == "/"
    ensures TrimTrailingSlashes(p) != "" ==> |b| > 0 && '/' !in b
  {
    if p == "" then "."
    else
      var q := TrimTrailingSlashes(p);
      if q == "" then "/" else q[LastSlash(q) + 1..]
  }

  /** filepath.Split: everything up to and including the last '/', and the rest. */
  function SplitPath(name: string): (parts: (string, string))
    ensures parts.0 + parts.1 == name
    ensures '/' !in parts.1
    ensures parts.0 == "" || parts.0[|parts.0| - 1] == '/'
  {
    var i := LastSlash(name);
    SplitAt(name, i);
    (name[..i + 1], name[i + 1..])
  }

  /** Cutting just after the last '/' leaves no '/' in the tail. */
  lemma SplitAt(name: string, i: int)
    requires -1 <= i < |name|
    requires forall k :: i < k < |name| ==> name[k] != '/'
    requires 0 <= i ==> name[i] == '/'
    ensures name[..i + 1] + name[i + 1..] == name
    ensures '/' !in name[i + 1..]
    ensures i >= 0 ==> name[..i + 1][i] == '/'
  {
    var file := name[i + 1..];
    forall k | 0 <= k < |file|
      ensures file[k] != '/'
    {
      assert file[k] == name[i + 1 + k];
    }
  }

  // ---------------------------------------------------------------------------------------------
  // Errors

  datatype ErrKind = ErrBadRequest | ErrRedirect | ErrFsOpen | ErrFsStat | ErrDirFound

  /** The file server's *Err: its kind, status hint, message, path name, cause, headers and directory. */
  datatype FsError = FsError(
    kind: ErrKind,
    statusHint: int,
    message: string,
    pathname: string,
    cause: Option<string>,
    headers: Header,
    dirstat: Option<FileInfo>)

  function NewErr(statusHint: int, kind: ErrKind, message: string, pathname: string, cause: Option<string>): (e: FsError)
    ensures e.kind == kind && e.statusHint == statusHint && e.headers == map[] && e.dirstat.None?
  {
    FsError(kind, statusHint, message, pathname, cause, map[], None)
  }

  /** newErrDirFound: 403, "dir found", carrying the directory's info. */
  function NewErrDirFound(pathname: string, dirstat: FileInfo): (e: FsError)
    ensures e.kind == ErrDirFound && e.statusHint == 403 && e.dirstat == Some(dirstat)
  {
    NewErr(403, ErrDirFound, "dir found", pathname, None).(dirstat := Some(dirstat))
  }

  /** newErrRedirect: 301 with the Location header set to the redirect path. */
  function NewErrRedirect(location: string, pathname: string): (e: FsError)
    ensures e.kind == ErrRedirect && e.statusHint == 301
    ensures e.headers == map["Location" := [location]]
  {
    var e := NewErr(301, ErrRedirect, "", pathname, None);
    e.(headers := HeaderSet(e.headers, "Location", location))
  }

  // ---------------------------------------------------------------------------------------------
  // serveFile

  /**
   * The decision of serveFile for URL path urlPath and file name `name`: the file to hand to
   * http.ServeContent, or the error. redirectPath(location) is UnsafeRedirectPath(r, location).
   * With redirect set the URL path is non-empty (it always begins with "/" there).
   */
  function ServeFileDecision(fs: FileSystem, urlPath: string, name: string, redirect: bool,
                             redirectPath: string -> string): Result<FileInfo, FsError>
    requires redirect ==> |urlPath| > 0
  {
    match fs(name)
    case OpenFailed(cause) => Failure(NewErr(404, ErrFsOpen, "", name, Some(cause)))
    case Opened(Failure(cause)) => Failure(NewErr(500, ErrFsStat, "", name, Some(cause)))
    case Opened(Success(stat)) =>
      if HasSuffix(urlPath, IndexPage) then Failure(NewErrRedirect(redirectPath("./"), name))
      else if redirect && stat.isDir && urlPath[|urlPath| - 1] != '/' then
        Failure(NewErrRedirect(redirectPath(Base(urlPath) + "/"), name))
      else if redirect && !stat.isDir && urlPath[|urlPath| - 1] == '/' then
        Failure(NewErrRedirect(redirectPath("../" + Base(urlPath)), name))
      else if stat.isDir then
        var index := TrimSuffix(name, "/") + IndexPage;
        match fs(index)
        case Opened(Success(dd)) =>
          if dd.isDir then Failure(NewErrDirFound(index, dd)) else Success(dd)
        case _ => Failure(NewErrDirFound(name, stat))
      else Success(stat)
  }

  /** Failures to open or stat come first, with 404 and 500; nothing else is looked at. */
  lemma ServeFileFsErrors(fs: FileSystem, urlPath: string, name: string, redirect: bool, redirectPath: string -> string)
    requires redirect ==> |urlPath| > 0
    ensures fs(name).OpenFailed? ==>
      ServeFileDecision(fs, urlPath, name, redirect, redirectPath) == Failure(NewErr(404, ErrFsOpen, "", name, Some(fs(name).cause)))
    ensures fs(name).Opened? && fs(name).stat.Failure? ==>
      ServeFileDecision(fs, urlPath, name, redirect, redirectPath) == Failure(NewErr(500, ErrFsStat, "", name, Some(fs(name).stat.error)))
  {
  }

  /** A URL ending in "/index.html" is redirected to "./" once the file opened and stat'ed. */
  lemma ServeFileIndexRedirect(fs: FileSystem, urlPath: string, name: string, redirect: bool, redirectPath: string -> string)
    requires redirect ==> |urlPath| > 0
    requires HasSuffix(urlPath, IndexPage)
    ensures fs(name).Opened? && fs(name).stat.Success? ==>
      ServeFileDecision(fs, urlPath, name, redirect, redirectPath) == Failure(NewErrRedirect(redirectPath("./"), name))
    ensures fs(name).OpenFailed? ==> ServeFileDecision(fs, urlPath, name, redirect, redirectPath).error.kind == ErrFsOpen
  {
  }

  /**
   * With redirect on, the URL is made canonical: a directory without a trailing slash goes to
   * Base + "/", a file with one goes to "../" + Base.
   */
  lemma ServeFileCanonicalRedirects(fs: FileSystem, urlPath: string, name: string, redirectPath: string -> string)
    requires |urlPath| > 0 && !HasSuffix(urlPath, IndexPage)
    requires fs(name).Opened? && fs(name).stat.Success?
    ensures var stat := fs(name).stat.value;
      var d := ServeFileDecision(fs, urlPath, name, true, redirectPath);
      (stat.isDir && urlPath[|urlPath| - 1] != '/' ==> d == Failure(NewErrRedirect(redirectPath(Base(urlPath) + "/"), name))) &&
      (!stat.isDir && urlPath[|urlPath| - 1] == '/' ==> d == Failure(NewErrRedirect(redirectPath("../" + Base(urlPath)), name))) &&
      (!stat.isDir && urlPath[|urlPath| - 1] != '/' ==> d == Success(stat))
  {
  }

  /**
   * A directory (with its canonical URL, or with redirect off) is served through its index.html
   * when that opens and stats as a file, and is otherwise a 403 "dir found" error.
   */
  lemma ServeFileDirectory(fs: FileSystem, urlPath: string, name: string, redirect: bool, redirectPath: string -> string)
    requires redirect ==> |urlPath| > 0 && urlPath[|urlPath| - 1] == '/'
    requires !HasSuffix(urlPath, IndexPage)
    requires fs(name).Opened? && fs(name).stat.Success? && fs(name).stat.value.isDir
    ensures var index := TrimSuffix(name, "/") + IndexPage;
      var d := ServeFileDecision(fs, urlPath, name, redirect, redirectPath);
      (fs(index).Opened? && fs(index).stat.Success? && !fs(index).stat.value.isDir ==> d == Success(fs(index).stat.value)) &&
      (!(fs(index).Opened? && fs(index).stat.Success?) ==> d == Failure(NewErrDirFound(name, fs(name).stat.value)))
  {
  }

  /** Whatever is served is never a directory. */
  lemma ServedIsFile(fs: FileSystem, urlPath: string, name: string, redirect: bool, redirectPath: string -> string)
    requires redirect ==> |urlPath| > 0
    ensures ServeFileDecision(fs, urlPath, name, redirect, redirectPath).Success? ==>
      !ServeFileDecision(fs, urlPath, name, redirect, redirectPath).value.isDir
  {
  }

  // ---------------------------------------------------------------------------------------------
  // Conditional requests

  datatype CondResult = CondNone | CondTrue | CondFalse

  const NanosPerSecond: int := 1_000_000_000

  /** time.Time{} (January 1, year 1, UTC) in Unix nanoseconds. */
  const ZeroTime: int := -62135596800 * NanosPerSecond

  /** isZeroTime: the zero time or the Unix epoch. */
  predicate IsZeroTime(t: int) {
    t == ZeroTime || t == 0
  }

  /**
   * checkIfModifiedSince (section 3.3 of RFC 7232): only GET and HEAD with a non-empty, parseable
   * header and a known modification time are evaluated; the resource is unmodified (CondFalse)
   * when modtime < t + 1s, because the header has whole-second precision.
   */
  function CheckIfModifiedSince(verb: string, header: Header, modtime: int, parseTime: string -> Option<int>): (c: CondResult)
    ensures var ims := HeaderGet(header, "If-Modified-Since");
      (c == CondNone <==> (verb != "GET" && verb != "HEAD") || ims == "" || IsZeroTime(modtime) || parseTime(ims).None?) &&
      (c == CondFalse <==> (verb == "GET" || verb == "HEAD") && ims != "" && !IsZeroTime(modtime) &&
                           parseTime(ims).Some? && modtime < parseTime(ims).value + NanosPerSecond)
  {
    if verb != "GET" && verb != "HEAD" then CondNone
    else
      var ims := HeaderGet(header, "If-Modified-Since");
      if ims == "" || IsZeroTime(modtime) then CondNone
      else
        match parseTime(ims)
        case None => CondNone
        case Some(t) => if modtime < t + NanosPerSecond then CondFalse else CondTrue
  }

  /**
   * A modification time later than the header's second, but within that same second, still
   * counts as unmodified; one a full second later counts as modified.
   */
  lemma SubSecondPrecision(verb: string, header: Header, modtime: int, parseTime: string -> Option<int>)
    requires verb == "GET" && !IsZeroTime(modtime)
    requires HeaderGet(header, "If-Modified-Since") != ""
    requires parseTime(HeaderGet(header, "If-Modified-Since")).Some?
    ensures var t := parseTime(HeaderGet(header, "If-Modified-Since")).value;
      (t <= modtime < t + NanosPerSecond ==> CheckIfModifiedSince(verb, header, modtime, parseTime) == CondFalse) &&
      (modtime >= t + NanosPerSecond ==> CheckIfModifiedSince(verb, header, modtime, parseTime) == CondTrue)
  {
  }

  /**
   * writeNotModified (section 4.1 of RFC 7232): Content-Type and Content-Length are removed,
   * Last-Modified only when an Etag is present; then status 304.
   */
  function WriteNotModified(w: Writer): (r: Writer)
    ensures "Content-Type" !in r.header && "Content-Length" !in r.header
    ensures "Last-Modified" in r.header <==> "Last-Modified" in w.header && HeaderGet(w.header, "Etag") == ""
    ensures forall k :: k in w.header && k !in {"Content-Type", "Content-Length", "Last-Modified"} ==> k in r.header && r.header[k] == w.header[k]
    ensures r.header.Keys <= w.header.Keys
    ensures r.statusCalls == w.statusCalls + [304] && r.body == w.body
  {
    var h := w.header - {"Content-Type", "Content-Length"};
    var h := if HeaderGet(h, "Etag") != "" then h - {"Last-Modified"} else h;
    WriteHeader(w.(header := h), 304)
  }

  /**
   * HandleDirPrelude: an unmodified directory gets the 304 and the call is finished; otherwise
   * Last-Modified is set (formatTime renders the time in the HTTP format).
   */
  function HandleDirPrelude(r: Request, w: Writer, dirstat: FileInfo, parseTime: string -> Option<int>,
                            formatTime: int -> string): (res: (Writer, bool))
    ensures res.1 <==> CheckIfModifiedSince(r.verb, r.header, dirstat.modTime, parseTime) == CondFalse
    ensures res.1 ==> res.0 == WriteNotModified(w)
    ensures !res.1 ==> res.0 == w.(header := HeaderSet(w.header, "Last-Modified", formatTime(dirstat.modTime)))
  {
    if CheckIfModifiedSince(r.verb, r.header, dirstat.modTime, parseTime) == CondFalse then (WriteNotModified(w), true)
    else (w.(header := HeaderSet(w.header, "Last-Modified", formatTime(dirstat.modTime))), false)
  }

  // ---------------------------------------------------------------------------------------------
  // Entry points

  /** The request after ServeRequestPath/ServeFile, the writer, and the error returned. */
  datatype FileReply = FileReply(r: Request, w: Writer, err: Option<FsError>)

  /** http.ServeContent of the chosen file, or the error. */
  function Finish(r: Request, w: Writer, d: Result<FileInfo, FsError>): FileReply {
    match d
    case Success(info) => FileReply(r, WriteBody(w, Content(info.name)), None)
    case Failure(e) => FileReply(r, w, Some(e))
  }

  /** ServeRequestPath: a path without a leading "/" gets one, written back into the request. */
  function ServeRequestPath(r: Request, w: Writer, root: FileSystem, clean: string -> string,
                            redirectPath: string -> string): (res: FileReply)
    ensures HasPrefix(res.r.url.path, "/")
    ensures HasPrefix(r.url.path, "/") ==> res.r == r
    ensures !HasPrefix(r.url.path, "/") ==> res.r == WithPath(r, "/" + r.url.path)
    ensures res == Finish(res.r, w, ServeFileDecision(root, res.r.url.path, clean(res.r.url.path), true, redirectPath))
  {
    var upath := if HasPrefix(r.url.path, "/") then r.url.path else "/" + r.url.path;
    var r2 := if HasPrefix(r.url.path, "/") then r else WithPath(r, upath);
    Finish(r2, w, ServeFileDecision(root, upath, clean(upath), true, redirectPath))
  }

  /**
   * ServeFile: a request path with a ".." segment is a 400 "invalid URL path" before anything is
   * opened; otherwise the name is split and served from its directory (dirFs is http.Dir), with
   * redirect off.
   */
  function ServeFile(r: Request, w: Writer, name: string, dirFs: string -> FileSystem,
                     redirectPath: string -> string): (res: FileReply)
    ensures ContainsDotDot(r.url.path) ==>
      res == FileReply(r, w, Some(NewErr(400, ErrBadRequest, "invalid URL path", name, None)))
    ensures !ContainsDotDot(r.url.path) ==>
      res == Finish(r, w, ServeFileDecision(dirFs(SplitPath(name).0), r.url.path, SplitPath(name).1, false, redirectPath))
  {
    if ContainsDotDot(r.url.path) then FileReply(r, w, Some(NewErr(400, ErrBadRequest, "invalid URL path", name, None)))
    else
      var parts := SplitPath(name);
      Finish(r, w, ServeFileDecision(dirFs(parts.0), r.url.path, parts.1, false, redirectPath))
  }

  /**
   * ServeHTTP as written: for a redirect the error's headers are written into the body before the
   * status. The body write sends status 200 first, so the later 301 is ignored and the Location
   * header never reaches the response headers.
   */
  function ServeHTTPAsWritten(w: Writer, e: FsError, errText: FsError -> string): Writer {
    if e.kind == ErrRedirect then WriteHeader(WriteHeaderText(w, e.headers), 301)
    else ErrorReply(w, errText(e), e.statusHint)
  }

  /** The redirect as written: a fresh response ends with status 200 and without a Location header. */
  lemma AsWrittenRedirectIs200(w: Writer, location: string, pathname: string, errText: FsError -> string)
    requires w.status.None? && "Location" !in w.header
    ensures var r := ServeHTTPAsWritten(w, NewErrRedirect(location, pathname), errText);
      r.status == Some(200) && "Location" !in r.header &&
      r.body == w.body + [HeaderText(map["Location" := [location]])]
  {
  }

  /**
   * ServeHTTP as intended: the error's headers go into the response headers, then the 301; any
   * other error is answered with http.Error, its text and its status hint (errText is the
   * error's Error()).
   */
  function ServeHTTP(w: Writer, e: FsError, errText: FsError -> string): (r: Writer)
    ensures e.kind == ErrRedirect ==> r.body == w.body && r.statusCalls == w.statusCalls + [301]
    ensures e.kind != ErrRedirect ==> r == ErrorReply(w, errText(e), e.statusHint)
  {
    if e.kind == ErrRedirect then WriteHeader(w.(header := w.header + e.headers), 301)
    else ErrorReply(w, errText(e), e.statusHint)
  }

  /** As intended, a fresh response to a redirect has status 301 and the Location header. */
  lemma RedirectIs301(w: Writer, location: string, pathname: string, errText: FsError -> string)
    requires w.status.None?
    ensures var r := ServeHTTP(w, NewErrRedirect(location, pathname), errText);
      r.status == Some(301) && HeaderGet(r.header, "Location") == location
  {
  }

  /** The whole handler as written: serve the request path and answer an error with ServeHTTP as written. */
  function FileHandler(r: Request, w: Writer, root: FileSystem, clean: string -> string,
                       redirectPath: string -> string, errText: FsError -> string): (res: (Request, Writer))
    ensures HasPrefix(res.0.url.path, "/")
  {
    var reply := ServeRequestPath(r, w, root, clean, redirectPath);
    (reply.r, if reply.err.Some? then ServeHTTPAsWritten(reply.w, reply.err.value, errText) else reply.w)
  }

  /** A fresh request for a name that does not open is answered 404 with the error's text. */
  lemma MissingFileIs404(r: Request, w: Writer, root: FileSystem, clean: string -> string,
                         redirectPath: string -> string, errText: FsError -> string)
    requires w.status.None?
    requires var p := if HasPrefix(r.url.path, "/") then r.url.path else "/" + r.url.path;
      root(clean(p)).OpenFailed?
    ensures FileHandler(r, w, root, clean, redirectPath, errText).1.status == Some(404)
  {
    var reply := ServeRequestPath(r, w, root, clean, redirectPath);
    assert reply.err.Some? && reply.err.value.statusHint == 404 && reply.err.value.kind == ErrFsOpen;
    assert reply.w == w;
  }
}
