/**
 * The variant file server of httputils/fileserver/fileserver.go. It shares the path helpers and
 * the conditional-request rules of the other file server (the code is the same), and differs in
 * serveFile's order of checks, in its error record and in how ServeHTTP answers.
 */
module LocalFileServer {
  import opened Wrappers
  import opened GoStrings
  import opened Http
  import FS = FileServer

  /** The Data of an *Err: a redirect target or message, the open file, or nothing. */
  datatype ErrData = NoData | Text(s: string) | File(info: FS.FileInfo)

  datatype Err = Err(kind: FS.ErrKind, statusHint: int, data: ErrData, cause: Option<string>)

  /** http.StatusText for the statuses the file server produces; "" for others. */
  function StatusText(code: int): string {
    match code
    case 301 => "Moved Permanently"
    case 304 => "Not Modified"
    case 400 => "Bad Request"
    case 403 => "Forbidden"
    case 404 => "Not Found"
    case 500 => "Internal Server Error"
    case _ => ""
  }

  /** Err.Error: "application action required" for a zero status hint, else the status text. */
  function ErrorText(e: Err): (s: string)
    ensures e.statusHint == 0 ==> s == "application action required"
    ensures e.statusHint != 0 ==> s == StatusText(e.statusHint)
  {
    if e.statusHint == 0 then "application action required" else StatusText(e.statusHint)
  }

  /** The outcome of serveFile: the file to serve, an error, or the index panic on an empty URL path. */
  datatype Decision = Serve(info: FS.FileInfo) | Fail(err: Err) | PathIndexPanic

  function RedirectTo(target: string): Err {
    Err(FS.ErrRedirect, 301, Text(target), None)
  }

  /**
   * serveFile: the index.html redirect comes before opening; then open (404) and stat (500); with
   * redirect on, the canonical-URL redirects; then, redirect on or off, a directory URL without a
   * trailing slash is redirected; then index.html; a remaining directory is ErrDirFound with
   * status hint 0 and the open file.
   */
  function ServeFileDecision(fs: FS.FileSystem, urlPath: string, name: string, redirect: bool): Decision {
    if HasSuffix(urlPath, FS.IndexPage) then Fail(RedirectTo("./"))
    else
      match fs(name)
      case OpenFailed(cause) => Fail(Err(FS.ErrFsOpen, 404, NoData, Some(cause)))
      case Opened(Failure(cause)) => Fail(Err(FS.ErrFsStat, 500, NoData, Some(cause)))
      case Opened(Success(d)) =>
        if (redirect || d.isDir) && |urlPath| == 0 then PathIndexPanic
        else if redirect && d.isDir && urlPath[|urlPath| - 1] != '/' then Fail(RedirectTo(FS.Base(urlPath) + "/"))
        else if redirect && !d.isDir && urlPath[|urlPath| - 1] == '/' then Fail(RedirectTo("../" + FS.Base(urlPath)))
        else if d.isDir && urlPath[|urlPath| - 1] != '/' then Fail(RedirectTo(FS.Base(urlPath) + "/"))
        else if d.isDir then
          var index := TrimSuffix(name, "/") + FS.IndexPage;
          match fs(index)
          case Opened(Success(dd)) =>
            if dd.isDir then Fail(Err(FS.ErrDirFound, 0, File(dd), None)) else Serve(dd)
          case _ => Fail(Err(FS.ErrDirFound, 0, File(d), None))
        else Serve(d)
  }

  /** The index.html redirect does not depend on the file system: it fires even for missing files. */
  lemma IndexRedirectBeforeOpen(fs: FS.FileSystem, urlPath: string, name: string, redirect: bool)
    requires HasSuffix(urlPath, FS.IndexPage)
    ensures ServeFileDecision(fs, urlPath, name, redirect) == Fail(RedirectTo("./"))
  {
  }

  /** Unlike the other file server, a directory URL without a trailing slash is redirected even with redirect off. */
  lemma DirectoryRedirectAlways(fs: FS.FileSystem, urlPath: string, name: string)
    requires !HasSuffix(urlPath, FS.IndexPage) && |urlPath| > 0 && urlPath[|urlPath| - 1] != '/'
    requires fs(name).Opened? && fs(name).stat.Success? && fs(name).stat.value.isDir
    ensures ServeFileDecision(fs, urlPath, name, false) == Fail(RedirectTo(FS.Base(urlPath) + "/"))
    ensures ServeFileDecision(fs, urlPath, name, true) == Fail(RedirectTo(FS.Base(urlPath) + "/"))
  {
  }

  /** A directory without a usable index.html is ErrDirFound with status hint 0, carrying the directory. */
  lemma DirFoundCarriesFile(fs: FS.FileSystem, urlPath: string, name: string, redirect: bool)
    requires !HasSuffix(urlPath, FS.IndexPage) && |urlPath| > 0 && urlPath[|urlPath| - 1] == '/'
    requires fs(name).Opened? && fs(name).stat.Success? && fs(name).stat.value.isDir
    requires var index := TrimSuffix(name, "/") + FS.IndexPage; !(fs(index).Opened? && fs(index).stat.Success?)
    ensures ServeFileDecision(fs, urlPath, name, redirect) == Fail(Err(FS.ErrDirFound, 0, File(fs(name).stat.value), None))
    ensures ErrorText(ServeFileDecision(fs, urlPath, name, redirect).err) == "application action required"
  {
  }

  /** Both file servers decide alike for a URL path with a trailing slash that does not end in /index.html and a name that opens. */
  lemma AgreesOnCanonicalDirectories(fs: FS.FileSystem, urlPath: string, name: string, redirectPath: string -> string)
    requires !HasSuffix(urlPath, FS.IndexPage) && |urlPath| > 0 && urlPath[|urlPath| - 1] == '/'
    requires fs(name).Opened? && fs(name).stat.Success? && fs(name).stat.value.isDir
    ensures ServeFileDecision(fs, urlPath, name, true).Serve? <==> FS.ServeFileDecision(fs, urlPath, name, true, redirectPath).Success?
    ensures ServeFileDecision(fs, urlPath, name, true).Serve? ==>
      ServeFileDecision(fs, urlPath, name, true).info == FS.ServeFileDecision(fs, urlPath, name, true, redirectPath).value
  {
  }

  /** LocalRedirect: the query is kept, Location is set (replaced) and 301 is written. */
  function LocalRedirect(w: Writer, r: Request, newPath: string): (res: Writer)
    ensures r.url.rawQuery == "" ==> HeaderGet(res.header, "Location") == newPath
    ensures r.url.rawQuery != "" ==> HeaderGet(res.header, "Location") == newPath + "?" + r.url.rawQuery
    ensures res.statusCalls == w.statusCalls + [301] && res.body == w.body
  {
    var p := if r.url.rawQuery != "" then newPath + "?" + r.url.rawQuery else newPath;
    WriteHeader(w.(header := HeaderSet(w.header, "Location", p)), 301)
  }

  /**
   * ServeHTTP: bad request, stat and open errors are answered with their text and status hint, a
   * redirect with LocalRedirect to its target, a directory with 403 "Forbidden".
   */
  function ServeHTTP(w: Writer, r: Request, e: Err): (res: Writer)
    ensures e.kind in {FS.ErrBadRequest, FS.ErrFsStat, FS.ErrFsOpen} ==> res == ErrorReply(w, ErrorText(e), e.statusHint)
    ensures e.kind == FS.ErrRedirect && e.data.Text? ==> res == LocalRedirect(w, r, e.data.s)
    ensures e.kind == FS.ErrDirFound ==> res == ErrorReply(w, "Forbidden", 403)
  {
    match e.kind
    case ErrBadRequest => ErrorReply(w, ErrorText(e), e.statusHint)
    case ErrFsStat => ErrorReply(w, ErrorText(e), e.statusHint)
    case ErrFsOpen => ErrorReply(w, ErrorText(e), e.statusHint)
    case ErrRedirect => LocalRedirect(w, r, if e.data.Text? then e.data.s else "")
    case ErrDirFound => ErrorReply(w, StatusText(403), 403)
  }

  /** The request after ServeRequestPath/ServeFile, the writer, and the outcome. */
  datatype Reply = Reply(r: Request, w: Writer, out: Decision)

  function Finish(r: Request, w: Writer, d: Decision): Reply {
    if d.Serve? then Reply(r, WriteBody(w, Content(d.info.name)), d) else Reply(r, w, d)
  }

  /** ServeRequestPath: a path without a leading "/" gets one, written back into the request. */
  function ServeRequestPath(r: Request, w: Writer, root: FS.FileSystem, clean: string -> string): (res: Reply)
    ensures HasPrefix(res.r.url.path, "/")
    ensures !HasPrefix(r.url.path, "/") ==> res.r == WithPath(r, "/" + r.url.path)
    ensures res.out == ServeFileDecision(root, res.r.url.path, clean(res.r.url.path), true)
    ensures !res.out.PathIndexPanic?
  {
    var upath := if HasPrefix(r.url.path, "/") then r.url.path else "/" + r.url.path;
    var r2 := if HasPrefix(r.url.path, "/") then r else WithPath(r, upath);
    Finish(r2, w, ServeFileDecision(root, upath, clean(upath), true))
  }

  /** ServeFile: a ".." segment gives a 400 "invalid URL path" error before anything is opened. */
  function ServeFile(r: Request, w: Writer, name: string, dirFs: string -> FS.FileSystem): (res: Reply)
    ensures FS.ContainsDotDot(r.url.path) ==> res == Reply(r, w, Fail(Err(FS.ErrBadRequest, 400, Text("invalid URL path"), None)))
    ensures !FS.ContainsDotDot(r.url.path) ==>
      res.out == ServeFileDecision(dirFs(FS.SplitPath(name).0), r.url.path, FS.SplitPath(name).1, false)
  {
    if FS.ContainsDotDot(r.url.path) then Reply(r, w, Fail(Err(FS.ErrBadRequest, 400, Text("invalid URL path"), None)))
    else
      var parts := FS.SplitPath(name);
      Finish(r, w, ServeFileDecision(dirFs(parts.0), r.url.path, parts.1, false))
  }

  /** ServeFile with an empty request path and a directory name panics on the trailing-slash check. */
  lemma ServeFileEmptyPathPanics(r: Request, w: Writer, name: string, dirFs: string -> FS.FileSystem)
    requires r.url.path == ""
    requires var parts := FS.SplitPath(name);
      dirFs(parts.0)(parts.1).Opened? && dirFs(parts.0)(parts.1).stat.Success? && dirFs(parts.0)(parts.1).stat.value.isDir
    ensures ServeFile(r, w, name, dirFs).out == PathIndexPanic
  {
    assert !Contains("", "..");
  }
}
