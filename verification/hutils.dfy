/** Prefix helpers of http/hutils/utils.go: run a handler on a path prefix, with the prefix stripped. */
module HUtils {
  import opened Wrappers
  import opened GoStrings
  import opened Http

  /** The request h sees: a copy whose URL path has one leading prefix removed; nothing else differs. */
  function StripRequest(r: Request, prefix: string): (r2: Request)
    ensures r2 == r.(url := r.url.(path := TrimPrefix(r.url.path, prefix)))
    ensures HasPrefix(r.url.path, prefix) ==> prefix + r2.url.path == r.url.path
    ensures !HasPrefix(r.url.path, prefix) ==> r2 == r
  {
    WithPath(r, TrimPrefix(r.url.path, prefix))
  }

  /** StripPrefix: the empty prefix gives h itself; otherwise h runs on the stripped copy. */
  function StripPrefix(prefix: string, h: Handler): (sh: Handler)
    ensures prefix == "" ==> sh == h
  {
    if prefix == "" then h else (x: Exchange) => h(Exchange(StripRequest(x.r, prefix), x.s))
  }

  lemma StripPrefixRuns(prefix: string, h: Handler, x: Exchange)
    requires prefix != ""
    ensures StripPrefix(prefix, h)(x) == h(Exchange(StripRequest(x.r, prefix), x.s))
  {
  }

  /** RunOnPrefix: done exactly when the path has the prefix; then the result is the stripped run. */
  function RunOnPrefix(prefix: string, h: Handler, x: Exchange): (run: PrefixRun)
    ensures run.Ran? <==> HasPrefix(x.r.url.path, prefix)
    ensures run.Ran? ==> run.out == StripPrefix(prefix, h)(x)
  {
    if HasPrefix(x.r.url.path, prefix) then Ran(StripPrefix(prefix, h)(x)) else Skipped
  }

  /** The 301 to prefix + "/" that RunOnPrefixAndRedirectToSlash answers with. */
  function RedirectToSlash(prefix: string, s: Shared): Outcome {
    Returned(SetWriter(s, Redirect(s.w, prefix + "/", 301)), None)
  }

  /**
   * RunOnPrefixAndRedirectToSlash: a path equal to the prefix is redirected to prefix + "/" with a
   * nil error and h does not run; a longer path with the prefix runs h stripped; otherwise not done.
   */
  function RunOnPrefixAndRedirectToSlash(prefix: string, h: Handler, x: Exchange): (run: PrefixRun)
    ensures run.Ran? <==> HasPrefix(x.r.url.path, prefix)
    ensures x.r.url.path == prefix ==> run == Ran(RedirectToSlash(prefix, x.s))
    ensures HasPrefix(x.r.url.path, prefix) && x.r.url.path != prefix ==> run.out == StripPrefix(prefix, h)(x)
  {
    if HasPrefix(x.r.url.path, prefix) then
      if x.r.url.path == prefix then Ran(RedirectToSlash(prefix, x.s)) else Ran(StripPrefix(prefix, h)(x))
    else Skipped
  }

  /** Mount: RunOnPrefix with the done flag discarded. */
  function Mount(prefix: string, h: Handler): Handler {
    (x: Exchange) => RunOnPrefix(prefix, h, x).Discard(x.s)
  }

  /** MountAndRedirectToSlash: one trailing "/" of the prefix is trimmed before matching. */
  function MountAndRedirectToSlash(prefix: string, h: Handler): Handler {
    var p := TrimSuffix(prefix, "/");
    (x: Exchange) => RunOnPrefixAndRedirectToSlash(p, h, x).Discard(x.s)
  }

  /** Mount is the stripped run on a match, and a nil error with no change otherwise. */
  lemma MountBehaviour(prefix: string, h: Handler, x: Exchange)
    ensures HasPrefix(x.r.url.path, prefix) ==> Mount(prefix, h)(x) == StripPrefix(prefix, h)(x)
    ensures !HasPrefix(x.r.url.path, prefix) ==> Mount(prefix, h)(x) == Returned(x.s, None)
  {
  }

  /**
   * A mount prefix ending in "/" also catches the path without that slash, and redirects it to the
   * slashed form; a path without the trimmed prefix is not handled.
   */
  lemma MountAndRedirectToSlashTrims(prefix: string, h: Handler, x: Exchange)
    requires |prefix| > 0 && prefix[|prefix| - 1] == '/'
    ensures x.r.url.path == prefix[..|prefix| - 1] ==>
      MountAndRedirectToSlash(prefix, h)(x) == RedirectToSlash(prefix[..|prefix| - 1], x.s)
    ensures !HasPrefix(x.r.url.path, prefix[..|prefix| - 1]) ==> MountAndRedirectToSlash(prefix, h)(x) == Returned(x.s, None)
  {
    assert prefix[..|prefix| - 1] + "/" == prefix;
    assert TrimSuffix(prefix, "/") == prefix[..|prefix| - 1];
  }
}
