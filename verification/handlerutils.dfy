/** Prefix helpers of http/handlerutils/handlerutils.go, built on the recording StripPrefix. */
module HandlerUtils {
  import opened Wrappers
  import opened GoStrings
  import opened Http
  import StripPrefixes

  /** OnPrefix: done exactly when the path has the prefix; then h runs on the unchanged request. */
  function OnPrefix(prefix: string, h: Handler, x: Exchange): (run: PrefixRun)
    ensures run.Ran? <==> HasPrefix(x.r.url.path, prefix)
    ensures run.Ran? ==> run.out == h(x)
  {
    if HasPrefix(x.r.url.path, prefix) then Ran(h(x)) else Skipped
  }

  /** OnPrefixStripped: the same rule, running h behind StripPrefix. */
  function OnPrefixStripped(prefix: string, h: Handler, x: Exchange): (run: PrefixRun)
    ensures run.Ran? <==> HasPrefix(x.r.url.path, prefix)
    ensures run.Ran? ==> run.out == StripPrefixes.StripPrefix(prefix, h)(x)
  {
    if HasPrefix(x.r.url.path, prefix) then Ran(StripPrefixes.StripPrefix(prefix, h)(x)) else Skipped
  }

  /** When OnPrefixStripped runs h, h can rebuild the path the request had. */
  lemma OnPrefixStrippedRoundTrip(prefix: string, x: Exchange)
    requires prefix != "" && HasPrefix(x.r.url.path, prefix)
    ensures StripPrefixes.ConstructedPath(StripPrefixes.StripRequest(x.r, prefix)) == StripPrefixes.ConstructedPath(x.r)
  {
    StripPrefixes.StripRoundTrip(x.r, prefix);
  }

  /**
   * OnPrefixStrippedAndRedirectToSlash as written: it reads the byte at index len(prefix), which
   * is out of range for every prefix, so it panics before looking at the request.
   */
  function OnPrefixStrippedAndRedirectToSlashAsWritten(prefix: string, h: Handler, x: Exchange): PrefixRun {
    Ran(Panicked(x.s, IndexOutOfRange))
  }

  const IndexOutOfRange := "index out of range"

  /** Every call of the function as written panics, whatever the prefix and request. */
  lemma AsWrittenAlwaysPanics(prefix: string, h: Handler, x: Exchange)
    ensures OnPrefixStrippedAndRedirectToSlashAsWritten(prefix, h, x) == Ran(Panicked(x.s, IndexOutOfRange))
  {
  }

  /** The prefix with one trailing "/" removed, as the comment of the function intends. */
  function TrimmedPrefix(prefix: string): (px: string)
    ensures |prefix| > 0 && prefix[|prefix| - 1] == '/' ==> px + "/" == prefix
    ensures !(|prefix| > 0 && prefix[|prefix| - 1] == '/') ==> px == prefix
  {
    if |prefix| > 0 && prefix[|prefix| - 1] == '/' then prefix[..|prefix| - 1] else prefix
  }

  /**
   * OnPrefixStrippedAndRedirectToSlash as intended (the last byte is prefix[len-1]): a path equal
   * to the trimmed prefix gets a 301 to redirectPath(r) (UnsafeRedirectPath(r, "./")) with a nil
   * error; another path with the trimmed prefix runs h behind StripPrefix of the untrimmed prefix.
   */
  function OnPrefixStrippedAndRedirectToSlash(prefix: string, h: Handler, redirectPath: Request -> string, x: Exchange): (run: PrefixRun)
    ensures run.Ran? <==> HasPrefix(x.r.url.path, TrimmedPrefix(prefix))
    ensures x.r.url.path == TrimmedPrefix(prefix) ==>
      run == Ran(Returned(SetWriter(x.s, Redirect(x.s.w, redirectPath(x.r), 301)), None))
    ensures HasPrefix(x.r.url.path, TrimmedPrefix(prefix)) && x.r.url.path != TrimmedPrefix(prefix) ==>
      run == Ran(StripPrefixes.StripPrefix(prefix, h)(x))
  {
    var px := TrimmedPrefix(prefix);
    if HasPrefix(x.r.url.path, px) then
      if x.r.url.path == px then Ran(Returned(SetWriter(x.s, Redirect(x.s.w, redirectPath(x.r), 301)), None))
      else Ran(StripPrefixes.StripPrefix(prefix, h)(x))
    else Skipped
  }

  /** With a slashed prefix, a path under it reaches h with the slashed prefix stripped and recorded. */
  lemma RedirectVariantRoundTrip(prefix: string, h: Handler, redirectPath: Request -> string, x: Exchange)
    requires |prefix| > 0 && prefix[|prefix| - 1] == '/' && HasPrefix(x.r.url.path, prefix)
    ensures OnPrefixStrippedAndRedirectToSlash(prefix, h, redirectPath, x)
         == Ran(h(Exchange(StripPrefixes.StripRequest(x.r, prefix), x.s)))
    ensures StripPrefixes.ConstructedPath(StripPrefixes.StripRequest(x.r, prefix)) == StripPrefixes.ConstructedPath(x.r)
  {
    var px := TrimmedPrefix(prefix);
    assert HasPrefix(x.r.url.path, px) by {
      assert x.r.url.path[..|px|] == prefix[..|px|];
    }
    assert x.r.url.path != px;
    StripPrefixes.StripRoundTrip(x.r, prefix);
  }

  /** Mount: OnPrefixStripped with the done flag discarded (nil error when the prefix does not match). */
  function Mount(prefix: string, h: Handler): Handler {
    (x: Exchange) => OnPrefixStripped(prefix, h, x).Discard(x.s)
  }

  /** MountAndRedirectToSlash as written, on OnPrefixStrippedAndRedirectToSlash as written. */
  function MountAndRedirectToSlash(prefix: string, h: Handler): Handler {
    (x: Exchange) => OnPrefixStrippedAndRedirectToSlashAsWritten(prefix, h, x).Discard(x.s)
  }

  /** As written, the mounted handler panics on every request, before h can run. */
  lemma MountAndRedirectToSlashPanics(prefix: string, h: Handler, x: Exchange)
    ensures MountAndRedirectToSlash(prefix, h)(x) == Panicked(x.s, IndexOutOfRange)
  {
    AsWrittenAlwaysPanics(prefix, h, x);
  }

  /** MountAndRedirectToSlash on the intended OnPrefixStrippedAndRedirectToSlash. */
  function MountAndRedirectToSlashIntended(prefix: string, h: Handler, redirectPath: Request -> string): Handler {
    (x: Exchange) => OnPrefixStrippedAndRedirectToSlash(prefix, h, redirectPath, x).Discard(x.s)
  }

  /** As intended, a path under a slashed prefix reaches h with the prefix stripped and recorded. */
  lemma MountAndRedirectToSlashIntendedRuns(prefix: string, h: Handler, redirectPath: Request -> string, x: Exchange)
    requires |prefix| > 0 && prefix[|prefix| - 1] == '/' && HasPrefix(x.r.url.path, prefix)
    ensures MountAndRedirectToSlashIntended(prefix, h, redirectPath)(x) == h(Exchange(StripPrefixes.StripRequest(x.r, prefix), x.s))
  {
    RedirectVariantRoundTrip(prefix, h, redirectPath, x);
  }

  /** HandlerOnPrefix: OnPrefix with the done flag discarded. */
  function HandlerOnPrefix(prefix: string, h: Handler): Handler {
    (x: Exchange) => OnPrefix(prefix, h, x).Discard(x.s)
  }

  /** The handlers return h's result on a match, and a nil error with nothing changed otherwise. */
  lemma MountedHandlers(prefix: string, h: Handler, x: Exchange)
    ensures HasPrefix(x.r.url.path, prefix) ==>
      Mount(prefix, h)(x) == StripPrefixes.StripPrefix(prefix, h)(x) && HandlerOnPrefix(prefix, h)(x) == h(x)
    ensures !HasPrefix(x.r.url.path, prefix) ==>
      Mount(prefix, h)(x) == Returned(x.s, None) && HandlerOnPrefix(prefix, h)(x) == Returned(x.s, None)
  {
  }
}
