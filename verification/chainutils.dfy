/** Prefix-mount middlewares (http/chainutils/utils.go). */
module ChainUtils {
  import opened GoStrings
  import opened Http
  import HUtils

  /** Mount: on a prefix match h runs stripped and its result is returned; otherwise next runs. */
  function Mount(prefix: string, h: Handler): Middleware {
    (next: Handler) => (x: Exchange) =>
      match HUtils.RunOnPrefix(prefix, h, x)
      case Ran(out) => out
      case Skipped => next(x)
  }

  /** MountRedirectToSlashed: as Mount, with the path equal to the prefix redirected to prefix + "/". */
  function MountRedirectToSlashed(prefix: string, h: Handler): Middleware {
    (next: Handler) => (x: Exchange) =>
      match HUtils.RunOnPrefixAndRedirectToSlash(prefix, h, x)
      case Ran(out) => out
      case Skipped => next(x)
  }

  /**
   * On a match the mounted handler's result (error included) is the middleware's, and next does
   * not run: any two next handlers give the same result. Otherwise next runs on the unchanged
   * exchange and its result, error included, passes through.
   */
  lemma MountDispatch(prefix: string, h: Handler, next1: Handler, next2: Handler, x: Exchange)
    ensures HasPrefix(x.r.url.path, prefix) ==>
      Mount(prefix, h)(next1)(x) == HUtils.StripPrefix(prefix, h)(x) &&
      Mount(prefix, h)(next1)(x) == Mount(prefix, h)(next2)(x)
    ensures !HasPrefix(x.r.url.path, prefix) ==> Mount(prefix, h)(next1)(x) == next1(x)
  {
  }

  /** A path equal to the prefix is redirected with a nil error; neither h nor next runs. */
  lemma MountRedirectDispatch(prefix: string, h: Handler, next: Handler, x: Exchange)
    ensures x.r.url.path == prefix ==>
      MountRedirectToSlashed(prefix, h)(next)(x) == HUtils.RedirectToSlash(prefix, x.s)
    ensures HasPrefix(x.r.url.path, prefix) && x.r.url.path != prefix ==>
      MountRedirectToSlashed(prefix, h)(next)(x) == HUtils.StripPrefix(prefix, h)(x)
    ensures !HasPrefix(x.r.url.path, prefix) ==> MountRedirectToSlashed(prefix, h)(next)(x) == next(x)
  {
  }
}
