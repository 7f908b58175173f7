/**
 * Stripped-prefix bookkeeping (http/handlerutils/stripprefix.go): every StripPrefix records the
 * prefix it strips on the request context, so that the original path can be put back together.
 */
module StripPrefixes {
  import opened Wrappers
  import opened GoStrings
  import opened Http

  /** StrippedPrefixesFromRequest: the recorded list, or nil (empty) when nothing is attached. */
  function StrippedPrefixesFromRequest(r: Request): (ps: seq<string>)
    ensures r.stripped.None? ==> ps == []
    ensures r.stripped.Some? ==> ps == r.stripped.value
  {
    if r.stripped.Some? then r.stripped.value else []
  }

  function WithStrippedPrefixes(r: Request, item: seq<string>): (r2: Request)
    ensures StrippedPrefixesFromRequest(r2) == item
    ensures r2.url == r.url
  {
    r.(stripped := Some(item))
  }

  /** The concatenation of strings, in order. */
  function Concat(ps: seq<string>): string {
    if |ps| == 0 then "" else Concat(ps[..|ps| - 1]) + ps[|ps| - 1]
  }

  /** The path the request had before any recorded prefix was stripped. */
  function ConstructedPath(r: Request): string {
    Concat(StrippedPrefixesFromRequest(r)) + r.url.path
  }

  /** ConstructPathFromStripped: appends the recorded prefixes in order, then the current path. */
  method ConstructPathFromStripped(r: Request) returns (path: string)
    ensures path == ConstructedPath(r)
  {
    var prefixes := StrippedPrefixesFromRequest(r);
    path := "";
    for i := 0 to |prefixes|
      invariant path == Concat(prefixes[..i])
    {
      assert prefixes[..i + 1][..i] == prefixes[..i];
      path := path + prefixes[i];
    }
    assert prefixes[..|prefixes|] == prefixes;
    path := path + r.url.path;
  }

  /** The request the wrapped handler sees: the prefix appended to the record, the path trimmed. */
  function StripRequest(r: Request, prefix: string): (r2: Request)
    ensures StrippedPrefixesFromRequest(r2) == StrippedPrefixesFromRequest(r) + [prefix]
    ensures r2.url.path == TrimPrefix(r.url.path, prefix)
  {
    WithPath(WithStrippedPrefixes(r, StrippedPrefixesFromRequest(r) + [prefix]), TrimPrefix(r.url.path, prefix))
  }

  /** StripPrefix: the empty prefix gives h itself; otherwise h runs on the stripped request. */
  function StripPrefix(prefix: string, h: Handler): (sh: Handler)
    ensures prefix == "" ==> sh == h
  {
    if prefix == "" then h else (x: Exchange) => h(Exchange(StripRequest(x.r, prefix), x.s))
  }

  lemma StripPrefixRuns(prefix: string, h: Handler, x: Exchange)
    requires prefix != ""
    ensures StripPrefix(prefix, h)(x) == h(Exchange(StripRequest(x.r, prefix), x.s))
  {
  }

  lemma {:induction false} ConcatSnoc(ps: seq<string>, p: string)
    ensures Concat(ps + [p]) == Concat(ps) + p
  {
    assert (ps + [p])[..|ps + [p]| - 1] == ps;
  }

  /** Round trip: when the path has the prefix, the constructed path is the same before and after stripping. */
  lemma StripRoundTrip(r: Request, prefix: string)
    requires HasPrefix(r.url.path, prefix)
    ensures ConstructedPath(StripRequest(r, prefix)) == ConstructedPath(r)
  {
    var ps := StrippedPrefixesFromRequest(r);
    ConcatSnoc(ps, prefix);
    assert prefix + TrimPrefix(r.url.path, prefix) == r.url.path;
    assert Concat(ps) + prefix + TrimPrefix(r.url.path, prefix) == Concat(ps) + (prefix + TrimPrefix(r.url.path, prefix));
  }

  /**
   * The prefix is recorded even when the path does not have it; the path is then unchanged, so
   * the constructed path gains the prefix.
   */
  lemma StripRecordsUnmatched(r: Request, prefix: string)
    requires !HasPrefix(r.url.path, prefix)
    ensures StripRequest(r, prefix).url.path == r.url.path
    ensures ConstructedPath(StripRequest(r, prefix)) == Concat(StrippedPrefixesFromRequest(r)) + prefix + r.url.path
  {
    ConcatSnoc(StrippedPrefixesFromRequest(r), prefix);
  }

  /** Two nested strips record both prefixes, outer first, and still reconstruct the original path. */
  lemma NestedStripRoundTrip(r: Request, outer: string, inner: string)
    requires HasPrefix(r.url.path, outer + inner)
    ensures StrippedPrefixesFromRequest(StripRequest(StripRequest(r, outer), inner))
         == StrippedPrefixesFromRequest(r) + [outer, inner]
    ensures ConstructedPath(StripRequest(StripRequest(r, outer), inner)) == ConstructedPath(r)
  {
    var r1 := StripRequest(r, outer);
    assert HasPrefix(r.url.path, outer) by {
      assert (outer + inner)[..|outer|] == outer;
      assert r.url.path[..|outer|] == (outer + inner)[..|outer|];
    }
    StripRoundTrip(r, outer);
    assert HasPrefix(r1.url.path, inner) by {
      assert r1.url.path == r.url.path[|outer|..];
      assert r.url.path[|outer|..][..|inner|] == r.url.path[|outer|..|outer| + |inner|];
      assert r.url.path[|outer|..|outer| + |inner|] == (outer + inner)[|outer|..];
    }
    StripRoundTrip(r1, inner);
    assert StrippedPrefixesFromRequest(r) + [outer] + [inner] == StrippedPrefixesFromRequest(r) + [outer, inner];
  }
}
