/** The Strict-Transport-Security middleware (http/middleware/hsts.go). */
module Hsts {
  import opened GoStrings
  import opened Http

  const HstsHeaderKey: string := "Strict-Transport-Security"

  /** The optional directives, in the order includeSubDomains, preload. */
  function Directives(includeSubdomains: bool, preload: bool): (d: string)
    ensures ';' in d <==> includeSubdomains || preload
    ensures |d| > 0 ==> d[0] == ';'
  {
    (if includeSubdomains then "; includeSubDomains" else "") + (if preload then "; preload" else "")
  }

  /** The header value as written: the decimal max age without the "max-age=" directive name. */
  function HstsValueAsWritten(maxAgeSecs: int, includeSubdomains: bool, preload: bool): string {
    var val := Itoa(maxAgeSecs);
    var val := if includeSubdomains then val + "; includeSubDomains" else val;
    if preload then val + "; preload" else val
  }

  /** As written, a non-negative max age yields a value that does not start with "max-age=", so it names no max-age directive. */
  lemma MaxAgeNameMissing(maxAgeSecs: int, includeSubdomains: bool, preload: bool)
    requires maxAgeSecs >= 0
    ensures var v := HstsValueAsWritten(maxAgeSecs, includeSubdomains, preload);
      v == Itoa(maxAgeSecs) + Directives(includeSubdomains, preload) && !HasPrefix(v, "max-age=")
  {
    var v := HstsValueAsWritten(maxAgeSecs, includeSubdomains, preload);
    assert v[0] == Itoa(maxAgeSecs)[0];
    assert "max-age="[0] == 'm';
  }

  /** The header value as the syntax requires: "max-age=" and the decimal max age, then the requested directives. */
  function HstsValue(maxAgeSecs: int, includeSubdomains: bool, preload: bool): string {
    "max-age=" + Itoa(maxAgeSecs) + Directives(includeSubdomains, preload)
  }

  /**
   * The intended value parses back: it starts with "max-age=", the number runs up to the first ';'
   * (or the end when no directive was requested), and the directives follow in order.
   */
  lemma HstsValueParses(maxAgeSecs: int, includeSubdomains: bool, preload: bool)
    requires maxAgeSecs >= 0
    ensures var v := HstsValue(maxAgeSecs, includeSubdomains, preload);
      var rest := TrimPrefix(v, "max-age=");
      var n := |Itoa(maxAgeSecs)|;
      && HasPrefix(v, "max-age=")
      && rest[..n] == Itoa(maxAgeSecs)
      && IndexByte(rest, ';') == (if includeSubdomains || preload then n else -1)
      && rest[n..] == Directives(includeSubdomains, preload)
  {
    var v := HstsValue(maxAgeSecs, includeSubdomains, preload);
    var digits := Itoa(maxAgeSecs);
    var d := Directives(includeSubdomains, preload);
    assert v == "max-age=" + (digits + d);
    assert TrimPrefix(v, "max-age=") == digits + d;
    assert ';' !in digits by {
      assert AllDigits(digits);
    }
    DigitsThenDirectives(digits, d);
  }

  /** A number without ';' followed by directives that start with ';' splits at the first ';'. */
  lemma DigitsThenDirectives(digits: string, d: string)
    requires ';' !in digits && (|d| > 0 ==> d[0] == ';')
    ensures var rest := digits + d;
      && rest[..|digits|] == digits && rest[|digits|..] == d
      && IndexByte(rest, ';') == (if |d| > 0 then |digits| else -1)
  {
    var rest := digits + d;
    assert rest[..|digits|] == digits;
    if |d| > 0 {
      assert rest[|digits|] == ';';
    } else {
      assert rest == digits;
    }
  }

  /**
   * StrictTransportSecMiddleware as written: sets (replaces) the header with the value as written
   * before next runs; next's result is returned.
   */
  function StrictTransportSecMiddleware(maxAgeSecs: int, includeSubdomains: bool, preload: bool): Middleware {
    (next: Handler) =>
      var val := HstsValueAsWritten(maxAgeSecs, includeSubdomains, preload);
      (x: Exchange) => next(Exchange(x.r, SetWriter(x.s, x.s.w.(header := HeaderSet(x.s.w.header, HstsHeaderKey, val)))))
  }

  /**
   * next sees the header with exactly one value, the bare max age followed by the requested
   * directives, whatever values it had before; every other header, the status and the body are
   * untouched, and the request and context are passed on.
   */
  lemma HstsSetBeforeNext(maxAgeSecs: int, includeSubdomains: bool, preload: bool, next: Handler, x: Exchange)
    ensures var v := HstsValueAsWritten(maxAgeSecs, includeSubdomains, preload);
      var x2 := Exchange(x.r, SetWriter(x.s, x.s.w.(header := HeaderSet(x.s.w.header, HstsHeaderKey, v))));
      && StrictTransportSecMiddleware(maxAgeSecs, includeSubdomains, preload)(next)(x) == next(x2)
      && x2.s.w.header[HstsHeaderKey] == [Itoa(maxAgeSecs) + Directives(includeSubdomains, preload)]
      && (forall k :: k in x.s.w.header && k != HstsHeaderKey ==> k in x2.s.w.header && x2.s.w.header[k] == x.s.w.header[k])
      && x2.s.w.status == x.s.w.status && x2.s.w.body == x.s.w.body
      && x2.s.ctx == x.s.ctx && x2.s.effects == x.s.effects
  {
    var v := HstsValueAsWritten(maxAgeSecs, includeSubdomains, preload);
    assert v == Itoa(maxAgeSecs) + Directives(includeSubdomains, preload);
  }
}
