/**
 * The neo chain builder (app/neo/builder/builder.go): middlewares are collected in order and
 * composed in reverse, so the first middleware added is the outermost.
 */
module Builder {
  import opened Wrappers
  import opened Http
  import HandlerConv
  import MiddlewareConv

  /** The handler M0(M1(…Mn-1(t))). */
  function Compose(ms: seq<Middleware>, t: Handler): Handler
    decreases |ms|
  {
    if |ms| == 0 then t else ms[0](Compose(ms[1..], t))
  }

  /** Composing a concatenation nests the second chain inside the first. */
  lemma {:induction false} ComposeAppend(a: seq<Middleware>, b: seq<Middleware>, t: Handler)
    ensures Compose(a + b, t) == Compose(a, Compose(b, t))
    decreases |a|
  {
    if |a| == 0 {
      assert a + b == b;
    } else {
      assert (a + b)[1..] == a[1..] + b;
      ComposeAppend(a[1..], b, t);
    }
  }

  /** The terminal handler of a build: the one set, or the adapter of the default mux. */
  function Terminal(handler: Option<Handler>, defaultMux: HttpHandler): (t: Handler)
    ensures handler.Some? ==> t == handler.value
    ensures handler.None? ==> t == HandlerConv.FromHttp(defaultMux)
  {
    if handler.Some? then handler.value else HandlerConv.FromHttp(defaultMux)
  }

  class ChainBuilder {
    var chain: seq<Middleware>
    var handler: Option<Handler>

    /** Create: the given middlewares in order, no handler. */
    constructor Create(middlewares: seq<Middleware>)
      ensures chain == middlewares && handler.None?
    {
      chain := middlewares;
      handler := None;
    }

    /** Add: appends in order; returns the same builder. */
    method Add(m: seq<Middleware>) returns (b: ChainBuilder)
      modifies this
      ensures chain == old(chain) + m && handler == old(handler)
      ensures b == this
    {
      chain := chain + m;
      b := this;
    }

    /** AddSimple: each simple middleware is wrapped with FromSimple, in order, and appended. */
    method AddSimple(m: seq<MiddlewareConv.SimpleMiddleware>) returns (b: ChainBuilder)
      modifies this
      ensures |chain| == |old(chain)| + |m| && chain[..|old(chain)|] == old(chain)
      ensures forall i :: 0 <= i < |m| ==> chain[|old(chain)| + i] == MiddlewareConv.FromSimple(m[i])
      ensures handler == old(handler)
      ensures b == this
    {
      var s: seq<Middleware> := [];
      for i := 0 to |m|
        invariant |s| == i
        invariant forall j :: 0 <= j < i ==> s[j] == MiddlewareConv.FromSimple(m[j])
      {
        s := s + [MiddlewareConv.FromSimple(m[i])];
      }
      chain := chain + s;
      b := this;
    }

    /** Handler: sets the terminal handler; a later call replaces an earlier one. */
    method Handler(finalHandler: Handler) returns (b: ChainBuilder)
      modifies this
      ensures handler == Some(finalHandler) && chain == old(chain)
      ensures b == this
    {
      handler := Some(finalHandler);
      b := this;
    }

    /**
     * Build: starts from the terminal handler and wraps it with the middlewares from the last
     * to the first. The builder is not changed.
     */
    method Build(defaultMux: HttpHandler) returns (h: Handler)
      ensures h == Compose(chain, Terminal(handler, defaultMux))
    {
      var t := Terminal(handler, defaultMux);
      h := t;
      var mx := chain;
      var n := |mx|;
      for i := 0 to n
        invariant h == Compose(mx[n - i..], t)
      {
        assert mx[n - 1 - i..][1..] == mx[n - i..];
        h := mx[n - 1 - i](h);
      }
      assert mx[n - n..] == mx;
    }

    /** BuildHttpFactory: ToHttpFactory of the built handler. */
    method BuildHttpFactory(defaultMux: HttpHandler, errorHandler: Option<ErrorSink>)
      returns (f: Exchange -> HttpHandler)
      ensures f == HandlerConv.ToHttpFactory(Compose(chain, Terminal(handler, defaultMux)), errorHandler)
    {
      var h := Build(defaultMux);
      f := HandlerConv.ToHttpFactory(h, errorHandler);
    }
  }

  /** An empty chain builds the terminal itself. */
  lemma EmptyChainIsTerminal(t: Handler)
    ensures Compose([], t) == t
  {
  }

  // ---------------------------------------------------------------------------------------------
  // Ordering and short-circuit laws, stated over middlewares that leave a trace.

  /** A middleware that marks `tag` on entry and `tag + "/out"` on exit and passes the error through. */
  function Traced(tag: string): Middleware {
    (next: Handler) => (x: Exchange) =>
      match next(Exchange(x.r, Emit(x.s, Mark(tag))))
      case Returned(s, err) => Returned(Emit(s, Mark(tag + "/out")), err)
      case Panicked(s, v) => Panicked(s, v)
  }

  function TracedChain(tags: seq<string>): (ms: seq<Middleware>)
    ensures |ms| == |tags|
  {
    if |tags| == 0 then [] else [Traced(tags[0])] + TracedChain(tags[1..])
  }

  /** The entry marks, in order. */
  function Ins(tags: seq<string>): (es: seq<Effect>)
    ensures |es| == |tags|
    ensures forall i :: 0 <= i < |tags| ==> es[i] == Mark(tags[i])
  {
    if |tags| == 0 then [] else [Mark(tags[0])] + Ins(tags[1..])
  }

  /** The exit marks, last tag first. */
  function Outs(tags: seq<string>): (es: seq<Effect>)
    ensures |es| == |tags|
    ensures forall i :: 0 <= i < |tags| ==> es[i] == Mark(tags[|tags| - 1 - i] + "/out")
  {
    if |tags| == 0 then [] else Outs(tags[1..]) + [Mark(tags[0] + "/out")]
  }

  /**
   * Ordering law: for a chain of traced middlewares around an inner handler that appends the
   * effects `inner` and returns `err` whatever the state, the entries are M0..Mn-1, then the
   * inner handler, then the exits in reverse; the inner handler's error comes out unchanged.
   */
  lemma {:induction false} ChainOrder(tags: seq<string>, t: Handler, inner: seq<Effect>, err: Option<Error>, x: Exchange)
    requires forall s: Shared :: t(Exchange(x.r, s)) == Returned(EmitAll(s, inner), err)
    ensures Compose(TracedChain(tags), t)(x) == Returned(EmitAll(x.s, Ins(tags) + inner + Outs(tags)), err)
    decreases |tags|
  {
    if |tags| == 0 {
      assert x == Exchange(x.r, x.s);
      assert Ins(tags) + inner + Outs(tags) == inner;
    } else {
      var ms := TracedChain(tags);
      assert ms[1..] == TracedChain(tags[1..]);
      var rest := Compose(ms[1..], t);
      assert Compose(ms, t) == Traced(tags[0])(rest);
      var x1 := Exchange(x.r, Emit(x.s, Mark(tags[0])));
      ChainOrder(tags[1..], t, inner, err, x1);
      var mid := Ins(tags[1..]) + inner + Outs(tags[1..]);
      assert rest(x1) == Returned(EmitAll(x1.s, mid), err);
      assert Compose(ms, t)(x) == Returned(Emit(EmitAll(x1.s, mid), Mark(tags[0] + "/out")), err);
      EmitAround(x.s, Mark(tags[0]), mid, Mark(tags[0] + "/out"));
      assert Ins(tags) + inner + Outs(tags) == [Mark(tags[0])] + mid + [Mark(tags[0] + "/out")];
    }
  }

  lemma EmitAround(s: Shared, a: Effect, es: seq<Effect>, b: Effect)
    ensures Emit(EmitAll(Emit(s, a), es), b) == EmitAll(s, [a] + es + [b])
  {
    assert s.effects + [a] + es + [b] == s.effects + ([a] + es + [b]);
  }

  /** A middleware that never calls its next handler: it always runs h instead. */
  function ShortCircuit(h: Handler): Middleware {
    (next: Handler) => h
  }

  /**
   * Short-circuit law: once a middleware does not call next, neither the middlewares after it
   * nor the terminal handler matter — the built handler is the same for any of them.
   */
  lemma ShortCircuitIgnoresRest(pre: seq<Middleware>, h: Handler,
                                post1: seq<Middleware>, t1: Handler, post2: seq<Middleware>, t2: Handler)
    ensures Compose(pre + [ShortCircuit(h)] + post1, t1) == Compose(pre, h)
    ensures Compose(pre + [ShortCircuit(h)] + post1, t1) == Compose(pre + [ShortCircuit(h)] + post2, t2)
  {
    forall post: seq<Middleware>, t: Handler
      ensures Compose(pre + [ShortCircuit(h)] + post, t) == Compose(pre, h)
    {
      assert pre + [ShortCircuit(h)] + post == pre + ([ShortCircuit(h)] + post);
      ComposeAppend(pre, [ShortCircuit(h)] + post, t);
      assert Compose([ShortCircuit(h)] + post, t) == ShortCircuit(h)(Compose(post, t));
    }
  }

  /** A handler that marks `tag` and fails with e. */
  function FailWith(tag: string, e: Error): Handler {
    (x: Exchange) => Returned(Emit(x.s, Mark(tag)), Some(e))
  }

  /**
   * Short-circuit with a trace: traced middlewares before a middleware that fails with e enter and
   * exit around it, nothing after it runs, and e is what the built handler returns.
   */
  lemma ShortCircuitTrace(tags: seq<string>, tag: string, e: Error, post: seq<Middleware>, t: Handler, x: Exchange)
    ensures Compose(TracedChain(tags) + [ShortCircuit(FailWith(tag, e))] + post, t)(x)
         == Returned(EmitAll(x.s, Ins(tags) + [Mark(tag)] + Outs(tags)), Some(e))
  {
    ShortCircuitIgnoresRest(TracedChain(tags), FailWith(tag, e), post, t, [], t);
    forall s: Shared ensures FailWith(tag, e)(Exchange(x.r, s)) == Returned(EmitAll(s, [Mark(tag)]), Some(e)) {
    }
    ChainOrder(tags, FailWith(tag, e), [Mark(tag)], Some(e), x);
  }
}
