/** middleware.go: folding a value through a list of wrappers. */
module Middlewares {

  /** A Go `Middleware[T]`: a transformation of a value of type T. */
  type Middleware<!T> = T -> T

  /** The specification of `WithMiddleware`: `ms[n-1](... ms[0](v))`, so the first
      listed middleware is applied first (innermost). */
  function Wrapped<T>(v: T, ms: seq<Middleware<T>>): T
  {
    if ms == [] then v else ms[|ms| - 1](Wrapped(v, ms[..|ms| - 1]))
  }

  /** The loop of `WithMiddleware`: `v = mw(v)` for every middleware in order. */
  method WithMiddleware<T>(v: T, middleware: seq<Middleware<T>>) returns (r: T)
    ensures r == Wrapped(v, middleware)
    ensures middleware == [] ==> r == v
  {
    r := v;
    for i := 0 to |middleware|
      invariant r == Wrapped(v, middleware[..i])
    {
      assert middleware[..i + 1][..i] == middleware[..i];
      r := middleware[i](r);
    }
    assert middleware[..|middleware|] == middleware;
  }

  /** Adding one middleware at the end wraps the previous result once more. */
  lemma WrappedSnoc<T>(v: T, ms: seq<Middleware<T>>, m: Middleware<T>)
    ensures Wrapped(v, ms + [m]) == m(Wrapped(v, ms))
  {
    assert (ms + [m])[..|ms + [m]| - 1] == ms;
  }

  /** Wrapping with `a + b` is wrapping with `a`, then with `b`. */
  lemma {:induction false} WrappedAppend<T>(v: T, a: seq<Middleware<T>>, b: seq<Middleware<T>>)
    ensures Wrapped(v, a + b) == Wrapped(Wrapped(v, a), b)
    decreases |b|
  {
    if b == [] {
      assert a + b == a;
    } else {
      var b' := b[..|b| - 1];
      assert (a + b)[..|a + b| - 1] == a + b';
      WrappedAppend(v, a, b');
    }
  }

  /** The first-listed middleware is innermost: it sees `v` itself, and the rest wrap it. */
  lemma WrappedFirstInnermost<T>(v: T, m: Middleware<T>, rest: seq<Middleware<T>>)
    ensures Wrapped(v, [m] + rest) == Wrapped(m(v), rest)
  {
    WrappedAppend(v, [m], rest);
    assert Wrapped(v, [m]) == m(Wrapped(v, []));
  }
}
