/** slice_map.go: apply a function to every element of a slice. */
module SliceMap {

  /** A Go `MapperFn[In, Out]`. */
  type MapperFn<!I, O> = I -> O

  /** The specification of `Map`: the images of the elements, in order. */
  function Mapped<I, O>(s: seq<I>, fn: MapperFn<I, O>): seq<O>
  {
    if s == [] then [] else Mapped(s[..|s| - 1], fn) + [fn(s[|s| - 1])]
  }

  /** Position by position, `Mapped` holds the image of the input element. */
  lemma {:induction false} MappedAt<I, O>(s: seq<I>, fn: MapperFn<I, O>)
    ensures |Mapped(s, fn)| == |s|
    ensures forall i :: 0 <= i < |s| ==> Mapped(s, fn)[i] == fn(s[i])
  {
    if s != [] {
      MappedAt(s[..|s| - 1], fn);
    }
  }

  /** The loop of `Map`: append `fn(s)` for every element `s`. */
  method Map<I, O>(slice: seq<I>, fn: MapperFn<I, O>) returns (ret: seq<O>)
    ensures ret == Mapped(slice, fn)
  {
    ret := [];
    for i := 0 to |slice|
      invariant ret == Mapped(slice[..i], fn)
    {
      assert slice[..i + 1][..i] == slice[..i];
      ret := ret + [fn(slice[i])];
    }
    assert slice[..|slice|] == slice;
  }

  /** Mapping with `f` and then with `g` is mapping once with their composition. */
  lemma MappedCompose<A, B, C>(s: seq<A>, f: MapperFn<A, B>, g: MapperFn<B, C>)
    ensures Mapped(Mapped(s, f), g) == Mapped(s, x => g(f(x)))
  {
    MappedAt(s, f);
    MappedAt(Mapped(s, f), g);
    MappedAt(s, x => g(f(x)));
  }

  /** `NewSliceMapper`: a reusable closure that maps any slice with `fn`. */
  function NewSliceMapper<I(!new), O>(fn: MapperFn<I, O>): (f: seq<I> -> seq<O>)
    ensures forall s :: |f(s)| == |s|
    ensures forall s, i :: 0 <= i < |s| ==> f(s)[i] == fn(s[i])
  {
    MappedAtAll(fn);
    s => Mapped(s, fn)
  }

  lemma MappedAtAll<I(!new), O>(fn: MapperFn<I, O>)
    ensures forall s: seq<I> :: |Mapped(s, fn)| == |s|
    ensures forall s: seq<I>, i :: 0 <= i < |s| ==> Mapped(s, fn)[i] == fn(s[i])
  {
    forall s: seq<I> ensures |Mapped(s, fn)| == |s| && forall i :: 0 <= i < |s| ==> Mapped(s, fn)[i] == fn(s[i]) {
      MappedAt(s, fn);
    }
  }
}
