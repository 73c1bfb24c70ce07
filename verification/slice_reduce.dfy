/** slice_reduce.go: a left fold over a slice. */
module SliceReduce {

  /** The specification of `Reduce`: fold the elements into `acc` from left to right. */
  function Folded<I, O>(s: seq<I>, acc: O, fn: (O, I) -> O): O
  {
    if s == [] then acc else fn(Folded(s[..|s| - 1], acc, fn), s[|s| - 1])
  }

  /** The loop of `Reduce`: `acc = fn(acc, s)` for every element in order. */
  method Reduce<I, O>(slice: seq<I>, acc: O, fn: (O, I) -> O) returns (r: O)
    ensures r == Folded(slice, acc, fn)
  {
    r := acc;
    for i := 0 to |slice|
      invariant r == Folded(slice[..i], acc, fn)
    {
      assert slice[..i + 1][..i] == slice[..i];
      r := fn(r, slice[i]);
    }
    assert slice[..|slice|] == slice;
  }

  /** Reducing an empty slice returns the initial accumulator. */
  lemma FoldedEmpty<I, O>(acc: O, fn: (O, I) -> O)
    ensures Folded([], acc, fn) == acc
  {
  }

  /** One more element at the end is one more application of `fn`. */
  lemma FoldedSnoc<I, O>(s: seq<I>, x: I, acc: O, fn: (O, I) -> O)
    ensures Folded(s + [x], acc, fn) == fn(Folded(s, acc, fn), x)
  {
    assert (s + [x])[..|s + [x]| - 1] == s;
  }

  /** Reducing a concatenation is reducing the second part from the first part's result. */
  lemma {:induction false} FoldedAppend<I, O>(a: seq<I>, b: seq<I>, acc: O, fn: (O, I) -> O)
    ensures Folded(a + b, acc, fn) == Folded(b, Folded(a, acc, fn), fn)
    decreases |b|
  {
    if b == [] {
      assert a + b == a;
    } else {
      var b' := b[..|b| - 1];
      assert (a + b)[..|a + b| - 1] == a + b';
      FoldedAppend(a, b', acc, fn);
    }
  }

  /** Elements are consumed left to right, each once: the fold is the chain of
      accumulators acc = a[0], a[i+1] = fn(a[i], s[i]), ending in the result. */
  lemma {:induction false} FoldedSteps<I, O>(s: seq<I>, acc: O, fn: (O, I) -> O)
    returns (accs: seq<O>)
    ensures |accs| == |s| + 1 && accs[0] == acc && accs[|s|] == Folded(s, acc, fn)
    ensures forall i :: 0 <= i < |s| ==> accs[i + 1] == fn(accs[i], s[i])
  {
    if s == [] {
      accs := [acc];
    } else {
      var n := |s| - 1;
      var prev := FoldedSteps(s[..n], acc, fn);
      accs := prev + [fn(prev[n], s[n])];
    }
  }
}
