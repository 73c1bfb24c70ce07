/** slice_filter.go: keep the elements a predicate accepts, in order. */
module SliceFilter {
  import opened Filters

  /** The specification of `Filter`: the accepted elements in their original order. */
  function Filtered<T>(s: seq<T>, fn: FilterFn<T>): seq<T>
  {
    if s == [] then []
    else Filtered(s[..|s| - 1], fn) + (if fn(s[|s| - 1]) then [s[|s| - 1]] else [])
  }

  /** The loop of `Filter`: append every accepted element to a fresh slice. */
  method Filter<T>(slice: seq<T>, fn: FilterFn<T>) returns (ret: seq<T>)
    ensures ret == Filtered(slice, fn)
  {
    ret := [];
    for i := 0 to |slice|
      invariant ret == Filtered(slice[..i], fn)
    {
      assert slice[..i + 1][..i] == slice[..i];
      if fn(slice[i]) {
        ret := ret + [slice[i]];
      }
    }
    assert slice[..|slice|] == slice;
  }

  /** `NewSliceFilter`: a reusable closure that filters any slice with `fn`. */
  function NewSliceFilter<T(!new)>(fn: FilterFn<T>): (f: seq<T> -> seq<T>)
    ensures forall s :: f(s) == Filtered(s, fn)
  {
    s => Filtered(s, fn)
  }

  lemma {:induction false} FilteredAppend<T>(a: seq<T>, b: seq<T>, fn: FilterFn<T>)
    ensures Filtered(a + b, fn) == Filtered(a, fn) + Filtered(b, fn)
    decreases |b|
  {
    if b == [] {
      assert a + b == a;
    } else {
      var b' := b[..|b| - 1];
      assert (a + b)[..|a + b| - 1] == a + b';
      FilteredAppend(a, b', fn);
    }
  }

  /** The output is exactly the accepted input elements: every output element is an
      accepted input element, every accepted input element is output, and nothing is
      output more often than it occurs. */
  lemma {:induction false} FilteredMembers<T>(s: seq<T>, fn: FilterFn<T>)
    ensures |Filtered(s, fn)| <= |s|
    ensures forall x :: x in Filtered(s, fn) <==> x in s && fn(x)
    ensures multiset(Filtered(s, fn)) <= multiset(s)
  {
    if s != [] {
      var p := s[..|s| - 1];
      FilteredMembers(p, fn);
      assert s == p + [s[|s| - 1]];
    }
  }

  /** Order is preserved: the output is a subsequence of the input, witnessed by a
      strictly increasing choice of input positions. */
  lemma {:induction false} FilteredIsSubsequence<T>(s: seq<T>, fn: FilterFn<T>)
    returns (pos: seq<nat>)
    ensures |pos| == |Filtered(s, fn)|
    ensures forall j :: 0 <= j < |pos| ==> pos[j] < |s| && s[pos[j]] == Filtered(s, fn)[j]
    ensures forall j, k :: 0 <= j < k < |pos| ==> pos[j] < pos[k]
  {
    if s == [] {
      pos := [];
    } else {
      var n := |s| - 1;
      var p := s[..n];
      pos := FilteredIsSubsequence(p, fn);
      if fn(s[n]) {
        pos := pos + [n];
      }
    }
  }

  /** Filtering twice with the same predicate is filtering once. */
  lemma {:induction false} FilteredIdempotent<T>(s: seq<T>, fn: FilterFn<T>)
    ensures Filtered(Filtered(s, fn), fn) == Filtered(s, fn)
  {
    if s != [] {
      var n := |s| - 1;
      FilteredIdempotent(s[..n], fn);
      var tail := if fn(s[n]) then [s[n]] else [];
      FilteredAppend(Filtered(s[..n], fn), tail, fn);
      if fn(s[n]) {
        assert Filtered(tail, fn) == Filtered([], fn) + [s[n]];
      }
    }
  }
}
