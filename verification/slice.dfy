/** slice.go: the `Slice[T]` named slice type and its methods. */
module Slices {
  import opened Filters
  import SliceFilter

  /** A Go `Slice[T]` (a named `[]T`). */
  type Slice<T> = seq<T>

  /** `NewSlice(items...)`: the variadic arguments themselves, as a slice. */
  function NewSlice<T>(items: seq<T>): (r: Slice<T>)
    ensures |r| == |items| && forall i :: 0 <= i < |r| ==> r[i] == items[i]
  {
    items
  }

  /** `s.Filter(fn)`: delegates to the package-level `Filter`. */
  method Filter<T>(s: Slice<T>, fn: FilterFn<T>) returns (r: Slice<T>)
    ensures r == SliceFilter.Filtered(s, fn)
  {
    r := SliceFilter.Filter(s, fn);
  }

  /** The specification of `Reverse`: the elements in opposite order. */
  function Reversed<T>(s: seq<T>): seq<T>
  {
    if s == [] then [] else [s[|s| - 1]] + Reversed(s[..|s| - 1])
  }

  /** Same length, and position `i` holds the element at the mirrored position. */
  lemma {:induction false} ReversedAt<T>(s: seq<T>)
    ensures |Reversed(s)| == |s|
    ensures forall i :: 0 <= i < |s| ==> Reversed(s)[i] == s[|s| - 1 - i]
  {
    if s != [] {
      ReversedAt(s[..|s| - 1]);
    }
  }

  /** Reversing twice gives back the original slice. */
  lemma ReversedTwice<T>(s: seq<T>)
    ensures Reversed(Reversed(s)) == s
  {
    ReversedAt(s);
    ReversedAt(Reversed(s));
  }

  /** `s.Reverse()`: clone the slice, then reverse the clone in place by swapping
      mirrored positions. The receiver is a value and stays as it was. */
  method Reverse<T>(s: Slice<T>) returns (ret: Slice<T>)
    ensures ret == Reversed(s)
  {
    var a := new T[|s|](i requires 0 <= i < |s| => s[i]);
    var n := a.Length;
    var i := 0;
    while i < n / 2
      invariant 0 <= i <= n / 2
      invariant forall k :: 0 <= k < i ==> a[k] == s[n - 1 - k] && a[n - 1 - k] == s[k]
      invariant forall k :: i <= k < n - i ==> a[k] == s[k]
    {
      a[i], a[n - 1 - i] := a[n - 1 - i], a[i];
      i := i + 1;
    }
    ret := a[..];
    ReversedAt(s);
  }
}
