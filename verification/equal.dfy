/** equal.go: turning a binary equality into a filter for one target. */
module Equals {
  import opened Filters
  import SliceFilter

  /** A Go `EqualFn[T]`. */
  type EqualFn<!T> = (T, T) -> bool

  /** `fn.NewFilter(target)`: accepts `v` iff `fn(target, v)`; the target is passed
      first, the candidate second. */
  function NewFilter<T(!new)>(fn: EqualFn<T>, target: T): (r: FilterFn<T>)
    ensures forall v :: r(v) == fn(target, v)
  {
    v => fn(target, v)
  }

  /** Filtering a slice with `fn.NewFilter(t)` keeps exactly the elements `v` with
      `fn(t, v)`, in their original order. */
  lemma {:induction false} FilterByTarget<T(!new)>(s: seq<T>, fn: EqualFn<T>, t: T)
    ensures SliceFilter.Filtered(s, NewFilter(fn, t))
         == if s == [] then []
            else SliceFilter.Filtered(s[..|s| - 1], NewFilter(fn, t))
                 + (if fn(t, s[|s| - 1]) then [s[|s| - 1]] else [])
    ensures forall v :: v in SliceFilter.Filtered(s, NewFilter(fn, t)) <==> v in s && fn(t, v)
  {
    SliceFilter.FilteredMembers(s, NewFilter(fn, t));
  }
}
