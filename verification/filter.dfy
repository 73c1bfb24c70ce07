/** filter.go: predicates over values and the combinators that build new ones. */
module Filters {

  /** A Go `FilterFn[T]`. */
  type FilterFn<!T> = T -> bool

  /** `fn.And(fn2)`: accepts what both accept. */
  function And<T(!new)>(fn: FilterFn<T>, fn2: FilterFn<T>): (r: FilterFn<T>)
    ensures forall v :: r(v) <==> fn(v) && fn2(v)
  {
    v => fn(v) && fn2(v)
  }

  /** `fn.Or(fn2)`: accepts what either accepts. */
  function Or<T(!new)>(fn: FilterFn<T>, fn2: FilterFn<T>): (r: FilterFn<T>)
    ensures forall v :: r(v) <==> fn(v) || fn2(v)
  {
    v => fn(v) || fn2(v)
  }

  /** `fn.Not()`: accepts exactly what `fn` rejects. */
  function Not<T(!new)>(fn: FilterFn<T>): (r: FilterFn<T>)
    ensures forall v :: r(v) <==> !fn(v)
  {
    v => !fn(v)
  }

  /** Negating twice gives back a filter that agrees with the original everywhere. */
  lemma NotNot<T(!new)>(fn: FilterFn<T>)
    ensures forall v :: Not(Not(fn))(v) == fn(v)
  {
  }

  /** Some filter of `fns` accepts `v`. */
  ghost predicate SomeAccepts<T>(fns: seq<FilterFn<T>>, v: T)
  {
    exists i :: 0 <= i < |fns| && fns[i](v)
  }

  /** Every filter of `fns` accepts `v`. */
  ghost predicate AllAccept<T>(fns: seq<FilterFn<T>>, v: T)
  {
    forall i :: 0 <= i < |fns| ==> fns[i](v)
  }

  /** The body of the closure `AnyFilter(fns...)` returns: try the filters in order
      and answer true at the first that accepts. */
  method AnyFilterCall<T>(fns: seq<FilterFn<T>>, v: T) returns (b: bool)
    ensures b <==> SomeAccepts(fns, v)
  {
    for i := 0 to |fns|
      invariant forall j :: 0 <= j < i ==> !fns[j](v)
    {
      if fns[i](v) {
        return true;
      }
    }
    return false;
  }

  /** The body of the closure `AllFilter(fns...)` returns: try the filters in order
      and answer false at the first that rejects. */
  method AllFilterCall<T>(fns: seq<FilterFn<T>>, v: T) returns (b: bool)
    ensures b <==> AllAccept(fns, v)
  {
    for i := 0 to |fns|
      invariant forall j :: 0 <= j < i ==> fns[j](v)
    {
      if !fns[i](v) {
        return false;
      }
    }
    return true;
  }

  /** Whether any filter accepts, as a value the closure can return. */
  function AnyAccepts<T>(fns: seq<FilterFn<T>>, v: T): (b: bool)
    ensures b <==> SomeAccepts(fns, v)
  {
    if fns == [] then false else fns[0](v) || AnyAccepts(fns[1..], v)
  }

  /** Whether all filters accept, as a value the closure can return. */
  function AllAccepts<T>(fns: seq<FilterFn<T>>, v: T): (b: bool)
    ensures b <==> AllAccept(fns, v)
  {
    if fns == [] then true else fns[0](v) && AllAccepts(fns[1..], v)
  }

  /** `AnyFilter(fns...)`: accepts iff some filter accepts; with no filters, nothing. */
  function AnyFilter<T(!new)>(fns: seq<FilterFn<T>>): (r: FilterFn<T>)
    ensures forall v :: r(v) <==> SomeAccepts(fns, v)
    ensures fns == [] ==> forall v :: !r(v)
  {
    v => AnyAccepts(fns, v)
  }

  /** `AllFilter(fns...)`: accepts iff every filter accepts; with no filters, everything. */
  function AllFilter<T(!new)>(fns: seq<FilterFn<T>>): (r: FilterFn<T>)
    ensures forall v :: r(v) <==> AllAccept(fns, v)
    ensures fns == [] ==> forall v :: r(v)
  {
    v => AllAccepts(fns, v)
  }
}
