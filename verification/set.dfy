/** set.go: a mutable set of comparable values (a Go `map[T]struct{}`). */
module Sets {
  import opened Seqs

  /** A Go `KeyFn[T, K]`: extracts a key from a value. */
  type KeyFn<!T, K> = T -> K

  /** A Go `Set[T]`. The Go type is a map, so every holder of a `Set` shares its
      contents; the model is therefore a class whose one field is the member set. */
  class Set<T(==)> {
    var items: set<T>

    /** `make(Set[T], n)`: a fresh empty set (the capacity hint has no effect on contents). */
    constructor Empty()
      ensures items == {}
    {
      items := {};
    }

    /** `s.Add(v)`: afterwards `v` is a member; no other membership changes. */
    method Add(v: T)
      modifies this
      ensures items == old(items) + {v}
    {
      items := items + {v};
    }

    /** `s.Contains(v)`. */
    predicate Contains(v: T)
      reads this
      ensures Contains(v) <==> v in items
    {
      v in items
    }

    /** `s.Delete(v)`: afterwards `v` is not a member; no other membership changes. */
    method Delete(v: T)
      modifies this
      ensures items == old(items) - {v}
    {
      items := items - {v};
    }

    /** `s.Len()`: the number of members. */
    function Len(): (n: nat)
      reads this
      ensures n == |items|
    {
      |items|
    }

    /** `s.Copy()`: a fresh set with the same members; being fresh, later changes to
        the copy cannot reach this set. */
    method Copy() returns (ret: Set<T>)
      ensures fresh(ret) && ret.items == items
    {
      ret := new Set.Empty();
      var rest := items;
      while rest != {}
        invariant rest <= items
        invariant fresh(ret) && ret.items == items - rest
        decreases rest
      {
        var k :| k in rest;
        ret.Add(k);
        rest := rest - {k};
      }
    }

    /** `s.Intersect(s2)`: a fresh set of the members of both; neither input changes. */
    method Intersect(s2: Set<T>) returns (ret: Set<T>)
      ensures fresh(ret) && ret.items == items * s2.items
    {
      ret := new Set.Empty();
      var rest := items;
      while rest != {}
        invariant rest <= items
        invariant fresh(ret) && ret.items == (items - rest) * s2.items
        decreases rest
      {
        var k :| k in rest;
        if s2.Contains(k) {
          ret.Add(k);
        }
        rest := rest - {k};
      }
    }

    /** `s.Subtract(s2)`: a fresh set of the members of `s` not in `s2`; neither input changes. */
    method Subtract(s2: Set<T>) returns (ret: Set<T>)
      ensures fresh(ret) && ret.items == items - s2.items
    {
      ret := new Set.Empty();
      var rest := items;
      while rest != {}
        invariant rest <= items
        invariant fresh(ret) && ret.items == (items - rest) - s2.items
        decreases rest
      {
        var k :| k in rest;
        if !s2.Contains(k) {
          ret.Add(k);
        }
        rest := rest - {k};
      }
    }

    /** `s.Union(s2)`: a fresh set of the members of either; neither input changes. */
    method Union(s2: Set<T>) returns (ret: Set<T>)
      ensures fresh(ret) && ret.items == items + s2.items
    {
      ret := new Set.Empty();
      var rest := items;
      while rest != {}
        invariant rest <= items
        invariant fresh(ret) && ret.items == items - rest
        decreases rest
      {
        var k :| k in rest;
        ret.Add(k);
        rest := rest - {k};
      }
      rest := s2.items;
      while rest != {}
        invariant rest <= s2.items
        invariant fresh(ret) && ret.items == items + (s2.items - rest)
        decreases rest
      {
        var k :| k in rest;
        ret.Add(k);
        rest := rest - {k};
      }
    }

    /** `s.Difference(s2)`: the same loop as `Subtract`, hence the same result for
        every pair of inputs. */
    method Difference(s2: Set<T>) returns (ret: Set<T>)
      ensures fresh(ret) && ret.items == items - s2.items
    {
      ret := new Set.Empty();
      var rest := items;
      while rest != {}
        invariant rest <= items
        invariant fresh(ret) && ret.items == (items - rest) - s2.items
        decreases rest
      {
        var k :| k in rest;
        if !s2.Contains(k) {
          ret.Add(k);
        }
        rest := rest - {k};
      }
    }

    /** `s.Slice()`: every member exactly once, in an unspecified order. */
    method Slice() returns (ret: seq<T>)
      ensures forall x :: x in ret <==> x in items
      ensures Distinct(ret) && |ret| == Len()
    {
      ret := [];
      var rest := items;
      while rest != {}
        invariant rest <= items && Distinct(ret)
        invariant forall x :: x in ret <==> x in items && x !in rest
        decreases rest
      {
        var k :| k in rest;
        DistinctSnoc(ret, k);
        ret := ret + [k];
        rest := rest - {k};
      }
      DistinctCard(ret, items);
    }
  }

  /** `NewSet(slice)`: a fresh set of exactly the elements of the slice. */
  method NewSet<T(==)>(slice: seq<T>) returns (s: Set<T>)
    ensures fresh(s) && s.items == set x | x in slice
  {
    s := new Set.Empty();
    for i := 0 to |slice|
      invariant fresh(s) && s.items == set x | x in slice[..i]
    {
      assert slice[..i + 1] == slice[..i] + [slice[i]];
      s.Add(slice[i]);
    }
    assert slice[..|slice|] == slice;
  }

  /** `NewSetFunc(slice, keyFn)`: a fresh set of exactly the keys of the elements. */
  method NewSetFunc<T, K(==)>(slice: seq<T>, keyFn: KeyFn<T, K>) returns (s: Set<K>)
    ensures fresh(s) && s.items == set v | v in slice :: keyFn(v)
  {
    s := new Set.Empty();
    for i := 0 to |slice|
      invariant fresh(s) && s.items == set v | v in slice[..i] :: keyFn(v)
    {
      assert slice[..i + 1] == slice[..i] + [slice[i]];
      s.Add(keyFn(slice[i]));
    }
    assert slice[..|slice|] == slice;
  }
}
