/** map.go: index a slice by a key function. */
module Maps {
  import opened Sets

  /** The specification of `NewMapFunc`: insert `keyFn(v) -> v` for every element in
      slice order, so a later element replaces an earlier one with the same key. */
  function Indexed<T, K>(s: seq<T>, keyFn: KeyFn<T, K>): map<K, T>
  {
    if s == [] then map[] else Indexed(s[..|s| - 1], keyFn)[keyFn(s[|s| - 1]) := s[|s| - 1]]
  }

  /** The loop of `NewMapFunc`. */
  method NewMapFunc<T, K>(slice: seq<T>, keyFn: KeyFn<T, K>) returns (m: map<K, T>)
    ensures m == Indexed(slice, keyFn)
  {
    m := map[];
    for i := 0 to |slice|
      invariant m == Indexed(slice[..i], keyFn)
    {
      assert slice[..i + 1][..i] == slice[..i];
      m := m[keyFn(slice[i]) := slice[i]];
    }
    assert slice[..|slice|] == slice;
  }

  /** The keys of the result are exactly the keys of the elements. */
  lemma {:induction false} IndexedKeys<T, K>(s: seq<T>, keyFn: KeyFn<T, K>)
    ensures Indexed(s, keyFn).Keys == set i | 0 <= i < |s| :: keyFn(s[i])
  {
    if s != [] {
      var n := |s| - 1;
      var p := s[..n];
      IndexedKeys(p, keyFn);
      var ks := set i | 0 <= i < |s| :: keyFn(s[i]);
      var kp := set i | 0 <= i < |p| :: keyFn(p[i]);
      forall k | k in ks ensures k in kp + {keyFn(s[n])} {
        var i :| 0 <= i < |s| && keyFn(s[i]) == k;
        if i < n { assert keyFn(p[i]) == k; }
      }
      forall k | k in kp ensures k in ks {
        var i :| 0 <= i < |p| && keyFn(p[i]) == k;
        assert keyFn(s[i]) == k;
      }
      assert ks == kp + {keyFn(s[n])};
    }
  }

  /** Each key maps to the LAST element of the slice that has it. */
  lemma {:induction false} IndexedLastWins<T, K>(s: seq<T>, keyFn: KeyFn<T, K>, i: nat)
    requires i < |s|
    requires forall j :: i < j < |s| ==> keyFn(s[j]) != keyFn(s[i])
    ensures keyFn(s[i]) in Indexed(s, keyFn) && Indexed(s, keyFn)[keyFn(s[i])] == s[i]
  {
    var n := |s| - 1;
    if i < n {
      var p := s[..n];
      forall j | i < j < |p| ensures keyFn(p[j]) != keyFn(p[i]) {
        assert p[j] == s[j];
      }
      IndexedLastWins(p, keyFn, i);
      assert p[i] == s[i];
    }
  }

  /** At most one entry per element, and exactly one when all keys are distinct. */
  lemma {:induction false} IndexedSize<T, K>(s: seq<T>, keyFn: KeyFn<T, K>)
    ensures |Indexed(s, keyFn)| <= |s|
    ensures (forall i, j :: 0 <= i < j < |s| ==> keyFn(s[i]) != keyFn(s[j]))
            ==> |Indexed(s, keyFn)| == |s|
  {
    if s != [] {
      var n := |s| - 1;
      var p := s[..n];
      IndexedSize(p, keyFn);
      if forall i, j :: 0 <= i < j < |s| ==> keyFn(s[i]) != keyFn(s[j]) {
        IndexedKeys(p, keyFn);
        forall i | 0 <= i < |p| ensures keyFn(p[i]) != keyFn(s[n]) {
          assert p[i] == s[i];
        }
        assert keyFn(s[n]) !in Indexed(p, keyFn);
      }
    }
  }
}
