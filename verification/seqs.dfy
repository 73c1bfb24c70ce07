/** Facts about lists without repetitions, shared by the operations that enumerate a
    set or the keys of a map. */
module Seqs {

  /** No element occurs twice. */
  ghost predicate Distinct<T>(s: seq<T>)
  {
    forall i, j | 0 <= i < j < |s| :: s[i] != s[j]
  }

  lemma DistinctSnoc<T>(s: seq<T>, x: T)
    requires Distinct(s) && x !in s
    ensures Distinct(s + [x])
  {
  }

  /** A list without repetitions that holds exactly the members of a set is as long
      as the set is large. */
  lemma {:induction false} DistinctCard<T>(s: seq<T>, members: set<T>)
    requires Distinct(s)
    requires forall x :: x in s <==> x in members
    ensures |s| == |members|
  {
    if s != [] {
      var n := |s| - 1;
      var p := s[..n];
      forall y ensures y in p <==> y in members - {s[n]} {
        if y in p {
          var i :| 0 <= i < n && p[i] == y;
          assert s[i] == y;
        }
      }
      DistinctCard(p, members - {s[n]});
    }
  }
}
