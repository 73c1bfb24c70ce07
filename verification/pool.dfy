/** pool.go: a round-robin cursor over a fixed list of items. */
module Pools {

  /** The cursor after `k` calls on `n` items: it starts at 0 and every call moves it
      one step forward, wrapping to 0 after the last item. */
  function Cursor(n: nat, k: nat): (r: nat)
    requires n > 0
    ensures r < n
  {
    if k == 0 then 0 else (Cursor(n, k - 1) + 1) % n
  }

  lemma MulAtLeast(a: int, n: int)
    requires a >= 1 && n > 0
    ensures a * n >= n
  {
    if a > 1 {
      MulAtLeast(a - 1, n);
      assert a * n == (a - 1) * n + n;
    }
  }

  /** Euclidean division is unique: `q * n + r` with `0 <= r < n` has remainder `r`. */
  lemma DivModUnique(n: int, x: int, q: int, r: int)
    requires n > 0 && 0 <= r < n && x == q * n + r
    ensures x % n == r && x / n == q
  {
    var q', r' := x / n, x % n;
    assert x == q' * n + r';
    assert (q - q') * n == r' - r by { assert (q - q') * n == q * n - q' * n; }
    assert (q' - q) * n == r - r' by { assert (q' - q) * n == q' * n - q * n; }
    if q - q' >= 1 {
      MulAtLeast(q - q', n);
    } else if q' - q >= 1 {
      MulAtLeast(q' - q, n);
    }
  }

  /** One step of `k mod n`: it moves one forward, wrapping to 0 after `n - 1`. */
  lemma ModStep(n: nat, k: nat)
    requires n > 0
    ensures (k + 1) % n == (k % n + 1) % n
  {
    var q, r := k / n, k % n;
    assert k == q * n + r;
    if r + 1 == n {
      assert k + 1 == (q + 1) * n + 0;
      DivModUnique(n, k + 1, q + 1, 0);
      DivModUnique(n, r + 1, 1, 0);
    } else {
      DivModUnique(n, k + 1, q, r + 1);
      DivModUnique(n, r + 1, 0, r + 1);
    }
  }

  /** The cursor after `k` calls is `k mod n`. */
  lemma {:induction false} CursorIsMod(n: nat, k: nat)
    requires n > 0
    ensures Cursor(n, k) == k % n
  {
    if k > 0 {
      var j := k - 1;
      var c := Cursor(n, j);
      CursorIsMod(n, j);
      ModStep(n, j);
      assert Cursor(n, j + 1) == (c + 1) % n;
    }
  }

  lemma ModPeriodic(n: nat, k: nat)
    requires n > 0
    ensures (k + n) % n == k % n
  {
    var q, r := k / n, k % n;
    assert k == q * n + r;
    assert (q + 1) * n == q * n + n;
    DivModUnique(n, k + n, q + 1, r);
  }

  /** After a full round of `n` calls the cursor is back where it was; in particular
      it is back at 0 after the first `n` calls. */
  lemma CursorPeriodic(n: nat, k: nat)
    requires n > 0
    ensures Cursor(n, k + n) == Cursor(n, k)
    ensures Cursor(n, n) == 0
  {
    CursorIsMod(n, k);
    CursorIsMod(n, k + n);
    CursorIsMod(n, n);
    ModPeriodic(n, k);
    ModPeriodic(n, 0);
  }

  /** The closure `RoundRobin(items)` returns, with its captured cursor `idx`. */
  class RoundRobin<T> {
    const items: seq<T>
    var idx: nat
    /** How many times the closure has been called. */
    ghost var calls: nat

    ghost predicate Valid()
      reads this
    {
      |items| > 0 ==> idx == Cursor(|items|, calls)
    }

    /** `RoundRobin(items)`: the cursor starts at 0. Building it never faults, even on
        an empty slice; only calling it does. */
    constructor (items: seq<T>)
      ensures Valid() && this.items == items && idx == 0 && calls == 0
    {
      this.items := items;
      idx := 0;
      calls := 0;
    }

    /** One call of the closure: the item under the cursor, then the cursor moves on.
        With no items the index `items[idx]` is out of range, so callers must supply
        at least one item. The k-th call (from 0) returns `items[k mod len(items)]`. */
    method Next() returns (item: T)
      requires Valid() && |items| > 0
      modifies this
      ensures Valid() && calls == old(calls) + 1
      ensures item == items[old(calls) % |items|]
      ensures idx == (old(idx) + 1) % |items| && idx < |items|
    {
      var n := |items|;
      CursorIsMod(n, calls);
      CursorIsMod(n, calls + 1);
      assert Cursor(n, calls + 1) == (idx + 1) % n;
      item := items[idx];
      idx := (idx + 1) % n;
      calls := calls + 1;
    }
  }
}
