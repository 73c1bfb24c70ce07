/** cache.go, second half: `Cache`, a map from key to cache slot with a cache-wide
    timeout, an optional key-extraction function and an optional keyed generator.

    Storage holds slots as values: `getCacheValue` hands a slot's pointer to its caller,
    who updates it at once, which the model writes as one update of `storage`. Storage
    may hold empty or expired slots (a `GetDefault` creates a slot even when nothing is
    generated); every answer about contents counts only live slots. */
module Caches {
  import opened Wrappers
  import opened CacheEntries
  import Sets
  import opened Seqs

  /** The slot `key` has in `st`, or a fresh empty one when it has none. */
  function SlotAt<K, V>(st: map<K, Slot<V>>, key: K, timeout: nat, zero: V): (r: Slot<V>)
    ensures key !in st ==> forall now :: !Live(r, now)
  {
    if key in st then st[key] else Empty(timeout, zero)
  }

  /** The keys of `st` whose slots are live at `now`. */
  function LiveKeysOf<K, V>(st: map<K, Slot<V>>, now: Instant): (r: set<K>)
    ensures r <= st.Keys
  {
    set k | k in st && Live(st[k], now)
  }

  /** The storage after `SetMany(items)`: every item key holds its item, stored over
      whatever slot it had; every other key keeps its slot. */
  function SetAllOf<K, V>(st: map<K, Slot<V>>, items: map<K, V>, now: Instant, timeout: nat, zero: V)
    : (r: map<K, Slot<V>>)
    ensures r.Keys == st.Keys + items.Keys
  {
    map k | k in st.Keys + items.Keys :: if k in items then Stored(SlotAt(st, k, timeout, zero), items[k], now) else st[k]
  }

  /** After `SetMany(items)` every item key is live at `now` holding its item, and every
      key that is not an item key keeps its slot, so its liveness is unchanged. */
  lemma SetAllOfContents<K, V>(st: map<K, Slot<V>>, items: map<K, V>, now: Instant, timeout: nat, zero: V)
    ensures var r := SetAllOf(st, items, now, timeout, zero);
      && (forall k | k in items :: Live(r[k], now) && r[k].value == items[k])
      && (forall k | k in st && k !in items :: r[k] == st[k])
      && items.Keys <= LiveKeysOf(r, now)
      && LiveKeysOf(r, now) - items.Keys == LiveKeysOf(st, now) - items.Keys
  {
  }

  /** The elements of a list of keys. */
  function Elems<K>(s: seq<K>): set<K>
  {
    set k | k in s
  }

  lemma ElemsSnoc<K>(s: seq<K>, x: K)
    ensures Elems(s + [x]) == Elems(s) + {x}
  {
  }

  /** `items` restricted to the keys in `keys`. */
  function Restrict<K, V>(items: map<K, V>, keys: set<K>): (r: map<K, V>)
    ensures r.Keys == items.Keys * keys
  {
    map k | k in items && k in keys :: items[k]
  }

  lemma RestrictAll<K, V>(items: map<K, V>)
    ensures Restrict(items, items.Keys) == items
  {
  }

  /** Moving one key from the unvisited to the visited part of a key set changes the
      visited live keys by that key exactly when it is live. */
  lemma LiveStep<K, V>(st: map<K, Slot<V>>, rest: set<K>, k: K, now: Instant)
    requires k in rest && rest <= st.Keys
    ensures Live(st[k], now) ==>
      LiveKeysOf(st, now) - (rest - {k}) == (LiveKeysOf(st, now) - rest) + {k}
      && |LiveKeysOf(st, now) - (rest - {k})| == |LiveKeysOf(st, now) - rest| + 1
    ensures !Live(st[k], now) ==> LiveKeysOf(st, now) - (rest - {k}) == LiveKeysOf(st, now) - rest
  {
    if Live(st[k], now) {
      assert LiveKeysOf(st, now) - (rest - {k}) == (LiveKeysOf(st, now) - rest) + {k};
    } else {
      assert LiveKeysOf(st, now) - (rest - {k}) == LiveKeysOf(st, now) - rest;
    }
  }

  /** One step of `SetMany`: storing item `k` over the storage reached so far gives the
      storage of the larger prefix, and `k`'s slot there is still its original one. */
  lemma SetAllStep<K, V>(st: map<K, Slot<V>>, items: map<K, V>, done: set<K>, k: K, now: Instant, timeout: nat, zero: V)
    requires k in items && k !in done
    ensures var cur := SetAllOf(st, Restrict(items, done), now, timeout, zero);
      && SlotAt(cur, k, timeout, zero) == SlotAt(st, k, timeout, zero)
      && (k in LiveKeysOf(cur, now) <==> k in LiveKeysOf(st, now))
      && SetAllOf(st, Restrict(items, done + {k}), now, timeout, zero)
         == cur[k := Stored(SlotAt(st, k, timeout, zero), items[k], now)]
  {
    var cur := SetAllOf(st, Restrict(items, done), now, timeout, zero);
    var next := SetAllOf(st, Restrict(items, done + {k}), now, timeout, zero);
    var want := cur[k := Stored(SlotAt(st, k, timeout, zero), items[k], now)];
    assert next.Keys == want.Keys;
    forall x | x in next.Keys ensures next[x] == want[x] {
    }
  }

  /** A `Cache[K, V]`. */
  class Cache<K(==), V> {
    var storage: map<K, Slot<V>>
    const timeout: nat
    const keyFn: Option<Sets.KeyFn<V, K>>
    /** The keyed generator, if any; its second argument is the number of earlier calls. */
    const defaultFn: Option<(K, nat) -> Result<V>>
    /** How many times the generator has been called. */
    var calls: nat
    /** The zero values of V and K. */
    const zero: V
    const zeroKey: K

    /** Every slot is well formed and was created with the cache's timeout. */
    ghost predicate Valid()
      reads this
    {
      forall k | k in storage :: WellFormed(storage[k], zero) && storage[k].timeout == timeout
    }

    function SlotOf(key: K): Slot<V>
      reads this
    {
      SlotAt(storage, key, timeout, zero)
    }

    function LiveKeys(now: Instant): set<K>
      reads this
    {
      LiveKeysOf(storage, now)
    }

    /** `NewCache(timeout, capacity, keyFn, defaultFn)`: empty storage (the capacity is
        only an allocation hint). */
    constructor (timeout: nat, capacity: int, keyFn: Option<Sets.KeyFn<V, K>>,
                 defaultFn: Option<(K, nat) -> Result<V>>, zero: V, zeroKey: K)
      ensures Valid() && storage == map[] && calls == 0
      ensures this.timeout == timeout && this.keyFn == keyFn && this.defaultFn == defaultFn
      ensures this.zero == zero && this.zeroKey == zeroKey
    {
      this.storage := map[];
      this.timeout := timeout;
      this.keyFn := keyFn;
      this.defaultFn := defaultFn;
      this.calls := 0;
      this.zero := zero;
      this.zeroKey := zeroKey;
    }

    /** `getCacheValue(key)`: the key's slot, inserting a fresh empty one with the
        cache's timeout when it has none; an existing slot is left as it is. */
    method GetCacheValue(key: K) returns (s: Slot<V>)
      requires Valid()
      modifies this
      ensures Valid() && calls == old(calls)
      ensures s == old(SlotOf(key)) && storage == old(storage)[key := s]
    {
      if key in storage {
        return storage[key];
      }
      s := Empty(timeout, zero);
      storage := storage[key := s];
    }

    /** `GetNoDefault(key)`: `(value, true)` for a live key, `(zero, false)` otherwise;
        storage is not touched. */
    method GetNoDefault(key: K, now: Instant) returns (v: V, ok: bool)
      requires Valid()
      ensures ok <==> key in LiveKeys(now)
      ensures v == if ok then storage[key].value else zero
    {
      if key !in storage {
        return zero, false;
      }
      var s := storage[key];
      if !s.hasValue || IsExpired(s, now) {
        return zero, false;
      }
      return s.value, true;
    }

    /** `GetDefault(key)`: creates the key's slot if absent, then behaves as
        `GetDefaultOutcome` on it; the generator runs only on a miss. */
    method GetDefault(key: K, now: Instant) returns (v: V, ok: bool, err: Option<Error>)
      requires Valid()
      modifies this
      ensures Valid()
      ensures var miss := !Live(old(SlotOf(key)), now) && defaultFn.Some?;
        var gen := if miss then Some(defaultFn.value(key, old(calls))) else None;
        var out := GetDefaultOutcome(old(SlotOf(key)), gen, now, zero);
        && v == out.value && ok == out.cached && err == out.err
        && storage == old(storage)[key := out.after]
        && calls == if miss then old(calls) + 1 else old(calls)
    {
      var s := GetCacheValue(key);
      if defaultFn.None? {
        var found := Live(s, now);
        return if found then s.value else zero, found, None;
      }
      if Live(s, now) {
        return s.value, true, None;
      }
      var r := defaultFn.value(key, calls);
      calls := calls + 1;
      if r.Err? {
        return zero, false, Some(r.error);
      }
      storage := storage[key := Stored(s, r.value, now)];
      return r.value, false, None;
    }

    /** `Get(key)`: with a generator, `GetDefault` with `ok` true on every non-error
        return; without one, `GetNoDefault`, which adds no slot. */
    method Get(key: K, now: Instant) returns (v: V, ok: bool, err: Option<Error>)
      requires Valid()
      modifies this
      ensures Valid()
      ensures defaultFn.Some? ==> (ok <==> err.None?)
      ensures defaultFn.Some? ==>
        var gen := if Live(old(SlotOf(key)), now) then None else Some(defaultFn.value(key, old(calls)));
        var out := GetDefaultOutcome(old(SlotOf(key)), gen, now, zero);
        && v == out.value && err == out.err && storage == old(storage)[key := out.after]
        && calls == if Live(old(SlotOf(key)), now) then old(calls) else old(calls) + 1
      ensures defaultFn.None? ==>
        && storage == old(storage) && calls == old(calls) && err.None?
        && (ok <==> key in LiveKeys(now)) && v == (if ok then storage[key].value else zero)
    {
      if defaultFn.Some? {
        var val, found, e := GetDefault(key, now);
        if e.Some? {
          return val, false, e;
        }
        return val, true, None;
      }
      v, ok := GetNoDefault(key, now);
      err := None;
    }

    /** `Set(key, value)`: stores the value in the key's slot (created if absent),
        refreshing its expiry, and reports whether a live value was overwritten. */
    method Set(key: K, value: V, now: Instant) returns (wasActual: bool)
      requires Valid()
      modifies this
      ensures Valid() && calls == old(calls)
      ensures storage == old(storage)[key := Stored(old(SlotOf(key)), value, now)]
      ensures wasActual <==> key in old(LiveKeys(now))
    {
      var s := GetCacheValue(key);
      wasActual := s.hasValue && !IsExpired(s, now);
      storage := storage[key := Stored(s, value, now)];
    }

    /** `SetValue(value)`: without a key function, false and no change; otherwise
        `Set(keyFn(value), value)`. */
    method SetValue(value: V, now: Instant) returns (wasActual: bool)
      requires Valid()
      modifies this
      ensures Valid() && calls == old(calls)
      ensures keyFn.None? ==> !wasActual && storage == old(storage)
      ensures keyFn.Some? ==>
        var key := keyFn.value(value);
        && storage == old(storage)[key := Stored(SlotAt(old(storage), key, timeout, zero), value, now)]
        && (wasActual <==> key in LiveKeysOf(old(storage), now))
    {
      if keyFn.None? {
        return false;
      }
      wasActual := Set(keyFn.value(value), value, now);
    }

    /** `Delete(key)`: removes the key's slot and reports whether it was live. */
    method Delete(key: K, now: Instant) returns (wasActual: bool)
      requires Valid()
      modifies this
      ensures Valid() && calls == old(calls)
      ensures storage == old(storage) - {key}
      ensures wasActual <==> key in old(LiveKeys(now))
    {
      if key !in storage {
        return false;
      }
      var s := storage[key];
      wasActual := s.hasValue && !IsExpired(s, now);
      storage := storage - {key};
    }

    /** `GetKeyOf(value)`: the key function's answer, or the zero key without one. */
    function GetKeyOf(value: V): (k: K)
      reads this
      ensures keyFn.Some? ==> k == keyFn.value(value)
      ensures keyFn.None? ==> k == zeroKey
    {
      if keyFn.Some? then keyFn.value(value) else zeroKey
    }

    /** `Has(key)`: whether the key is live; storage is not touched. */
    method Has(key: K, now: Instant) returns (ok: bool)
      requires Valid()
      ensures ok <==> key in LiveKeys(now)
    {
      var v;
      v, ok := GetNoDefault(key, now);
    }

    /** `Clear()`: empty storage. */
    method Clear()
      modifies this
      ensures Valid() && storage == map[] && calls == old(calls)
    {
      storage := map[];
    }

    /** `Len()`: the number of live keys. */
    method Len(now: Instant) returns (count: nat)
      requires Valid()
      ensures count == |LiveKeys(now)|
    {
      count := 0;
      var rest := storage.Keys;
      while rest != {}
        invariant rest <= storage.Keys
        invariant count == |LiveKeys(now) - rest|
        decreases rest
      {
        var k :| k in rest;
        if Live(storage[k], now) {
          LiveStep(storage, rest, k, now);
          count := count + 1;
        } else {
          LiveStep(storage, rest, k, now);
        }
        rest := rest - {k};
      }
      assert LiveKeys(now) - {} == LiveKeys(now);
    }

    /** `Keys()`: every live key exactly once, in an unspecified order. */
    method Keys(now: Instant) returns (keys: seq<K>)
      requires Valid()
      ensures forall k :: k in keys <==> k in LiveKeys(now)
      ensures Distinct(keys) && |keys| == |LiveKeys(now)|
    {
      keys := [];
      var rest := storage.Keys;
      while rest != {}
        invariant rest <= storage.Keys && Distinct(keys)
        invariant forall k :: k in keys <==> k in LiveKeys(now) && k !in rest
        decreases rest
      {
        var k :| k in rest;
        if Live(storage[k], now) {
          DistinctSnoc(keys, k);
          keys := keys + [k];
        }
        rest := rest - {k};
      }
      DistinctCard(keys, LiveKeys(now));
    }

    /** `Values()`: the value of every live key, once per key, in an unspecified order;
        `order` is that order of keys. */
    method Values(now: Instant) returns (values: seq<V>, ghost order: seq<K>)
      requires Valid()
      ensures forall k :: k in order <==> k in LiveKeys(now)
      ensures Distinct(order) && |values| == |order| == |LiveKeys(now)|
      ensures forall i :: 0 <= i < |order| ==> values[i] == storage[order[i]].value
      ensures |values| == |LiveKeys(now)|
      ensures forall k :: k in LiveKeys(now) ==> storage[k].value in values
      ensures forall i :: 0 <= i < |values| ==> exists k :: k in LiveKeys(now) && values[i] == storage[k].value
    {
      values, order := [], [];
      var rest := storage.Keys;
      while rest != {}
        invariant rest <= storage.Keys && Distinct(order) && |values| == |order|
        invariant forall k :: k in order <==> k in LiveKeys(now) && k !in rest
        invariant forall i :: 0 <= i < |order| ==> order[i] in storage && values[i] == storage[order[i]].value
        decreases rest
      {
        var k :| k in rest;
        var s := storage[k];
        if s.hasValue && !IsExpired(s, now) {
          DistinctSnoc(order, k);
          values, order := values + [s.value], order + [k];
        }
        rest := rest - {k};
      }
      DistinctCard(order, LiveKeys(now));
      forall k | k in LiveKeys(now) ensures storage[k].value in values {
        var i :| 0 <= i < |order| && order[i] == k;
        assert values[i] == storage[k].value;
      }
    }

    /** `Range(fn)`: calls `fn(key, value)` on live pairs only, each key at most once,
        in an unspecified order, and stops right after the first call that answers
        false. The callback also receives how many calls came before, so a callback
        with its own state (a counter, say) is a function of that number. The ghost
        `visited` lists the keys `fn` was called on, in call order: every call but the
        last answered true, and if the last did too then every live key was visited. */
    method Range(now: Instant, fn: (K, V, nat) -> bool) returns (ghost visited: seq<K>)
      requires Valid()
      ensures Distinct(visited)
      ensures forall i :: 0 <= i < |visited| ==> visited[i] in storage && Live(storage[visited[i]], now)
      ensures forall i :: 0 <= i < |visited| - 1 ==> fn(visited[i], storage[visited[i]].value, i)
      ensures (visited == [] || fn(visited[|visited| - 1], storage[visited[|visited| - 1]].value, |visited| - 1)) ==>
        forall k :: k in LiveKeys(now) ==> k in visited
    {
      visited := [];
      var calls := 0;
      var rest := storage.Keys;
      var stopped := false;
      while rest != {} && !stopped
        invariant rest <= storage.Keys && Distinct(visited) && calls == |visited|
        invariant forall k :: k in visited <==> k in LiveKeys(now) && k !in rest
        invariant forall i :: 0 <= i < |visited| ==> visited[i] in storage && Live(storage[visited[i]], now)
        invariant forall i :: 0 <= i < |visited| - 1 ==> fn(visited[i], storage[visited[i]].value, i)
        invariant stopped <==> visited != [] && !fn(visited[|visited| - 1], storage[visited[|visited| - 1]].value, |visited| - 1)
        decreases rest
      {
        var k :| k in rest;
        var s := storage[k];
        if s.hasValue && !IsExpired(s, now) {
          DistinctSnoc(visited, k);
          visited := visited + [k];
          stopped := !fn(k, s.value, calls);
          calls := calls + 1;
        }
        rest := rest - {k};
      }
    }

    /** `SetMany(items)`: `Set` for every item; the answer counts the item keys that
        were live before. */
    method SetMany(items: map<K, V>, now: Instant) returns (count: nat)
      requires Valid()
      modifies this
      ensures Valid() && calls == old(calls)
      ensures storage == SetAllOf(old(storage), items, now, timeout, zero)
      ensures count == |items.Keys * LiveKeysOf(old(storage), now)|
    {
      ghost var start := storage;
      ghost var live0 := LiveKeysOf(start, now);
      ghost var done: set<K> := {};
      ghost var hits: seq<K> := [];
      count := 0;
      var rest := items.Keys;
      while rest != {}
        invariant Valid() && calls == old(calls)
        invariant rest <= items.Keys && done == items.Keys - rest
        invariant storage == SetAllOf(start, Restrict(items, done), now, timeout, zero)
        invariant count == |hits| && Distinct(hits)
        invariant forall x :: x in hits <==> x in done && x in live0
        decreases rest
      {
        var k :| k in rest;
        SetAllStep(start, items, done, k, now, timeout, zero);
        var wasActual := Set(k, items[k], now);
        if wasActual {
          DistinctSnoc(hits, k);
          hits := hits + [k];
          count := count + 1;
        }
        rest := rest - {k};
        done := done + {k};
      }
      assert done == items.Keys;
      RestrictAll(items);
      DistinctCard(hits, items.Keys * live0);
    }

    /** `DeleteMany(keys)`: `Delete` for every listed key in order; the answer counts
        the distinct listed keys that were live before (a repeated key is already gone
        the second time). */
    method DeleteMany(keys: seq<K>, now: Instant) returns (count: nat)
      requires Valid()
      modifies this
      ensures Valid() && calls == old(calls)
      ensures storage == old(storage) - Elems(keys)
      ensures count == |Elems(keys) * old(LiveKeys(now))|
    {
      ghost var start := storage;
      ghost var live0 := LiveKeysOf(start, now);
      ghost var done: set<K> := {};
      ghost var hits: seq<K> := [];
      count := 0;
      for i := 0 to |keys|
        invariant Valid() && calls == old(calls)
        invariant done == Elems(keys[..i])
        invariant storage == start - done
        invariant count == |hits| && Distinct(hits)
        invariant forall x :: x in hits <==> x in done && x in live0
      {
        assert keys[..i + 1] == keys[..i] + [keys[i]];
        ElemsSnoc(keys[..i], keys[i]);
        var k := keys[i];
        var wasActual := Delete(k, now);
        if wasActual {
          DistinctSnoc(hits, k);
          hits := hits + [k];
          count := count + 1;
        }
        done := done + {k};
      }
      assert keys[..|keys|] == keys;
      DistinctCard(hits, Elems(keys) * live0);
    }

    /** `Update(key)`: an error when there is no generator; otherwise the generator
        runs, and on success its value is `Set` (overwriting even a live value, and
        creating the slot if absent), while on failure storage is left untouched. */
    method Update(key: K, now: Instant) returns (err: Option<Error>)
      requires Valid()
      modifies this
      ensures Valid()
      ensures defaultFn.None? ==>
        err == Some(Error("defaultFn is not set")) && storage == old(storage) && calls == old(calls)
      ensures defaultFn.Some? ==> calls == old(calls) + 1 && match defaultFn.value(key, old(calls))
        case Ok(g) => err.None? && storage == old(storage)[key := Stored(old(SlotOf(key)), g, now)]
        case Err(e) => err == Some(e) && storage == old(storage)
    {
      if defaultFn.None? {
        return Some(Error("defaultFn is not set"));
      }
      var r := defaultFn.value(key, calls);
      calls := calls + 1;
      if r.Err? {
        return Some(r.error);
      }
      var _ := Set(key, r.value, now);
      return None;
    }
  }
}
