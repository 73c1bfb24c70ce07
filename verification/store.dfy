/** store.go: a map guarded by a reader-writer lock. Each operation is atomic, so the
    lock itself leaves no trace in the model, and every NoLock variant has exactly the
    effect of its locked counterpart. */
module Stores {
  import opened Wrappers

  /** A Go `Store[K, V]`; `m` is its map. A lookup result `None` stands for Go's
      `(zero value, false)`. */
  class Store<K(==), V> {
    var m: map<K, V>

    /** `NewStore(m)`: `None` stands for a nil map and gives an empty store; otherwise
        the store starts with the given contents. */
    constructor (init: Option<map<K, V>>)
      ensures m == if init.None? then map[] else init.value
    {
      m := if init.None? then map[] else init.value;
    }

    /** The lookup both `Get` and `GetNoLock` perform. */
    function Lookup(key: K): (r: Option<V>)
      reads this
      ensures r.Some? <==> key in m
      ensures r.Some? ==> r.value == m[key]
    {
      if key in m then Some(m[key]) else None
    }

    /** `s.Get(key)`: `(v, true)` for a present key, `(zero, false)` otherwise. */
    method Get(key: K) returns (r: Option<V>)
      ensures r.Some? <==> key in m
      ensures r.Some? ==> r.value == m[key]
    {
      r := Lookup(key);
    }

    /** `s.Set(key, value)`: `key` now maps to `value`; every other key is unchanged. */
    method Set(key: K, value: V)
      modifies this
      ensures m == old(m)[key := value]
      ensures Lookup(key) == Some(value)
      ensures forall k :: k != key ==> (k in m <==> k in old(m)) && (k in m ==> m[k] == old(m)[k])
    {
      m := m[key := value];
    }

    /** `s.Delete(key)`: `key` is now absent; every other key is unchanged. */
    method Delete(key: K)
      modifies this
      ensures m == old(m) - {key}
      ensures Lookup(key) == None
      ensures forall k :: k != key ==> (k in m <==> k in old(m)) && (k in m ==> m[k] == old(m)[k])
    {
      m := m - {key};
    }

    /** `s.SetNoLock(key, value)`: the effect of `Set` without taking the lock. */
    method SetNoLock(key: K, value: V)
      modifies this
      ensures m == old(m)[key := value]
    {
      m := m[key := value];
    }

    /** `s.GetNoLock(key)`: the answer of `Get` without taking the lock. */
    method GetNoLock(key: K) returns (r: Option<V>)
      ensures r == Lookup(key)
    {
      r := Lookup(key);
    }

    /** `s.DeleteNoLock(key)`: the effect of `Delete` without taking the lock. */
    method DeleteNoLock(key: K)
      modifies this
      ensures m == old(m) - {key}
    {
      m := m - {key};
    }

    /** `s.GetMap()`: the current contents. */
    method GetMap() returns (r: map<K, V>)
      ensures r == m
    {
      r := m;
    }

    /** `s.GetMapNoLock()`: the current contents, without taking the lock. */
    method GetMapNoLock() returns (r: map<K, V>)
      ensures r == m
    {
      r := m;
    }
  }
}
