/** cache.go, first half: `CacheValue`, one slot holding an optional value with an
    optional time-to-live and an optional generator.

    Time is an explicit `now` argument (an integer instant, e.g. nanoseconds); every
    operation happens at one instant. A generator is a pure function that also receives
    how many times the generator was called before, so a generator with its own state
    (a counter, say) is a function of that count; `calls` counts the calls. */
module CacheEntries {
  import opened Wrappers

  type Instant = int

  /** Go's zero `time.Time`, which `Delete` writes into `expiresAt`. */
  const ZeroInstant: Instant := 0

  /** The fields of a `CacheValue` that decide what it holds: the value, whether it
      holds one, when it expires, and its fixed timeout (0 = never expires). */
  datatype Slot<V> = Slot(value: V, hasValue: bool, expiresAt: Instant, timeout: nat)

  /** The state invariant every operation keeps: an empty slot holds the zero value
      and the zero instant. */
  ghost predicate WellFormed<V>(s: Slot<V>, zero: V)
  {
    !s.hasValue ==> s.value == zero && s.expiresAt == ZeroInstant
  }

  /** `isExpired`: never for timeout 0 or an empty slot; otherwise strictly after
      `expiresAt`. */
  function IsExpired<V>(s: Slot<V>, now: Instant): (r: bool)
    ensures r <==> s.hasValue && s.timeout > 0 && s.expiresAt < now
  {
    if s.timeout == 0 || !s.hasValue then false else now > s.expiresAt
  }

  /** A slot is live when it holds a value that has not expired. */
  function Live<V>(s: Slot<V>, now: Instant): (r: bool)
    ensures r <==> s.hasValue && (s.timeout == 0 || now <= s.expiresAt)
  {
    s.hasValue && !IsExpired(s, now)
  }

  /** A fresh slot: no value, created with the given timeout. */
  function Empty<V>(timeout: nat, zero: V): (r: Slot<V>)
    ensures WellFormed(r, zero) && r.timeout == timeout
    ensures forall now :: !Live(r, now)
  {
    Slot(zero, false, ZeroInstant, timeout)
  }

  /** The slot after `Set(v)` at `now`: it holds `v`, and with a positive timeout its
      expiry is refreshed to `now + timeout` even if the old value was still live.
      It is then live exactly while no instant after the expiry has been reached. */
  function Stored<V>(s: Slot<V>, v: V, now: Instant): (r: Slot<V>)
    ensures r.hasValue && r.value == v && r.timeout == s.timeout
    ensures forall t :: Live(r, t) <==> s.timeout == 0 || t <= now + s.timeout
    ensures Live(r, now)
  {
    Slot(v, true, if s.timeout > 0 then now + s.timeout else s.expiresAt, s.timeout)
  }

  /** The slot after `Delete`: no value, the zero value and the zero instant. */
  function Cleared<V>(s: Slot<V>, zero: V): (r: Slot<V>)
    ensures WellFormed(r, zero) && r.timeout == s.timeout
    ensures forall t :: !Live(r, t)
  {
    Slot(zero, false, ZeroInstant, s.timeout)
  }

  /** Time-to-live: with timeout 0 a stored value never expires; with a positive
      timeout, a value stored at `t` is live at `now` exactly when `now <= t + timeout`,
      so it is gone once more than `timeout` has passed. */
  lemma StoredTtl<V>(s: Slot<V>, v: V, t: Instant, now: Instant)
    ensures s.timeout == 0 ==> Live(Stored(s, v, t), now)
    ensures s.timeout > 0 ==> (Live(Stored(s, v, t), now) <==> now <= t + s.timeout)
    ensures now > t + s.timeout ==> (Live(Stored(s, v, t), now) <==> s.timeout == 0)
  {
  }

  /** The outcome of a `GetDefault` on one slot: the value returned, whether it was
      already cached, the error, and the slot afterwards. */
  datatype Lookup<V> = Lookup(value: V, cached: bool, err: Option<Error>, after: Slot<V>)

  /** What `GetDefault` does on a slot, given the generator's answer `gen` if the
      generator runs (None when there is no generator): a live hit returns the value
      as cached; a miss without a generator returns the zero value; a miss with a
      successful generator returns and stores its value, reported as not cached; a
      failing generator returns the zero value and the error and changes nothing. */
  function GetDefaultOutcome<V>(s: Slot<V>, gen: Option<Result<V>>, now: Instant, zero: V): (r: Lookup<V>)
    ensures Live(s, now) ==> r == Lookup(s.value, true, None, s)
    ensures !Live(s, now) && gen.None? ==> r == Lookup(zero, false, None, s)
    ensures !Live(s, now) && gen.Some? && gen.value.Ok? ==>
      r.value == gen.value.value && !r.cached && r.err.None? && Live(r.after, now) && r.after.value == gen.value.value
    ensures !Live(s, now) && gen.Some? && gen.value.Err? ==>
      r == Lookup(zero, false, Some(gen.value.error), s)
    ensures r.err.None? ==> r.cached == Live(s, now)
  {
    if Live(s, now) then Lookup(s.value, true, None, s)
    else match gen
      case None => Lookup(zero, false, None, s)
      case Some(Ok(v)) => Lookup(v, false, None, Stored(s, v, now))
      case Some(Err(e)) => Lookup(zero, false, Some(e), s)
  }

  /** A successful `GetDefault` miss stores the generated value, so a second call at an
      instant where it is still live returns it as cached without a generator call. */
  lemma GetDefaultThenHit<V>(s: Slot<V>, g: V, now: Instant, later: Instant, zero: V, gen2: Option<Result<V>>)
    requires !Live(s, now)
    requires s.timeout == 0 || later <= now + s.timeout
    ensures var first := GetDefaultOutcome(s, Some(Ok(g)), now, zero);
      first.value == g && !first.cached && first.err.None?
      && GetDefaultOutcome(first.after, gen2, later, zero) == Lookup(g, true, None, first.after)
  {
  }

  /** A `CacheValue[T]`. */
  class CacheValue<V> {
    var value: V
    var hasValue: bool
    var expiresAt: Instant
    const timeout: nat
    /** The generator, if any; its argument is the number of earlier calls. */
    const defaultFn: Option<nat -> Result<V>>
    /** How many times the generator has been called. */
    var calls: nat
    /** The zero value of V. */
    const zero: V

    /** The slot these fields form. */
    function State(): Slot<V>
      reads this
    {
      Slot(value, hasValue, expiresAt, timeout)
    }

    ghost predicate Valid()
      reads this
    {
      WellFormed(State(), zero)
    }

    /** `NewCacheValue(timeout, defaultFn)`: empty. */
    constructor (timeout: nat, defaultFn: Option<nat -> Result<V>>, zero: V)
      ensures Valid() && State() == Empty(timeout, zero)
      ensures this.defaultFn == defaultFn && this.zero == zero && calls == 0
    {
      this.value := zero;
      this.hasValue := false;
      this.expiresAt := ZeroInstant;
      this.timeout := timeout;
      this.defaultFn := defaultFn;
      this.calls := 0;
      this.zero := zero;
    }

    /** `GetNoDefault`: `(value, true)` when live, `(zero, false)` otherwise. */
    method GetNoDefault(now: Instant) returns (v: V, ok: bool)
      requires Valid()
      ensures ok <==> Live(State(), now)
      ensures v == if ok then value else zero
    {
      if !hasValue || IsExpired(State(), now) {
        return zero, false;
      }
      return value, true;
    }

    /** `Has`: whether the slot is live. */
    method Has(now: Instant) returns (ok: bool)
      requires Valid()
      ensures ok <==> Live(State(), now)
    {
      var v;
      v, ok := GetNoDefault(now);
    }

    /** `Set(value)`: stores the value, refreshing the expiry from `now`, and reports
        whether a live value was overwritten. */
    method Set(v: V, now: Instant) returns (wasActual: bool)
      requires Valid()
      modifies this
      ensures Valid() && State() == Stored(old(State()), v, now) && calls == old(calls)
      ensures wasActual <==> Live(old(State()), now)
    {
      wasActual := hasValue && !IsExpired(State(), now);
      value := v;
      hasValue := true;
      if timeout > 0 {
        expiresAt := now + timeout;
      }
    }

    /** `Delete()`: empties the slot and reports whether a live value was removed. */
    method Delete(now: Instant) returns (wasActual: bool)
      requires Valid()
      modifies this
      ensures Valid() && State() == Cleared(old(State()), zero) && calls == old(calls)
      ensures wasActual <==> Live(old(State()), now)
    {
      wasActual := hasValue && !IsExpired(State(), now);
      value := zero;
      hasValue := false;
      expiresAt := ZeroInstant;
    }

    /** `Clear()`: `Delete` with the answer dropped. */
    method Clear(now: Instant)
      requires Valid()
      modifies this
      ensures Valid() && State() == Cleared(old(State()), zero) && calls == old(calls)
    {
      var _ := Delete(now);
    }

    /** `GetDefault()`: see `GetDefaultOutcome`. The generator runs (and `calls` grows)
        only on a miss when there is a generator. */
    method GetDefault(now: Instant) returns (v: V, ok: bool, err: Option<Error>)
      requires Valid()
      modifies this
      ensures Valid()
      ensures var gen := if Live(old(State()), now) || defaultFn.None? then None
                         else Some(defaultFn.value(old(calls)));
        Lookup(v, ok, err, State()) == GetDefaultOutcome(old(State()), gen, now, zero)
      ensures calls == if Live(old(State()), now) || defaultFn.None? then old(calls) else old(calls) + 1
    {
      var val, found := GetNoDefault(now);
      if found {
        return val, true, None;
      }
      if defaultFn.None? {
        return zero, false, None;
      }
      var r := defaultFn.value(calls);
      calls := calls + 1;
      if r.Err? {
        return zero, false, Some(r.error);
      }
      var _ := Set(r.value, now);
      return r.value, false, None;
    }

    /** `Get()`: with a generator, `GetDefault` with `ok` true on every non-error
        return (freshly generated values included); without one, `GetNoDefault`. */
    method Get(now: Instant) returns (v: V, ok: bool, err: Option<Error>)
      requires Valid()
      modifies this
      ensures Valid()
      ensures defaultFn.Some? ==> (ok <==> err.None?)
      ensures defaultFn.Some? ==>
        var gen := if Live(old(State()), now) then None else Some(defaultFn.value(old(calls)));
        var out := GetDefaultOutcome(old(State()), gen, now, zero);
        && v == out.value && err == out.err && State() == out.after
        && calls == if Live(old(State()), now) then old(calls) else old(calls) + 1
      ensures defaultFn.Some? && err.None? && !Live(old(State()), now) ==>
        defaultFn.value(old(calls)) == Ok(v) && State() == Stored(old(State()), v, now)
      ensures defaultFn.Some? && err.Some? ==> v == zero && State() == old(State())
      ensures Live(old(State()), now) ==>
        v == old(value) && ok && err.None? && State() == old(State()) && calls == old(calls)
      ensures defaultFn.None? ==>
        && State() == old(State()) && calls == old(calls)
        && (ok <==> Live(State(), now)) && v == (if ok then value else zero) && err.None?
    {
      if defaultFn.Some? {
        var val, found, e := GetDefault(now);
        if e.Some? {
          return val, false, e;
        }
        return val, true, None;
      }
      var val, found := GetNoDefault(now);
      return val, found, None;
    }

    /** `Update()`: an error when there is no generator; otherwise the generator runs,
        and on success its value overwrites the slot even if it was live, while on
        failure the slot is left untouched. */
    method Update(now: Instant) returns (err: Option<Error>)
      requires Valid()
      modifies this
      ensures Valid()
      ensures defaultFn.None? ==> err == Some(Error("defaultFn is not set")) && State() == old(State()) && calls == old(calls)
      ensures defaultFn.Some? ==> calls == old(calls) + 1 && match defaultFn.value(old(calls))
        case Ok(g) => err.None? && State() == Stored(old(State()), g, now)
        case Err(e) => err == Some(e) && State() == old(State())
    {
      if defaultFn.None? {
        return Some(Error("defaultFn is not set"));
      }
      var r := defaultFn.value(calls);
      calls := calls + 1;
      if r.Err? {
        return Some(r.error);
      }
      var _ := Set(r.value, now);
      return None;
    }
  }
}
