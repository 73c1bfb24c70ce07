/** updater.go: applying fetched data to a store, composing fetch middleware, and the
    bookkeeping of one update round.

    The source and the sink are abstract: the source is its fetch function and the
    sink is the outcome its `Apply` gives for a context and a data map. What the
    callbacks do is not visible here, so the model records each callback call in a
    log, together with the data handed to the sink. */
module Updaters {
  import opened Wrappers
  import Stores
  import Middlewares
  import Slices

  /** A Go `UpdateStrategy`: any int, of which four values are named. */
  type UpdateStrategy = int

  const StrategyReplace: UpdateStrategy := 0
  const StrategyMerge: UpdateStrategy := 1
  const StrategyUpsertOnly: UpdateStrategy := 2
  const StrategyIncremental: UpdateStrategy := 3

  /** What `StoreSink.Apply` makes of the store map `m` given `data`: Replace gives
      exactly `data`; Merge, UpsertOnly and Incremental write every data entry over
      `m`; any other strategy value matches no case and leaves `m` as it was. */
  function ApplyStrategy<K, V>(strategy: UpdateStrategy, m: map<K, V>, data: map<K, V>): (r: map<K, V>)
    ensures forall k | k in r :: k in m || k in data
    ensures StrategyReplace <= strategy <= StrategyIncremental ==> forall k | k in data :: k in r && r[k] == data[k]
    ensures !(StrategyReplace <= strategy <= StrategyIncremental) ==> r == m
  {
    if strategy == StrategyReplace then data
    else if strategy == StrategyMerge || strategy == StrategyUpsertOnly || strategy == StrategyIncremental then m + data
    else m
  }

  /** Replace: afterwards the store holds exactly the data, whatever it held before. */
  lemma ApplyReplace<K, V>(m: map<K, V>, data: map<K, V>)
    ensures ApplyStrategy(StrategyReplace, m, data).Keys == data.Keys
    ensures forall k | k in data :: ApplyStrategy(StrategyReplace, m, data)[k] == data[k]
  {
  }

  /** Merge, UpsertOnly, Incremental: every data key maps to its data value, and every
      other key keeps its presence and its value; nothing is ever removed. */
  lemma ApplyMerge<K, V>(strategy: UpdateStrategy, m: map<K, V>, data: map<K, V>)
    requires strategy == StrategyMerge || strategy == StrategyUpsertOnly || strategy == StrategyIncremental
    ensures var r := ApplyStrategy(strategy, m, data);
      && (forall k | k in data :: k in r && r[k] == data[k])
      && (forall k | k !in data :: (k in r <==> k in m) && (k in m ==> r[k] == m[k]))
      && m.Keys <= r.Keys
  {
  }

  /** A strategy outside the four named ones changes nothing. */
  lemma ApplyUnknown<K, V>(strategy: UpdateStrategy, m: map<K, V>, data: map<K, V>)
    requires strategy < StrategyReplace || strategy > StrategyIncremental
    ensures ApplyStrategy(strategy, m, data) == m
  {
  }

  /** Applying the same data twice has the effect of applying it once. */
  lemma ApplyIdempotent<K, V>(strategy: UpdateStrategy, m: map<K, V>, data: map<K, V>)
    ensures ApplyStrategy(strategy, ApplyStrategy(strategy, m, data), data) == ApplyStrategy(strategy, m, data)
  {
    if strategy == StrategyMerge || strategy == StrategyUpsertOnly || strategy == StrategyIncremental {
      assert (m + data) + data == m + data;
    }
  }

  /** The entries of `data` whose keys are not in `rest`. */
  function Written<K, V>(data: map<K, V>, rest: set<K>): (r: map<K, V>)
    ensures r.Keys == data.Keys - rest
  {
    map k | k in data && k !in rest :: data[k]
  }

  /** Writing one more data entry over `base + Written(data, rest)`. */
  lemma WrittenStep<K, V>(base: map<K, V>, data: map<K, V>, rest: set<K>, k: K)
    requires k in rest && k in data
    ensures (base + Written(data, rest))[k := data[k]] == base + Written(data, rest - {k})
  {
    var l := (base + Written(data, rest))[k := data[k]];
    var r := base + Written(data, rest - {k});
    assert l.Keys == r.Keys;
    forall x | x in l ensures l[x] == r[x] {
    }
  }

  /** A `StoreSink[K, V]`: a store and the strategy used to write into it. */
  class StoreSink<K(==), V> {
    const store: Stores.Store<K, V>
    const strategy: UpdateStrategy

    /** `NewStoreSink(store, strategy)`. */
    constructor (store: Stores.Store<K, V>, strategy: UpdateStrategy)
      ensures this.store == store && this.strategy == strategy
    {
      this.store := store;
      this.strategy := strategy;
    }

    /** `Apply(ctx, data)`: rewrites the store map under the lock as `ApplyStrategy`
        says, one data entry at a time; the answer is always nil. */
    method Apply(ctx: Context, data: map<K, V>) returns (err: Option<Error>)
      modifies store
      ensures err.None?
      ensures store.m == ApplyStrategy(strategy, old(store.m), data)
    {
      var merging := strategy == StrategyMerge || strategy == StrategyUpsertOnly || strategy == StrategyIncremental;
      if strategy == StrategyReplace || merging {
        ghost var base := if strategy == StrategyReplace then map[] else store.m;
        if strategy == StrategyReplace {
          store.m := map[];
        }
        var rest := data.Keys;
        while rest != {}
          invariant rest <= data.Keys
          invariant store.m == base + Written(data, rest)
          decreases rest
        {
          var k :| k in rest;
          WrittenStep(base, data, rest, k);
          store.m := store.m[k := data[k]];
          rest := rest - {k};
        }
        assert Written(data, {}) == data;
      }
      return None;
    }
  }

  /** A `context.Context`, reduced to how it was derived. */
  datatype Context = Background | WithCancel(parent: Context)

  /** A `FetchFunc[map[K]V]`: the data for a context, or an error. */
  type FetchFunc<K, V> = Context -> Result<map<K, V>>

  /** The chain `buildFetchChain` builds: `ms[0](ms[1](... ms[n-1](source)))`, so the
      first registered middleware is the outermost wrapper. */
  function Chain<K, V>(ms: seq<Middlewares.Middleware<FetchFunc<K, V>>>, source: FetchFunc<K, V>): (r: FetchFunc<K, V>)
    ensures ms == [] ==> r == source
    ensures |ms| == 1 ==> r == ms[0](source)
  {
    if ms == [] then source else ms[0](Chain(ms[1..], source))
  }

  /** Registering one more middleware wraps it innermost, directly around the source. */
  lemma {:induction false} ChainSnoc<K, V>(ms: seq<Middlewares.Middleware<FetchFunc<K, V>>>,
                                          m: Middlewares.Middleware<FetchFunc<K, V>>, source: FetchFunc<K, V>)
    ensures Chain(ms + [m], source) == Chain(ms, m(source))
  {
    if ms != [] {
      assert (ms + [m])[1..] == ms[1..] + [m];
      ChainSnoc(ms[1..], m, source);
    }
  }

  /** The fetch chain is the middleware fold of middleware.go over the middlewares in
      reverse order: building the chain equals `WithMiddleware(source, reversed ms)`. */
  lemma {:induction false} ChainIsReversedFold<K, V>(ms: seq<Middlewares.Middleware<FetchFunc<K, V>>>, source: FetchFunc<K, V>)
    ensures Chain(ms, source) == Middlewares.Wrapped(source, Slices.Reversed(ms))
  {
    if ms != [] {
      var r := Slices.Reversed(ms);
      var r' := Slices.Reversed(ms[1..]);
      Slices.ReversedAt(ms);
      Slices.ReversedAt(ms[1..]);
      assert r[|r| - 1] == ms[0];
      assert r[..|r| - 1] == r' by {
        forall i | 0 <= i < |r'| ensures r[i] == r'[i] {
          assert ms[1..][|ms[1..]| - 1 - i] == ms[|ms| - 1 - i];
        }
      }
      ChainIsReversedFold(ms[1..], source);
    }
  }

  /** A registered callback, identified by a number (nil is `None`). */
  type HandlerId = nat

  /** One callback call: `onSuccess(data)` or `onError(err)`. */
  datatype Notice<K, V> = SuccessCall(handler: HandlerId, data: map<K, V>) | ErrorCall(handler: HandlerId, err: Error)

  /** An `Updater[K, V]`. */
  class Updater<K(==), V> {
    const source: FetchFunc<K, V>
    /** The sink's `Apply` outcome for a context and data: nil or an error. */
    const sink: (Context, map<K, V>) -> Option<Error>
    const interval: nat
    var middlewares: seq<Middlewares.Middleware<FetchFunc<K, V>>>
    var onSuccess: Option<HandlerId>
    var onError: Option<HandlerId>
    /** Every data map handed to the sink, oldest first. */
    var applied: seq<map<K, V>>
    /** Every callback call, oldest first. */
    var notices: seq<Notice<K, V>>
    /** Go's zero `time.Time` is the instant 0. */
    var lastSuccess: int
    var lastError: Option<Error>
    var ctx: Option<Context>
    var cancelled: bool
    /** How many background loops were started. */
    var loopsStarted: nat

    /** `NewUpdater(source, sink, interval)`: no middleware, no callbacks, nothing
        recorded yet. */
    constructor (source: FetchFunc<K, V>, sink: (Context, map<K, V>) -> Option<Error>, interval: nat)
      ensures this.source == source && this.sink == sink && this.interval == interval
      ensures middlewares == [] && onSuccess.None? && onError.None?
      ensures applied == [] && notices == [] && lastSuccess == 0 && lastError.None?
      ensures ctx.None? && !cancelled && loopsStarted == 0
    {
      this.source := source;
      this.sink := sink;
      this.interval := interval;
      middlewares := [];
      onSuccess, onError := None, None;
      applied, notices := [], [];
      lastSuccess, lastError := 0, None;
      ctx, cancelled, loopsStarted := None, false, 0;
    }

    /** `WithMiddleware(mw...)`: appends, keeping registration order; returns the receiver. */
    method WithMiddleware(mw: seq<Middlewares.Middleware<FetchFunc<K, V>>>) returns (r: Updater<K, V>)
      modifies this
      ensures r == this && middlewares == old(middlewares) + mw
      ensures onSuccess == old(onSuccess) && onError == old(onError)
      ensures applied == old(applied) && notices == old(notices)
      ensures lastSuccess == old(lastSuccess) && lastError == old(lastError)
      ensures ctx == old(ctx) && cancelled == old(cancelled) && loopsStarted == old(loopsStarted)
    {
      middlewares := middlewares + mw;
      return this;
    }

    /** `WithSuccessHandler(handler)`: replaces the success callback. */
    method WithSuccessHandler(handler: Option<HandlerId>) returns (r: Updater<K, V>)
      modifies this
      ensures r == this && onSuccess == handler
      ensures middlewares == old(middlewares) && onError == old(onError)
      ensures applied == old(applied) && notices == old(notices)
      ensures lastSuccess == old(lastSuccess) && lastError == old(lastError)
      ensures ctx == old(ctx) && cancelled == old(cancelled) && loopsStarted == old(loopsStarted)
    {
      onSuccess := handler;
      return this;
    }

    /** `WithErrorHandler(handler)`: replaces the error callback. */
    method WithErrorHandler(handler: Option<HandlerId>) returns (r: Updater<K, V>)
      modifies this
      ensures r == this && onError == handler
      ensures middlewares == old(middlewares) && onSuccess == old(onSuccess)
      ensures applied == old(applied) && notices == old(notices)
      ensures lastSuccess == old(lastSuccess) && lastError == old(lastError)
      ensures ctx == old(ctx) && cancelled == old(cancelled) && loopsStarted == old(loopsStarted)
    {
      onError := handler;
      return this;
    }

    /** `buildFetchChain()`: starts from the source and wraps it in the middlewares
        from the last registered to the first, so the first ends up outermost. */
    method BuildFetchChain() returns (f: FetchFunc<K, V>)
      ensures f == Chain(middlewares, source)
      ensures middlewares == [] ==> f == source
    {
      f := source;
      var i := |middlewares|;
      while i > 0
        invariant 0 <= i <= |middlewares|
        invariant f == Chain(middlewares[i..], source)
      {
        i := i - 1;
        assert middlewares[i..][1..] == middlewares[i + 1..];
        f := middlewares[i](f);
      }
    }

    /** `setLastSuccess()`: records the instant and clears the last error. */
    method SetLastSuccess(now: int)
      modifies this
      ensures lastSuccess == now && lastError.None?
      ensures middlewares == old(middlewares) && onSuccess == old(onSuccess) && onError == old(onError)
      ensures applied == old(applied) && notices == old(notices)
      ensures ctx == old(ctx) && cancelled == old(cancelled) && loopsStarted == old(loopsStarted)
    {
      lastSuccess := now;
      lastError := None;
    }

    /** `setLastError(err)`: records the error; the last success instant is kept. */
    method SetLastError(err: Error)
      modifies this
      ensures lastError == Some(err) && lastSuccess == old(lastSuccess)
      ensures middlewares == old(middlewares) && onSuccess == old(onSuccess) && onError == old(onError)
      ensures applied == old(applied) && notices == old(notices)
      ensures ctx == old(ctx) && cancelled == old(cancelled) && loopsStarted == old(loopsStarted)
    {
      lastError := Some(err);
    }

    /** The error callback call for `err`, if an error callback is set. */
    function ErrorNotices(err: Error): seq<Notice<K, V>>
      reads this
    {
      if onError.Some? then [ErrorCall(onError.value, err)] else []
    }

    /** The success callback call for `data`, if a success callback is set. */
    function SuccessNotices(data: map<K, V>): seq<Notice<K, V>>
      reads this
    {
      if onSuccess.Some? then [SuccessCall(onSuccess.value, data)] else []
    }

    /** `updateOnce(ctx)` at instant `now`. A fetch error is recorded as the last error,
        reported to the error callback and returned, and the sink is not called. Fetched
        data goes to the sink; an `Apply` error is handled like a fetch error and the
        success callback is not called. Otherwise the last success becomes `now`, the
        last error is cleared, the success callback receives the data, and the answer
        is nil. */
    method UpdateOnce(c: Context, now: int) returns (err: Option<Error>)
      modifies this
      ensures middlewares == old(middlewares) && onSuccess == old(onSuccess) && onError == old(onError)
      ensures ctx == old(ctx) && cancelled == old(cancelled) && loopsStarted == old(loopsStarted)
      ensures var fetched := Chain(old(middlewares), source)(c);
        match fetched
        case Err(e) =>
          && err == Some(e) && lastError == err && lastSuccess == old(lastSuccess)
          && applied == old(applied) && notices == old(notices) + ErrorNotices(e)
        case Ok(data) =>
          && applied == old(applied) + [data]
          && match sink(c, data)
             case Some(e) =>
               && err == Some(e) && lastError == err && lastSuccess == old(lastSuccess)
               && notices == old(notices) + ErrorNotices(e)
             case None =>
               && err.None? && lastError.None? && lastSuccess == now
               && notices == old(notices) + SuccessNotices(data)
    {
      var fetch := BuildFetchChain();
      var fetched := fetch(c);
      if fetched.Err? {
        SetLastError(fetched.error);
        notices := notices + ErrorNotices(fetched.error);
        return Some(fetched.error);
      }
      var data := fetched.value;
      applied := applied + [data];
      var applyErr := sink(c, data);
      if applyErr.Some? {
        SetLastError(applyErr.value);
        notices := notices + ErrorNotices(applyErr.value);
        return applyErr;
      }
      SetLastSuccess(now);
      notices := notices + SuccessNotices(data);
      return None;
    }

    /** `StartSync(parent)`: derives a fresh, not yet cancelled context and runs one update in it,
        with the effect `UpdateOnce` states. If that update fails, the context is
        cancelled, the error is returned and no background loop is started; otherwise
        one loop is started and the answer is nil. */
    method StartSync(parent: Context, now: int) returns (err: Option<Error>)
      modifies this
      ensures ctx == Some(WithCancel(parent))
      ensures middlewares == old(middlewares) && onSuccess == old(onSuccess) && onError == old(onError)
      ensures var c := WithCancel(parent);
        match Chain(old(middlewares), source)(c)
        case Err(e) =>
          && err == Some(e) && lastError == err && lastSuccess == old(lastSuccess)
          && applied == old(applied) && notices == old(notices) + ErrorNotices(e)
        case Ok(data) =>
          && applied == old(applied) + [data]
          && match sink(c, data)
             case Some(e) =>
               && err == Some(e) && lastError == err && lastSuccess == old(lastSuccess)
               && notices == old(notices) + ErrorNotices(e)
             case None =>
               && err.None? && lastError.None? && lastSuccess == now
               && notices == old(notices) + SuccessNotices(data)
      ensures err.Some? ==> cancelled && loopsStarted == old(loopsStarted)
      ensures err.None? ==> !cancelled && loopsStarted == old(loopsStarted) + 1
    {
      ctx, cancelled := Some(WithCancel(parent)), false;
      err := UpdateOnce(WithCancel(parent), now);
      if err.Some? {
        cancelled := true;
        return;
      }
      loopsStarted := loopsStarted + 1;
    }
  }
}
