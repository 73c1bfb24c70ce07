# notstd in Dafny

A Dafny model of the sequential core of `notstd`, a Go package of in-memory utilities. It covers:

- **TTL cache** (`cache.go`):
  - `CacheValue` is one slot: a value, a has-value flag, an expiry instant, a timeout and an optional generator.
  - `Cache` maps keys to such slots. It also holds a cache-wide timeout, an optional key function and an optional keyed generator.
- **Refresh bookkeeping** (`updater.go`):
  - `StoreSink.Apply` writes fetched data into a `Store` with one of four strategies.
  - Fetch middleware is composed with the first-registered middleware outermost.
  - One update round (`updateOnce`) records the last success or error and decides which callback runs.
  - `StartSync` does not start its loop when the first update fails.
- **Guarded map** (`store.go`).
- **Mutable set** (`set.go`).
- **Round-robin cursor** (`pool.go`).
- **`.env` loader** (`env.go`): the line parser and the loop that applies lines in file order.
- **Combinators** over filters, middleware and slices: `filter.go`, `equal.go`, `middleware.go`, `slice.go`, `slice_filter.go`, `slice_map.go`, `slice_reduce.go`, `map.go`.

Each Go file is one Dafny module in a file of the same name, except `cache.go`. Its two halves are two modules: `CacheEntries` (`cache_value.dfy`, the `CacheValue` slot) and `Caches` (`cache.dfy`, the `Cache` map). `wrappers.dfy` holds `Option`, `Result` and `Error`. `seqs.dfy` holds the facts about lists without repetitions that the enumerating operations share.

Modelling choices:

- **Clock.** Time is an explicit integer argument `now`. An operation happens at a single instant.
- **Expiry.** A slot is live when it holds a value and either its timeout is 0 or `now` is not after its expiry. The comparison is strict, as in `isExpired`.
- **Generators.** They are pure functions. Each one also receives the number of earlier generator calls, so a generator that counts its own calls can be expressed. A `calls` field makes "the generator was not called" observable.
- **Zero values.** Dafny has no generic zero value, so `Cache` and `CacheValue` receive theirs at construction.
- **Objects that change state.** `Cache`, `CacheValue`, `Store`, `Set`, `StoreSink`, `Updater` and the round-robin closure are classes. A method that changes state states the new value of every field it may change. The loops of the source are `while`/`for` loops, each proved against a specification function (`Wrapped`, `Filtered`, `Mapped`, `Folded`, `Indexed`, `Reversed`, `Chain`, `ApplyStrategy`, `SetAllOf`, `Loaded`).
- **Callbacks.** The updater's callbacks and sink are opaque to the package. The model logs every sink call (`applied`) and every callback call (`notices`).

## Model

| member | source | states |
|---|---|---|
| CacheEntries.Empty | cache.go:22-27 | `NewCacheValue` makes a slot that holds nothing and is never live, with the given timeout |
| CacheEntries.Stored | cache.go:98-111 | after `Set(v)` at `now` the slot holds `v` and is live exactly at the instants not after `now + timeout` (always, for timeout 0) |
| CacheEntries.Cleared | cache.go:115-127 | after `Delete` the slot holds the zero value and the zero instant and is never live |
| CacheEntries.StoredTtl | cache.go:30-35 | with timeout 0 a stored value never expires; with a positive timeout, a value stored at `t` is live at `now` iff `now <= t + timeout` |
| CacheEntries.GetDefaultOutcome | cache.go:55-78 | a live hit returns the value as cached and changes nothing; a miss with no generator returns zero; a successful generator's value is returned as not cached and stored live; a failing generator returns zero and its error and changes nothing |
| CacheEntries.GetDefaultThenHit | cache.go:55-78 | after a successful generated miss, a second `GetDefault` while the value is live returns it as cached |
| CacheEntries.IsExpired | cache.go:30-35 | a slot is expired iff it holds a value, its timeout is non-zero, and its expiry instant lies strictly before now (a zero timeout never expires) |
| CacheEntries.Live | cache.go:30-35 | a slot is live (usable without the generator) iff it holds a value and either has no timeout or has not yet passed its expiry instant |
| CacheEntries.CacheValue.constructor | cache.go:22-27 | the new slot is empty, with the given timeout and generator |
| CacheEntries.CacheValue.GetNoDefault | cache.go:39-49 | `ok` iff the slot is live; the value if live, zero otherwise |
| CacheEntries.CacheValue.Has | cache.go:130-133 | true iff the slot is live |
| CacheEntries.CacheValue.Set | cache.go:98-111 | the new slot is `Stored(old, v, now)`; the answer is true iff a live value was overwritten |
| CacheEntries.CacheValue.Delete | cache.go:115-127 | the new slot is `Cleared(old)`; the answer is true iff a live value was removed |
| CacheEntries.CacheValue.Clear | cache.go:136-138 | the slot is emptied as by `Delete` |
| CacheEntries.CacheValue.GetDefault | cache.go:55-78 | result and new slot are `GetDefaultOutcome` for the generator's answer; the generator runs only on a miss when there is a generator |
| CacheEntries.CacheValue.Get | cache.go:83-94 | with a generator, `ok` holds iff there is no error, and value, error, new slot and generator-call count are those of `GetDefault`. A live hit calls no generator and changes nothing. A generated miss stores `Stored(old, v, now)`. An error leaves the slot unchanged. Without a generator it answers as `GetNoDefault` and changes nothing |
| CacheEntries.CacheValue.Update | cache.go:142-155 | no generator gives the error "defaultFn is not set" and no change; a successful generator overwrites the slot even when live; a failing generator returns its error and leaves the slot unchanged |
| Caches.SlotAt | cache.go:191-213 | a key that is absent has a fresh slot that is never live |
| Caches.SetAllOfContents | cache.go:393-401 | after `SetMany`, every item key is live and holds its item; every other key keeps its slot and its liveness |
| Caches.Cache.constructor | cache.go:171-188 | the new cache has empty storage and the given timeout, key function and generator |
| Caches.Cache.GetCacheValue | cache.go:191-213 | returns the key's slot and inserts a fresh empty slot when it had none; an existing slot is kept |
| Caches.Cache.GetNoDefault | cache.go:217-228 | `ok` iff the key is live; the stored value or zero; storage is untouched |
| Caches.Cache.GetDefault | cache.go:234-259 | the key's slot is created if absent; the answer and the new slot are `GetDefaultOutcome`; the generator runs only on a miss |
| Caches.Cache.Get | cache.go:264-275 | with a generator, `ok` iff there is no error, and value, error, new storage and generator-call count are those of `GetDefault` (the generator runs only on a miss); without one, `GetNoDefault` with storage unchanged |
| Caches.Cache.Set | cache.go:279-282 | the key's slot, created if absent, becomes `Stored`; the answer is true iff the key was live before |
| Caches.Cache.SetValue | cache.go:286-293 | without a key function, false and no change; otherwise `Set(keyFn(value), value)` |
| Caches.Cache.Delete | cache.go:297-309 | the key is removed from storage; the answer is true iff it existed and was live |
| Caches.Cache.GetKeyOf | cache.go:312-318 | the key function's answer, or the zero key when there is none |
| Caches.Cache.Has | cache.go:321-324 | true iff the key is live; storage is untouched |
| Caches.Cache.Clear | cache.go:327-332 | storage is empty |
| Caches.Cache.Len | cache.go:335-346 | the number of live keys |
| Caches.Cache.Keys | cache.go:349-360 | exactly the live keys, each once |
| Caches.Cache.Values | cache.go:363-374 | one value per live key: as many values as live keys, each live key's value occurs, and every value is some live key's value |
| Caches.Cache.Range | cache.go:378-389 | only live keys are visited, each at most once; visit `i` passes the callback its key, its value and the number `i` of earlier visits; every visit but the last answered true; if the last answered true (or nothing was visited), every live key was visited (the visited keys are a ghost result) |
| Caches.Cache.SetMany | cache.go:393-401 | storage is `SetAllOf(old storage, items)`; the count is the number of item keys that were live before |
| Caches.Cache.DeleteMany | cache.go:405-413 | the listed keys are removed; the count is the number of distinct listed keys that were live before |
| Caches.Cache.Update | cache.go:417-430 | no generator gives the error "defaultFn is not set" and no change; on success the value is `Set` even over a live value; on failure storage is unchanged |
| Stores.Store.constructor | store.go:10-18 | a nil map gives an empty store; otherwise the store holds the given contents |
| Stores.Store.Lookup | store.go:20-25 | a present key gives its value; an absent one gives `None` |
| Stores.Store.Get | store.go:20-25 | a present key gives its value; an absent one gives `None` |
| Stores.Store.Set | store.go:27-31 | the key maps to the value, so `Get` returns it; every other key is unchanged |
| Stores.Store.Delete | store.go:33-37 | the key is absent, so `Get` returns `None`; every other key is unchanged |
| Stores.Store.SetNoLock | store.go:39-41 | the same new map as `Set` |
| Stores.Store.GetNoLock | store.go:43-46 | the same answer as `Get` |
| Stores.Store.DeleteNoLock | store.go:48-50 | the same new map as `Delete` |
| Stores.Store.GetMap | store.go:52-56 | the current contents |
| Stores.Store.GetMapNoLock | store.go:58-60 | the current contents |
| Updaters.ApplyStrategy | updater.go:68-91 | for Replace, Merge, UpsertOnly and Incremental, every data key ends up in the store with its data value; no key appears that was in neither the store nor the data; an unknown strategy leaves the store as it was |
| Updaters.ApplyReplace | updater.go:69-74 | under Replace the store afterwards holds exactly the data |
| Updaters.ApplyMerge | updater.go:76-88 | under Merge, UpsertOnly and Incremental every data key holds its data value, and every other key keeps its presence and value |
| Updaters.ApplyUnknown | updater.go:68-91 | a strategy outside the four constants changes nothing |
| Updaters.ApplyIdempotent | updater.go:64-92 | applying the same data twice equals applying it once |
| Updaters.StoreSink.constructor | updater.go:56-61 | the sink keeps the given store and strategy |
| Updaters.StoreSink.Apply | updater.go:64-92 | the answer is always nil, and the store map becomes `ApplyStrategy(strategy, old map, data)` |
| Updaters.Chain | updater.go:253-264 | with no middlewares the chain is the source itself, and a single middleware wraps the source directly |
| Updaters.ChainSnoc | updater.go:142-145 | registering one more middleware wraps it innermost, around the source |
| Updaters.ChainIsReversedFold | updater.go:253-264 | the fetch chain equals the middleware fold of `WithMiddleware` over the middlewares in reverse order |
| Updaters.Updater.constructor | updater.go:127-138 | there are no middlewares and no callbacks, and nothing is recorded |
| Updaters.Updater.WithMiddleware | updater.go:142-145 | middlewares are appended in registration order; the receiver is returned and nothing else changes |
| Updaters.Updater.WithSuccessHandler | updater.go:148-151 | replaces the success callback; nothing else changes |
| Updaters.Updater.WithErrorHandler | updater.go:154-157 | replaces the error callback; nothing else changes |
| Updaters.Updater.BuildFetchChain | updater.go:253-264 | the result is `m0(m1(... mn-1(source)))`, and with no middleware it is the source itself |
| Updaters.Updater.SetLastSuccess | updater.go:280-285 | the last success becomes `now`, the last error is cleared, and nothing else changes |
| Updaters.Updater.SetLastError | updater.go:287-291 | the last error becomes `err`; the last success is kept |
| Updaters.Updater.UpdateOnce | updater.go:220-250 | a fetch error is recorded, goes to the error callback and is returned, and the sink is not called; an `Apply` error is handled the same way and skips the success callback; otherwise the last success is `now`, the error is cleared, the success callback gets the data, and the answer is nil |
| Updaters.Updater.StartSync | updater.go:173-187 | the context becomes a cancellable child of the parent, and the first update in it has exactly `UpdateOnce`'s effect: answer, last error and success, sink call log and callback log. On failure the context is cancelled and no loop is started; on success the fresh context is not cancelled and exactly one loop is started |
| Sets.Set.Empty | set.go:8 | `make(Set[T], n)` gives a fresh set with no members |
| Sets.Set.Add | set.go:23-25 | `v` becomes a member; no other membership changes |
| Sets.Set.Contains | set.go:27-30 | true iff `v` is a member |
| Sets.Set.Delete | set.go:32-34 | `v` stops being a member; no other membership changes |
| Sets.Set.Len | set.go:44-46 | the number of members |
| Sets.Set.Copy | set.go:36-42 | a fresh set with the same members, so later changes to it cannot reach the original |
| Sets.Set.Intersect | set.go:48-56 | a fresh set of the members of both sets; the inputs are unchanged |
| Sets.Set.Subtract | set.go:58-66 | a fresh set of the members of `s` that are not in `s2` |
| Sets.Set.Union | set.go:68-77 | a fresh set of the members of either set |
| Sets.Set.Difference | set.go:79-87 | a fresh set of the members of `s` that are not in `s2`, the same as `Subtract` |
| Sets.Set.Slice | set.go:89-95 | every member exactly once, with length `Len()` |
| Sets.NewSet | set.go:7-13 | a fresh set of exactly the slice's elements |
| Sets.NewSetFunc | set.go:15-21 | a fresh set of exactly `keyFn(v)` for the slice's elements |
| Pools.Cursor | pool.go:8-13 | the cursor is always a valid index, below the number of items |
| Pools.CursorIsMod | pool.go:12-13 | after `k` calls the cursor is `k mod len(items)` |
| Pools.CursorPeriodic | pool.go:13 | after `len(items)` more calls the cursor is back where it was, and it is at 0 after the first `len(items)` calls |
| Pools.RoundRobin.constructor | pool.go:7-9 | the cursor starts at 0 |
| Pools.RoundRobin.Next | pool.go:10-16 | needs a non-empty list; call `k` (from 0) returns `items[k mod len(items)]`, and the cursor moves on one step, wrapping, and stays in range |
| Env.TrimShape | env.go:36-40 | trimming returns an infix of the input; everything cut off is in the cut set, and the result neither starts nor ends with a cut character |
| Env.IndexOf | env.go:31 | the position of the first `=`, or none when there is no `=` |
| Env.ParseLine | env.go:25-40 | a line gives nothing iff it is empty, its raw text starts with `#`, or it has no `=`; otherwise it gives one key and value |
| Env.ParseLineFields | env.go:31-40 | the line is split at its first `=`; the key is the part before it, trimmed of white space and free of `=`; the value is the rest, trimmed of white space and then of every leading and trailing quote |
| Env.LoadEnvLines | env.go:21-47 | the environment and error are `Loaded(env, lines)` |
| Env.Loaded | env.go:21-47 | the only error a scan can end with is the wrapped `setenv` error, and no key set before the scan is unset by it |
| Env.LoadedStops | env.go:42-44 | after an `os.Setenv` failure, later lines change nothing |
| Env.LoadedAllAccepted | env.go:22-47 | when `os.Setenv` refuses no pair, every parsed line is applied in order and the answer is nil |
| Env.LoadedFirstRejected | env.go:42-44 | at the first refused pair the load stops with the wrapped `setenv` error, keeping exactly the pairs of the earlier lines |
| Env.Applied | env.go:21-47 | applying lines never unsets a key that was set before |
| Env.AppliedKeys | env.go:22-45 | after the lines are applied, a key is set iff it was set before or some line assigns it |
| Env.AppliedLastWins | env.go:22-45 | a key's value is the one from the last line that assigns it |
| Env.AppliedUntouched | env.go:22-45 | a key that no line assigns keeps its earlier value |
| Middlewares.WithMiddleware | middleware.go:5-10 | the result is `Wrapped(v, ms)` (`ms[n-1](... ms[0](v))`), and it is `v` when there is no middleware |
| Middlewares.WrappedSnoc | middleware.go:6-9 | one more middleware at the end wraps the previous result once more |
| Middlewares.WrappedAppend | middleware.go:6-9 | wrapping with `a + b` is wrapping with `a` and then with `b` |
| Middlewares.WrappedFirstInnermost | middleware.go:6-8 | the first-listed middleware is applied first, to `v` itself |
| Filters.And | filter.go:5-9 | accepts iff both filters accept |
| Filters.Or | filter.go:11-15 | accepts iff either filter accepts |
| Filters.Not | filter.go:17-21 | accepts iff the filter rejects |
| Filters.NotNot | filter.go:17-21 | negating twice agrees with the original everywhere |
| Filters.AnyFilterCall | filter.go:24-31 | the closure's loop answers true iff some filter accepts |
| Filters.AllFilterCall | filter.go:35-42 | the closure's loop answers true iff every filter accepts |
| Filters.AnyFilter | filter.go:23-32 | accepts iff some filter accepts; with no filters, nothing |
| Filters.AllFilter | filter.go:34-43 | accepts iff every filter accepts; with no filters, everything |
| Equals.NewFilter | equal.go:5-9 | accepts `v` iff `fn(target, v)`, with the target as the first argument |
| Equals.FilterByTarget | equal.go:5-9 | filtering a slice with `fn.NewFilter(t)` keeps exactly the elements `v` with `fn(t, v)`, in order |
| Slices.NewSlice | slice.go:7-9 | the items themselves |
| Slices.Filter | slice.go:11-13 | the same as the package-level `Filter` |
| Slices.ReversedAt | slice.go:16-20 | the reversal has the same length, and position `i` holds `s[len(s)-1-i]` |
| Slices.ReversedTwice | slice.go:16-20 | reversing twice gives back the slice |
| Slices.Reverse | slice.go:16-20 | reversing a clone in place gives `Reversed(s)`; the receiver is untouched |
| SliceFilter.Filter | slice_filter.go:3-11 | the loop's result is `Filtered(slice, fn)` |
| SliceFilter.NewSliceFilter | slice_filter.go:13-17 | the closure filters any slice exactly as `Filter` |
| SliceFilter.FilteredAppend | slice_filter.go:3-11 | filtering a concatenation is concatenating the filtered parts |
| SliceFilter.FilteredMembers | slice_filter.go:3-11 | the output is at most as long as the input, holds exactly the accepted input elements, and never repeats an element more often than the input |
| SliceFilter.FilteredIsSubsequence | slice_filter.go:3-11 | the output keeps the input order: it is picked at strictly increasing input positions |
| SliceFilter.FilteredIdempotent | slice_filter.go:3-11 | filtering twice with the same predicate is filtering once |
| SliceMap.MappedAt | slice_map.go:5-11 | same length, and position `i` holds `fn(s[i])` |
| SliceMap.Map | slice_map.go:5-11 | the loop's result is `Mapped(slice, fn)` |
| SliceMap.MappedCompose | slice_map.go:5-11 | mapping with `f` and then `g` is mapping once with `g` after `f` |
| SliceMap.NewSliceMapper | slice_map.go:13-17 | the closure maps any slice position by position with `fn` |
| SliceReduce.Reduce | slice_reduce.go:3-8 | the loop's result is the left fold `Folded(slice, acc, fn)` |
| SliceReduce.FoldedEmpty | slice_reduce.go:3-8 | reducing an empty slice gives `acc` |
| SliceReduce.FoldedSnoc | slice_reduce.go:4-6 | `Reduce(s + [x])` is `fn(Reduce(s), x)` |
| SliceReduce.FoldedAppend | slice_reduce.go:4-7 | reducing `a + b` is reducing `b` from the result for `a` |
| SliceReduce.FoldedSteps | slice_reduce.go:4-6 | elements are consumed left to right, each once: the result ends a chain of accumulators with `acc[i+1] = fn(acc[i], s[i])` |
| Maps.NewMapFunc | map.go:3-9 | the loop's result is `Indexed(slice, keyFn)` |
| Maps.IndexedKeys | map.go:3-9 | every key of the result is `keyFn(v)` for some element `v`, and every element's key is in the result |
| Maps.IndexedLastWins | map.go:5-7 | on a key collision the element appearing last in the slice wins |
| Maps.IndexedSize | map.go:4-8 | at most one entry per element, and exactly one when the keys are distinct |

## Left out

- Locking. Every `sync.RWMutex`/`sync.Mutex` in `cache.go`, `store.go`, `updater.go` and `pool.go` is left out, and each operation is one atomic step. The race where two concurrent misses both run the generator is outside a sequential model.
- `getCacheValue`'s two-phase lock check. It is one step here, "insert an empty slot if absent".
- Pointer aliasing:
  - `Cache` storage holds slots as values, not `*CacheValue` pointers that callers keep.
  - `NewStore(m)` and `GetMap` share the Go map with the caller. Here they copy values, so a caller's later writes to that map are not seen.
  - `RoundRobin(items)` captures the caller's slice. Here `items` is an immutable sequence, so a caller's later writes to the slice's elements do not change what the closure returns.
- The real clock. `time.Now()` is the `now` argument. Bulk operations (`SetMany`, `Len`, `Keys`, `Values`, `Range`) see one instant, whereas Go reads the clock once per entry. The instant type is an integer, with Go's zero `time.Time` as 0.
- CacheEntries.CacheValue.constructor, Caches.Cache.constructor: timeouts are natural numbers, so negative durations are not modelled. In Go a negative timeout makes every stored value count as expired at once: the timeout is non-zero, so the expiry check applies, and `Set` never moves the expiry instant forward because the timeout is not positive (cache.go:30-35, 106-108).
- Caches.Cache.constructor: the capacity hint has no effect on contents and is ignored.
- Go map iteration order. `Keys`, `Values`, `Range`, the `Set` loops, `StoreSink.Apply` and `SetMany` visit keys in an arbitrary order. Their contracts hold for every order.
- Caches.Cache.Range: the callback is a pure function of the key, the value and the number of earlier visits. A callback whose state depends only on how many times it was called (such as a counter) is covered; other side effects are not modelled.
- Caches.Cache.Values: the order of keys behind the values is a ghost out-parameter, not part of the Go result.
- Caches.Cache.Range: Go's `Range` returns nothing. The list of visited keys is a ghost out-parameter that only states which keys the callback saw.
- Updaters.Updater.UpdateOnce: the callbacks, the source and the sink are opaque. The fetch chain and the sink are pure functions of the context. Callback calls are recorded in a log rather than run.
- Updaters.Updater.StartSync: only the first synchronous update and the "failure means no loop" branch are modelled. `Start`, `run`, `Stop`, `update`, the ticker, the wait group and real context cancellation are not; cancellation is a flag.
- `LastSuccess` and `LastError` are plain reads of the fields `lastSuccess` and `lastError`.
- `background.go` and its waiters are left out: they exist for goroutines and channels.
- `json.go`, `error_as.go`, `error_line.go` and `must.go` are not part of this model. They wrap reflection and runtime calls with no logic of their own.
- `env.go` I/O is left out: opening the file, `bufio.Scanner` with its line-length limit, and the scanner's final error. The file is the list of its lines, and the process environment is a map.
- Env.LoadEnvLines: `os.Setenv` is modelled by the Unix rule for refusing a pair: an empty key, `=` or NUL in the key, or NUL in the value. Other platforms' rules are not modelled.
- Env.ParseLine: strings are sequences of Unicode characters. Trimming of invalid UTF-8 bytes is not modelled.
- Pools.RoundRobin.Next: requires a non-empty list. Go faults on the first call with an empty list, and that fault is a precondition here, not a modelled panic.
- Filters.AnyFilterCall: the `AnyFilter` closure runs its loop on each call. The loop is the method, and the closure value is `AnyFilter`, proved equal to it in meaning. `AllFilterCall` and `AllFilter` are modelled the same way.
