# req-query-cache: a verified model of the caching coordinator

This project models the core of `req-query-cache`. The library memoizes asynchronous queries inside server request handlers, using two layers:

- a **request store**: a `Map` that lives for one request scope (`runWithCache`);
- an optional **persistent store**: a TTL-bounded cross-request cache behind an adapter interface. The reference adapter, `InMemoryStoreAdapter`, keeps entries in process memory.

Each call to `cachedQuery` does the following, in order:

1. It derives a key: the explicit `key`, or `hash(JSON.stringify(args))`, optionally written as `prefix:hash`.
2. It returns a hit from the request store.
3. For `ttlMs > 0`, it resolves the adapter (the override, else a lazily created default) and returns a non-null hit from it.
4. Otherwise, it runs the query once.
5. It writes the result to the request store and, for `ttlMs > 0`, to the adapter.

`forceRefresh` skips both reads but keeps both writes.

Files and modules:

- `values.dfy`, module `Values`: the JavaScript values results may take. `null` and `undefined` are distinct. The module also holds `Option`, `Result` and the two error kinds.
- `keys.dfy`, module `Keys`: key derivation. The SHA-256 digest and `JSON.stringify` are parameters `hash` and `serialize`, so the model assumes only that they are functions.
- `in_memory_adapter.dfy`, module `InMemoryAdapter`: the class `InMemoryStore` over a `map<string, Entry>`. `Entry.expiresAt == 0` means "never expires". Every read of `Date.now()` becomes a `now: nat` parameter. The functions `Lookup`, `AfterGet`, `Put` and `Purged` specify the methods. Lemmas relate the methods to each other.
- `core.dfy`, module `Core`:
  - `RequestStore` is the request scope, passed explicitly (null outside a scope).
  - `QueryFn` is an oracle: its n-th invocation settles as `respond(n, args)`, and it counts its invocations.
  - `Coordinate` is the reference definition of one call, as a function of the state the call sees.
  - `Runtime` holds the default adapter that the source keeps in a module variable. `Runtime.CachedQuery` is proved to do exactly what `Coordinate` says, and to create the default adapter only when a TTL call reaches the persistent layer without an override.
- `core_properties.dfy`, module `CoreProperties`:
  - lemmas about `Coordinate`: the short-circuit paths, write-back, failures and `forceRefresh`;
  - `Session`, a run of calls in one scope, with inductive lemmas over it;
  - lemmas for the TTL across scopes;
  - two client methods that drive the stateful classes.

## Model

| member | source | states |
|---|---|---|
| Keys.DeriveKey | src/core.ts:66-76 | fails with the missing-key configuration error exactly when auto-keying is off and the key is absent or empty; otherwise the explicit key verbatim (auto-keying off) or the automatic key (auto-keying on, explicit key ignored) |
| Keys.AutoKey | src/core.ts:67-70 | the bare digest of the serialized arguments when the prefix is empty; otherwise the prefix, a colon, then that digest |
| Keys.AutoKeyDeterministic | src/core.ts:67-70 | with auto-keying on, argument lists that serialize alike under one prefix get the same key, whatever explicit keys are given |
| Keys.DistinctDigestsDistinctKeys | src/core.ts:70 | under one prefix, distinct digests give distinct keys |
| Keys.PrefixesSeparateNamespaces | src/core.ts:70 | keys under two different non-empty, colon-free prefixes never coincide |
| InMemoryAdapter.ExpiryFor | src/inMemoryAdapter.ts:37 | a positive TTL gives an expiry exactly `ttlMs` after `now`; any other TTL gives 0, "never" |
| InMemoryAdapter.Purged | src/inMemoryAdapter.ts:17-24 | a key survives the sweep exactly when it is present and not expired (not `0 < expiresAt <= now`); survivors keep their entries |
| InMemoryAdapter.InMemoryStore.constructor | src/inMemoryAdapter.ts:8-15 | a new store is empty and open |
| InMemoryAdapter.InMemoryStore.Get | src/inMemoryAdapter.ts:26-34 | returns the data of a present, unexpired entry, else null; deletes the entry for the key when it had expired, changes nothing else |
| InMemoryAdapter.InMemoryStore.Set | src/inMemoryAdapter.ts:36-39 | stores `{value, expiry}` under the key, replacing any earlier entry; every other key keeps its entry |
| InMemoryAdapter.InMemoryStore.Del | src/inMemoryAdapter.ts:41-43 | removes the key if present (no error if absent), nothing else |
| InMemoryAdapter.InMemoryStore.CleanupExpired | src/inMemoryAdapter.ts:17-24 | the loop over the entries leaves exactly `Purged(old table, now)` |
| InMemoryAdapter.InMemoryStore.Close | src/inMemoryAdapter.ts:46-48 | marks the store closed and leaves its table unchanged |
| InMemoryAdapter.SetThenGet | src/inMemoryAdapter.ts:26-39 | after `set(k, v, T, t)`, `get(k, now)` is `v` for `now < t + T` and null from `t + T` on; for `T <= 0` it is always `v` |
| InMemoryAdapter.SetLeavesOtherKeys | src/inMemoryAdapter.ts:36-39 | `set` of one key does not change what `get` returns for any other key |
| InMemoryAdapter.DelThenGet | src/inMemoryAdapter.ts:41-43 | after `del(k)`, `get(k)` is null and other keys read as before |
| InMemoryAdapter.GetDeletesOnlyExpired | src/inMemoryAdapter.ts:26-34 | `get` removes at most the key it reads, only when that entry had expired, and no later read sees the difference |
| InMemoryAdapter.PurgeIdempotent | src/inMemoryAdapter.ts:17-24 | a second sweep at the same `now` changes nothing |
| InMemoryAdapter.PurgePreservesLookup | src/inMemoryAdapter.ts:17-34 | a sweep at `now` never changes what `get` returns at `now` or later |
| Core.RunWithCache | src/core.ts:36-39 | every scope starts with a fresh, empty request store |
| Core.QueryFn.Invoke | src/core.ts:103 | one invocation settles as the oracle's answer for the current count and adds one to the count |
| Core.Coordinate | src/core.ts:51-116 | reference definition of one call; whenever the query runs, the call's outcome is the query's own outcome; a scope is neither opened nor closed; no adapter resolved means the table is untouched |
| Core.Runtime.GetDefaultAdapter | src/core.ts:15-21 | returns the existing default store, or creates an empty one on first use and keeps it |
| Core.Runtime.CloseDefaultAdapter | src/core.ts:26-31 | closes the default store if there is one, keeps its table, and resets the default to none; with no store it changes nothing |
| Core.Runtime.CachedQuery | src/core.ts:51-116 | result, new request store, new table of the resolved adapter and the query count are those `Coordinate` gives; the default store is created, open, only when a TTL call without override reaches the persistent layer; an adapter that is not used is unchanged; no adapter is closed |
| CoreProperties.MissingKeyFailsFirst | src/core.ts:71-74 | without a usable key (auto-keying off), the call fails with the configuration error; no store is read or written, no adapter is resolved, and the query does not run |
| CoreProperties.ScopeHitShortCircuits | src/core.ts:79-84 | a key already in the open request store is returned from it (without `forceRefresh`); no query runs, no adapter is used, and nothing is written |
| CoreProperties.NoTtlNoPersistentLayer | src/core.ts:86-88 | with `ttlMs <= 0` no adapter is resolved and the persistent table is untouched |
| CoreProperties.PersistentHit | src/core.ts:88-98 | a live non-null persistent entry is returned and copied into the request store if one exists; no query runs and no `set` is made |
| CoreProperties.PersistentNullIsMiss | src/core.ts:90-103 | a persistent null (absent, expired or stored null) makes the query run; its outcome is the call's outcome |
| CoreProperties.MissWritesBack | src/core.ts:103-115 | a successful query's value is returned unchanged, written to the request store, and for a positive TTL written to the table with expiry `setNow + ttlMs`; no other key changes in the table |
| CoreProperties.ForceRefreshRunsAndOverwrites | src/core.ts:80-113 | `forceRefresh` always runs the query; on success it overwrites the key in the request store and, for a positive TTL, in the unread table |
| CoreProperties.FailureWritesNothing | src/core.ts:103-113 | a rejected query leaves the request store unchanged, and the table differs only by the adapter's own lazy expiry of the key |
| CoreProperties.SuccessIsRecordedInScope | src/core.ts:79-108 | inside a scope, any successful call leaves its result in the request store under its key |
| CoreProperties.QueryRunsExactlyOnFullMiss | src/core.ts:79-103 | with a usable key, the query runs if and only if `forceRefresh` is set or both layers miss: no open request store holds the key, and either `ttlMs <= 0` or the persistent lookup is null |
| CoreProperties.NoLayerAlwaysQueries | src/core.ts:79-103 | outside a scope, or in a fresh one, with `ttlMs <= 0`, every call with a usable key runs the query; without TTL separate scopes share nothing |
| CoreProperties.OtherKeyKeepsScopeEntry | src/core.ts:79-108 | a call whose key is not `k` (another key, or a configuration error) leaves the request store's entry for `k` as it was |
| CoreProperties.ScopeServesLaterCalls | src/core.ts:79-84 | once the scope holds a value under the key, every later call with that key returns that value without running the query, whatever calls with other keys (forced or not) come in between, provided no call with that key forces a refresh |
| CoreProperties.FirstSuccessIsFinal | src/core.ts:79-108 | in one scope, where no call with key `k` forces a refresh, after a successful call with key `k` every later call with key `k` returns the same value without running the query, whatever other-key calls come in between |
| CoreProperties.SecondCallInScopeIsServed | src/core.ts:79-108 | two same-key calls in one scope: if the first succeeds, the second returns its value, runs no query and changes neither layer |
| CoreProperties.TtlSharesAcrossScopes | src/core.ts:88-113 | after a TTL call writes a non-null value at `t`, a same-key call in a new scope reads it back without a query before `t + ttlMs`, and runs the query again from `t + ttlMs` on |
| CoreProperties.TwoCallsInOneScope | tests/core.test.ts:16-24 | two `CachedQuery` calls with one configuration in one fresh scope: if the first succeeds, the second returns the same value and the query ran at most once |
| CoreProperties.DefaultAdapterLifecycle | src/core.ts:15-31 | repeated use gives one default instance; closing closes it (a second close does nothing); the next use creates a new, empty, open store |

## Left out

- Async-local propagation of the request store (`AsyncLocalStorage`, src/core.ts:10, 44-46): the store is an explicit argument, null outside a scope. Nested scopes and the body `runWithCache` runs are the caller's business.
- Side effects of the query function on the cache: the query is an oracle that only counts its calls. A query that itself touches the request store or the adapter is not modelled. An example is a nested `cachedQuery` for another key inside the same request, which writes both layers before the outer call writes back.
- Core.Runtime.CachedQuery: its clauses on the new request store and the resolved adapter's table, computed from the state before the call, hold only for queries that do not touch the cache (see the line above).
- CoreProperties.MissWritesBack: "no other key changes in the table" holds only for queries that do not touch the cache.
- CoreProperties.FailureWritesNothing: "the request store is unchanged" holds only for queries that do not touch the cache.
- Concurrency: calls are sequential. Interleavings of overlapping requests, and the lack of single-flight deduplication, are not modelled.
- Custom persistent adapters: the `storeAdapter` override is modelled as another `InMemoryStore` instance. An adapter of any other implementation, including one whose operations fail, is not modelled. So the propagation of adapter failures is not modelled either.
- SHA-256 (src/hashKey.ts) and `JSON.stringify`: they are the parameters `hash` and `serialize`. Collision resistance is not claimed.
- The sweep timer (`setInterval`/`clearInterval`, src/inMemoryAdapter.ts:10-15, 46-48): `CleanupExpired` is a method the caller invokes, and `close` only sets a `closed` flag. The model does not forbid use after close, and neither does the source.
- `Date.now()`: every read is a `now` parameter. `CachedQuery` takes separate clock readings for the persistent read and the persistent write.
- Values: objects and non-integer numbers are not among the modelled values. `ttlMs` is an integer, so NaN and fractional TTLs are not modelled. Times and TTLs are unbounded integers, while the source computes `Date.now() + ttlMs` in JavaScript doubles (src/inMemoryAdapter.ts:37). So the rounding of that sum past 2^53 is not modelled, and neither is `ttlMs = Infinity`, which stores an entry that never expires.
- The framework adapters (src/express.ts, src/nest.ts) and the re-exports (src/index.ts) are not part of this model. Neither is the test double `SpyAdapter`.
