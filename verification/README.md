# Resilience layers of the Connect SDK core, in Dafny

A model of the stateful and concurrent parts of the client SDK, with proofs about all inputs, all runs and all
interleavings. `dafny verify dfyconfig.toml` checks everything.

| area | files |
|---|---|
| response cache: keys, entries, LRU store | `CacheKeys`, `CacheEntries`, `Lru`, `MemoryCache`, `LruRuns`, `LruInclusion`, `LruBudget` |
| caching transport and its coherence protocol | `CachingTransport`, `CacheProtocol`, `CacheCoherence`, `CacheInvalidation`, `CacheLifetimes`, `CacheQueries` |
| paging and prefetching | `Pagination`, `Prefetch`, `PrefetchTheorems` |
| circuit breaker | `Breaker`, `BreakerRuns` |
| hedged requests, both versions | `Hedge`, `HedgeV2Race`, `HeaderHeap`, `HedgeV2Isolation`, `HedgeV2Theorems`, `HedgeV2Whole` |
| token sources and rotation | `TokenSources`, `TokenProtocol` |
| retry | `Retry` |
| interceptor stacks and the preset | `Stack`, `StackTheorems`, `StackEvents`, `StackRepeats`, `StackKeys`, `Clients` |

Objects that the SDK updates in place (the LRU cache with its nodes, the transport, the breaker with its ring buffer, the
hedge counters, the token sources, the request headers) are classes, and each method is proved against a specification
function. Concurrency is a state machine: a run is any sequence of labels, a label that is not enabled changes nothing,
and theorems hold of every run. Timers, channel selects, servers, clocks, jitter and key functions are choices of the
environment.

## Hypotheses

- Clocks are monotone. The cache store and the transport share one clock in `CacheProtocol`;
  `CachingTransport.MissHasPrevious` says what happens when they do not.
- The body digest is a parameter, assumed colon-free and free of collisions where a theorem says `GoodDigest`. It stands
  for hexadecimal SHA-256.
- Scopes are colon-free in the protocol, and paths where invalidation is said to be exact.
- Stored entries are not changed from outside, and callers send no `If-None-Match` of their own.
- Calls to the next layer return. Jitter draws are in [0, 1). Durations stay below the range of 64-bit nanoseconds.

## Where code and documentation differ

The model follows the code.

- The breaker's documentation speaks of a bounded number of trials. A call admitted earlier that reports during the
  half-open period frees a slot it never held: `BreakerRuns.MostTrialsIsExact` gives the bound that is reached, and
  `BreakerRuns.TrialLimitIffNoStragglers` when the configured one holds.
- The retry documentation bounds delays by the maximum. A larger `MinDelay` is returned as it is:
  `Retry.MaxHoldsIffFloorBelow`.
- A write through a root path `/name` invalidates `/namem` instead of `/m`: `CacheKeys.TargetIsSibling`.
- The repository's README puts retry outside the key layer and keeps the key on the context; the preset puts the key
  layer outside retry, and the code keeps the key on the request header. An empty key counts as no key, so stacks that
  run a key layer again can change it: `StackKeys.OneKeyIff` gives the stacks, `StackTheorems.StandaloneCall` is about
  the preset.
- An invalidation does not reach what is on its way: `CacheInvalidation.InvalidationHoldsIff` says exactly which flights,
  waits and refreshes bring something older back.
- The transport's documentation speaks of Connect's GET mode, which carries the message in the query; the cache does not
  look at the query, so one message can be answered with the reply to another: `CacheQueries.QueriesMatterIff`.

## Model

| member | source | states |
|---|---|---|
| `CacheKeys.KeyInjective` | caching/keys.go:12-20 | equal cache keys come from equal scope, method path and body, so no request reads another tenant's or another method's entry; paths may hold colons, scopes may not |
| `CacheKeys.GoodDigestExists` | caching/keys.go:12-20 | what the theorems ask of the digest can be met |
| `CacheKeys.PrefixCovers` | caching/transport.go:116-120 | exactly which entries one invalidation prefix covers, for arbitrary paths (if and only if) |
| `CacheKeys.PrefixExact` | caching/caching.go:77-86 | with colon-free scopes and paths a prefix covers all bodies of one method of one tenant and nothing else (if and only if) |
| `CacheKeys.ScopesCollideIff` | caching/transport.go:116-120 | what scopes may look like: of two different scopes the writes of one can evict entries of the other if and only if one continues the other with a colon |
| `CacheKeys.TargetIsSibling` | caching/transport.go:280-289 | the invalidation target is the sibling method of the written path exactly when the path has a service part; a root path `/name` builds the wrong prefix |
| `CacheEntries.ComputeEntrySize` | caching/memory.go:84-93 | the accounting loop computes the sum of key, body, tag and all header names and values |
| `CacheEntries.Partition` | caching/caching.go:46-60 | fresh and stale exclude each other and, with a non-negative stale window, every time is fresh, stale or past the hard deadline |
| `Lru.TrimIsLongestFit` | caching/memory.go:141-159 | eviction leaves the longest prefix of the recency order that fits both bounds, or the newest entry alone when it exceeds the byte budget by itself |
| `MemoryCaches.MemoryCache.constructor` | caching/memory.go:65-79 | an empty valid cache; non-positive arguments select the defaults |
| `MemoryCaches.MemoryCache.MapAgrees` | caching/memory.go:100-103 | the map finds exactly what a search of the recency order finds: both hold the same keys once each |
| `MemoryCaches.MemoryCache.EvictElement` | caching/memory.go:163-170 | one node leaves list and map, its bytes are released, and the clamp at zero changes nothing |
| `MemoryCaches.MemoryCache.MoveToFront` | caching/memory.go:114-114 | the node's slot becomes the most recent one, no other slot changes order, no bytes change |
| `MemoryCaches.MemoryCache.EvictToBudget` | caching/memory.go:146-159 | the eviction loop ends with both bounds met (or one entry left) and refines the reference trim |
| `MemoryCaches.MemoryCache.Get` | caching/memory.go:97-116 | refines the reference lookup: contents and result are those of the sequence-shaped LRU |
| `MemoryCaches.MemoryCache.Set` | caching/memory.go:121-139 | refines the reference store: update in place or insertion, then trimming |
| `MemoryCaches.MemoryCache.Delete` | caching/memory.go:173-186 | removes the slot of the key and no other |
| `MemoryCaches.MemoryCache.DeleteMatching` | caching/memory.go:195-212 | deleting while ranging over the map in any order removes exactly the slots whose key has the prefix; the empty prefix is refused |
| `LruRuns.RunDistinct` | caching/memory.go:121-139 | over every sequence of operations each key is held once |
| `LruRuns.RunWithinLimits` | caching/memory.go:141-159 | over every sequence of operations the count is within capacity and the bytes within budget, or one entry is alone |
| `LruRuns.LookupLeaves` | caching/memory.go:97-116 | after any operations a lookup removes exactly a slot past created + ttl + swr, puts a living one in front, and leaves the others in their order |
| `LruRuns.StoreLeaves` | caching/memory.go:121-159 | after any operations a store leaves the new slot in front of the others, cut from the back to the longest prefix within both bounds, or to the new slot alone |
| `LruRuns.HoldsLatestSet` | caching/memory.go:97-212 | over every sequence of operations a key is held with the entry of its latest `Set` or not at all |
| `LruRuns.HitIsLatestSet` | caching/memory.go:95-116 | every hit returns the latest `Set` of the key, not deleted since, and never past its hard deadline |
| `LruRuns.HitsExactlyTheLiving` | caching/memory.go:95-116 | with a monotone clock and no eviction a lookup hits if and only if the latest `Set` is alive |
| `LruInclusion.RunsWithin` | caching/memory.go:97-170 | on equal operations the small cache's recency order is a subsequence of the large one's, with at most the difference of the capacities missing |
| `LruInclusion.SmallHitIsLargeHit` | caching/memory.go:97-170 | every hit of a smaller cache is a hit of a larger one with the same entry, when the byte budget never binds |
| `LruInclusion.SmallEntriesInclude` | caching/memory.go:97-170 | the same under a condition on the entries alone: capacity times the largest entry fits the byte budget |
| `LruBudget.InclusionIff` | caching/memory.go:97-170 | inclusion under a byte budget, exactly: over all runs every small hit is the same large hit if and only if the smaller capacity is one, the capacities are equal, or the budget never lets the smaller capacity be exceeded |
| `LruBudget.BudgetCrowdsOut` | caching/memory.go:146-147 | for all other capacities and budgets, from any slots that tell them apart: a run after which the larger cache misses what the smaller one hits |
| `CachingTransport.MissHasNoPrevious` | caching/transport.go:87-103 | with the store's clock not behind the transport's, whatever the store returns is served at once: a miss never carries a previous entry |
| `CachingTransport.MissHasPrevious` | caching/transport.go:87-103 | with unrelated clocks, exactly when a lookup falls through to a revalidating fetch (if and only if) |
| `CachingTransport.Transport.Lookup` | caching/transport.go:86-103 | which entries are served at once, which are served and refreshed, and which are fetched, in terms of created, ttl and swr of what the store holds; and the store's new contents |
| `CachingTransport.Transport.ProcessResponse` | caching/transport.go:179-217 | which replies are stored and with what lifetime: 304 confirmation, declared 404, success; other errors are returned but never stored; oversized or unreadable bodies fail |
| `CachingTransport.Transport.Invalidate` | caching/transport.go:106-122 | after a 2xx one anchored deletion per listed method, in order; after any other status none |
| `CachingTransport.InvalidationExact` | caching/transport.go:106-122 | a successful write removes every entry of its own scope and the listed methods, for all bodies, and no entry of any other scope or path (if and only if) |
| `CachingTransport.KeysIgnoreQueries` | caching/keys.go:12-20 | two requests share a key exactly when scope, path and body agree, whatever their queries |
| `CacheQueries.QueriesMatterIff` | caching/transport.go:64-139 | over all runs that issue only given requests, every call is served from replies to its own message if and only if no two cacheable ones of them have the same scope, path and body but different queries |
| `CacheProtocol.NextWired` | caching/transport.go:124-168 | every step keeps the single-flight bookkeeping: one open flight per key, callers wait for flights of their own request |
| `CacheCoherence.NextVouched` | caching/transport.go:141-217 | every step keeps every stored, awaited and served entry vouched for by a reply of the server |
| `CacheCoherence.ServedIsVouched` | caching/transport.go:64-217 | in every interleaving of calls, flights, refreshes and invalidations a served response has the status, headers and body of a reply to that very scope, path and body, given, or confirmed by 304s to fetches that carried its tag of the moment, no later than its stamp; served from the store it is within TTL plus stale window |
| `CacheCoherence.CallsNeverRevalidate` | caching/transport.go:102-103 | over all runs a foreground fetch is only ever reached without a previous entry |
| `CacheCoherence.OneFlightPerKey` | caching/transport.go:124-139 | over all runs at most one fetch per request is under way |
| `CacheLifetimes.StoredIsDeclared` | caching/transport.go:183-216 | over all runs every stored entry is a success with the declared TTL and stale window of its path, or a 404 with the declared TTL for misses and no stale window; no other status is ever stored, confirmed or not |
| `CacheLifetimes.ProcessStores` | caching/transport.go:179-217 | in every reachable state: which reply is stored, as which entry, and what the callers of its flight get |
| `CacheLifetimes.ConsultMoves` | caching/transport.go:86-103 | in every reachable state a lookup starts a refresh exactly if the stored entry is past its TTL and within its stale window, is served without one exactly if within its TTL, and misses otherwise |
| `CacheLifetimes.ServedIsYoung` | caching/transport.go:91-99 | over all runs what is served from the store without a refresh is no older than the declared TTL of the path, and with one, within TTL plus stale window |
| `CacheLifetimes.ServedWithinLifetime` | caching/caching.go:46-60 | over all runs whatever was served from the store was within the declared lifetime of its path at that moment |
| `CacheLifetimes.RefreshAsks` | caching/transport.go:142-168 | a refresh asks the server exactly when no fetch for its request is under way, and then under the tag of the entry it refreshes |
| `CacheLifetimes.MissAsks` | caching/transport.go:124-155 | a miss asks the server exactly when no fetch for its request is under way, unconditionally, and waits for that fetch otherwise |
| `CacheLifetimes.ResultsAreDelivered` | caching/transport.go:124-139 | a call that waits gets the result of the ended flight for its own request, or fails with it |
| `CacheLifetimes.ReplyIsReused` | caching/transport.go:64-139 | what the cache is for: in every reachable state a success that a call fetched is served to it, and from the store to a call for the same request within the TTL, the server being asked once |
| `CacheInvalidation.InvalidationHoldsIff` | caching/transport.go:106-122 | read after write, exactly: calls served after an invalidation see only replies given after it (or only replies to fetches of flights started after it) in every continuation, if and only if no pending refresh of the path and no flight of it that is under way or awaited can bring something older back; for entries dated by the reply that gave them or by the last one that confirmed them, and for all servers or only those that answer 304 to nothing but tagged fetches |
| `CacheInvalidation.SettledReadsFresh` | caching/transport.go:141-217 | the sufficient half, for any one continuation and call |
| `CacheInvalidation.UnsettledServesOld` | caching/transport.go:158-168 | the necessary half: a continuation in which a call is served something older, from the flight, the wait or the refresh that was overlooked |
| `CacheInvalidation.InFlightFetchRestores` | caching/transport.go:205-211 | for every request and storable reply: a fetch in flight across the invalidation stores the older reply again and the next call is served it from the store |
| `Pagination.YieldItems` | pagination/pagination.go:52-56 | one page is yielded item by item until the consumer stops |
| `Pagination.Iter` | pagination/pagination.go:38-63 | the sequential iterator, over endless listings too, yields the items of all pages in order, then the first error if any, cut off where the consumer stops; a cancellation ends it with its error |
| `Pagination.BoundsAgree` | pagination/pagination.go:38-63 | what a consumer sees does not depend on which sufficient number of pages the iterator is described with |
| `Pagination.WithoutBoundEndless` | pagination/pagination.go:42-61 | where no number of pages suffices, no page, stop or cancelled check ever ends the loop |
| `Pagination.ErrorComesLast` | pagination/pagination.go:115-123 | only the last thing yielded can be an error |
| `Pagination.ListingIsYielded` | pagination/pagination.go:38-63 | in terms of the pages the server gives: every item of every page in order, up to the page without a successor or the fetch that fails, whose error comes last |
| `Pagination.CancelledListingIsYielded` | pagination/pagination.go:38-48 | a context cancelled before the next fetch: the items of the pages so far, then the context's error |
| `Pagination.Collect` | pagination/pagination.go:132-145 | the slice holds all items before the first error, a cancellation included, and that error is returned |
| `PrefetchTheorems.NextKeeps` | pagination/pagination.go:98-130 | every step of producer and consumer loses, repeats and reorders nothing |
| `PrefetchTheorems.YieldsAPrefix` | pagination/pagination.go:65-86 | every schedule over every listing, also under external cancellation: what was yielded is a prefix of what `Iter` yields, but for one final error under cancellation |
| `PrefetchTheorems.YieldsWhatIterYields` | pagination/pagination.go:65-86 | without external cancellation every schedule that ends, over every listing, yields exactly what `Iter` yields to the same consumer, one that stops early too |
| `PrefetchTheorems.NeverStuck` | pagination/pagination.go:98-130 | until both sides have finished some step is enabled: no deadlock on the channel |
| `PrefetchTheorems.StepsTerminate` | pagination/pagination.go:98-130 | every effective step uses up a finite measure, so every schedule over finitely many pages ends |
| `PrefetchTheorems.PrefetchIsBounded` | pagination/pagination.go:94-113 | completed fetches never exceed the pages received plus lookahead plus one |
| `PrefetchTheorems.PrefetchBoundIsExact` | pagination/pagination.go:94-113 | the bound is exact: on every listing that goes on for long enough some schedule reaches it (if and only if) |
| `PrefetchTheorems.ProducerDrains` | pagination/pagination.go:77-113 | after the consumer has returned the producer starts no more fetches than the channel had free slots, and nothing more is yielded |
| `PrefetchTheorems.ProducerEnds` | pagination/pagination.go:98-113 | after the consumer has returned the producer ends, whatever the listing, within 2 * lookahead + 2 effective steps, and is never stuck before |
| `Breaker.RingIsWindow` | breaker/breaker.go:216-228 | the cells that are counted hold exactly the last outcomes of the window |
| `Breaker.RingAdvances` | breaker/breaker.go:190-195 | overwriting the oldest cell keeps the ring in step with the full list of outcomes |
| `Breaker.CircuitBreaker.constructor` | breaker/breaker.go:104-127 | a closed breaker without outcomes; each setting in range is kept, each other replaced by its default, spelled out |
| `Breaker.CircuitBreaker.AllowCall` | breaker/breaker.go:157-183 | admits, rejects with the remaining wait, or starts the half-open period, as the full-history breaker does |
| `Breaker.CircuitBreaker.FailureCount` | breaker/breaker.go:216-228 | the counting loop returns the failures among the last outcomes of the window |
| `Breaker.CircuitBreaker.RecordInWindow` | breaker/breaker.go:191-195 | the ring update appends one outcome to the history and changes nothing else |
| `Breaker.CircuitBreaker.TripOpen` | breaker/breaker.go:230-235 | the circuit opens now, with the trial counters cleared |
| `Breaker.CircuitBreaker.CloseCircuit` | breaker/breaker.go:237-244 | the circuit closes with an empty history |
| `Breaker.CircuitBreaker.RecordResult` | breaker/breaker.go:185-214 | the ring-buffer breaker moves as the full-history breaker does, in all three states |
| `BreakerRuns.TrialBound` | breaker/breaker.go:157-214 | over all runs of overlapping calls the counter stays within the configured trials, and outstanding trials exceed it by no more than the reports of earlier calls in that period, hence by less than the success threshold |
| `BreakerRuns.AdmittedIff` | breaker/breaker.go:157-182 | over all runs a call is let through if and only if the circuit is closed, or it is open and openDuration has passed since the report that opened it, or it is half-open with trials left; and what a rejected call is told to wait |
| `BreakerRuns.ReportMoves` | breaker/breaker.go:185-243 | over all runs where a report takes the circuit, by the outcomes reported since it was closed and by those of the half-open period; when an open circuit was opened |
| `BreakerRuns.StragglersAdmitMore` | breaker/breaker.go:200-202 | for every configuration that can trip: a run in which each of m reports of earlier calls, m below the success threshold, admits one trial more than configured |
| `BreakerRuns.MostTrialsIsExact` | breaker/breaker.go:157-214 | the largest number of outstanding trials over all runs is halfOpenTrials + successThreshold - 1, or none if the circuit cannot trip (if and only if) |
| `BreakerRuns.TrialLimitIffNoStragglers` | breaker/breaker.go:40-42 | "a bounded number of trials" holds over all runs exactly when one success closes the circuit or the circuit can never trip (if and only if) |
| `BreakerRuns.ClosesAfterSuccesses` | breaker/breaker.go:203-211 | the circuit closes only on the success that completes an unbroken series of the configured length since it became half-open |
| `BreakerRuns.ClosingNeedsTrialIff` | breaker/breaker.go:199-211 | successes of earlier calls count: from the start of a half-open period closing takes the success of a trial in every continuation if and only if fewer earlier calls than the success threshold are outstanding |
| `BreakerRuns.NeverTripsIff` | breaker/breaker.go:190-198 | over all runs the circuit stays closed if and only if the failure threshold exceeds the window |
| `BreakerRuns.TripsAtThreshold` | breaker/breaker.go:190-199 | in every reachable closed state the failures among the last windowSize outcomes reported are below the threshold, and the circuit opens exactly at the failure that brings them up to it |
| `Hedge.HedgeState.TickOnce` | hedge/hedge.go:173-202 | one iteration: the counters, the channel, whether an attempt is fired and what is returned |
| `Hedge.RaceIsSound` | hedge/hedge.go:118-156 | over all runs: attempts within the limit, no attempt ever waits to send even after the return, the returned success is the first received, exhaustion returns the last received error, "no result" is never returned |
| `Hedge.SelectMoves` | hedge/hedge.go:173-202 | in every reachable state what each branch does: a success is returned at once, a failure remembered, the timer starts one attempt, a cancelled context returns its own error |
| `Hedge.NeverStuck` | hedge/hedge.go:145-149 | until it returns, the orchestrator or an attempt can always move |
| `Hedge.TicksTerminate` | hedge/hedge.go:145-149 | every tick that does not return decreases 2 * limit - launched - completed |
| `HedgeV2Race.RaceState.FireOne` | experimental/hedgev2/hedge.go:217-223 | launches one attempt below the limit and none at it |
| `HedgeV2Race.RaceState.RecordResult` | experimental/hedgev2/hedge.go:225-238 | a success wins; a failure with nothing else in flight launches the next attempt at once |
| `HedgeV2Race.NeverIdle` | experimental/hedgev2/hedge.go:184-202 | at every loop head an attempt is in flight, and the loop ends only when all attempts have failed, with the last received error |
| `HedgeV2Race.WinnerIsFirstSuccess` | experimental/hedgev2/hedge.go:171-203 | over all runs the winner is the first success received and late attempts can always report |
| `HedgeV2Race.LaunchesExactly` | experimental/hedgev2/hedge.go:205-238 | over all runs an attempt is launched exactly by the timer, or by a failure received with nothing else in flight, while there are fewer than the limit |
| `HedgeV2Race.ReturnsExactly` | experimental/hedgev2/hedge.go:184-203 | over all runs what each step returns: a success at once, the last error once all attempts have failed, the context's error when it is done |
| `HedgeV2Race.StepsTerminate` | experimental/hedgev2/hedge.go:184-203 | every step that does not return makes progress, except a timer at the limit, which changes nothing |
| `HeaderHeap.SetValuesKeeps` | experimental/hedgev2/hedge.go:297-301 | setting a field with a slice of its own changes what one header reads as, and shares nothing |
| `HeaderHeap.WriteSliceKeeps` | experimental/hedgev2/hedge.go:297-301 | writing through a field's slice is seen through that header only |
| `HeaderHeap.CopyHeaderKeeps` | experimental/hedgev2/hedge.go:297-301 | copying adds the source's fields to the destination in any key order, changes no other header, and shares no slice |
| `HedgeV2Theorems.NextRefines` | experimental/hedgev2/hedge.go:249-301 | every launch, write and adoption on the shared heap is the same step on values that nobody shares |
| `HedgeV2Theorems.AttemptsAreIsolated` | experimental/hedgev2/hedge.go:247-259 | in every interleaving an attempt's headers and messages are the caller's of the start plus only its own writes |
| `HedgeV2Theorems.CallerUntouched` | experimental/hedgev2/hedge.go:173-203 | the caller's message and call info are unchanged until a winner is adopted |
| `HedgeV2Theorems.WinnerIsKept` | experimental/hedgev2/hedge.go:276-295 | after adoption the caller holds the winner's values of that moment, untouched by any later write |
| `HedgeV2Whole.StartMeetsInv` | experimental/hedgev2/hedge.go:173-182 | every caller with headers of its own is a starting state of these theorems |
| `HedgeV2Whole.CallerGetsFirstSuccess` | experimental/hedgev2/hedge.go:173-203 | race and attempts together, at every moment of every interleaving: after a win the caller holds what the attempt whose success was received first had when it reported, and otherwise what it started with |
| `TokenSources.ServedTokenIsYoung` | oauth/broker.go:170-188 | the expiry tests serve exactly the tokens with 30 seconds left or no expiry (skew window), within cap and broker expiry (cap), or approved by a given test (if and only if) |
| `TokenSources.TokenOutcomeServes` | auth/auth.go:114-130 | one token call in terms of the life left: a young cached token is served, otherwise the reply is cached and served, and a refused fetch leaves the cache alone |
| `TokenSources.CachingOAuth2Source.GetToken` | auth/auth.go:114-130 | serves the cached token while the given validity test approves it, else caches and serves the reply |
| `TokenSources.CachingOAuth2Source.Invalidate` | auth/auth.go:132-138 | nothing is cached afterwards |
| `TokenSources.ClientCredentialsSource.GetToken` | oauth/client_credentials.go:100-108 | serves the cached token while young, else caches and serves the reply; a refused fetch keeps the cache |
| `TokenSources.ClientCredentialsSource.Refresh` | oauth/client_credentials.go:120-143 | a granted fetch replaces token and stamp, a refused one neither |
| `TokenSources.ClientCredentialsSource.Invalidate` | oauth/client_credentials.go:112-118 | nothing is cached afterwards |
| `TokenSources.BrokerSource.GetToken` | oauth/broker.go:103-168 | the same under the hard lifetime cap |
| `TokenSources.BrokerSource.Expired` | oauth/broker.go:170-188 | the broker's expiry can only tighten the cap |
| `TokenSources.AuthorizationCodeSource.GetToken` | oauth/authcode_source.go:56-81 | the same with a refresh token, which over all calls is the last non-empty one received; without one an expired token demands re-authentication |
| `TokenSources.AuthorizationCodeSource.Invalidate` | oauth/authcode_source.go:83-89 | drops the access token and keeps the refresh token |
| `TokenProtocol.NextKeeps` | auth/auth.go:116-138 | every step of every interleaving keeps the mutex discipline and the freshness of what is cached and attached |
| `TokenProtocol.SectionIsGetToken` | oauth/client_credentials.go:102-143 | one critical section of the protocol does to the cache, and returns, what one token call of a source does |
| `TokenProtocol.SecondAttemptIsFresh` | auth/rotation.go:57-73 | over all interleavings rotation makes at most two attempts, and the second carries a token whose fetch began after the first was rejected |
| `TokenProtocol.TokenIsFresh` | auth/auth.go:132-138 | every token call that begins after an invalidation has returned gets a token fetched after it; a token served from the cache has the life left that its policy promises |
| `TokenProtocol.AnswersMove` | auth/rotation.go:57-73 | in every reachable state exactly an unauthenticated answer to the first attempt of a rotating call makes it try again |
| `TokenProtocol.DropsAndTriesAgain` | auth/rotation.go:68-71 | the rejected call drops the cached token and goes on to its second token call |
| `TokenProtocol.ChecksMove` | oauth/client_credentials.go:100-108 | in every reachable state a token call is served the cached token exactly if it is young, and otherwise fetches |
| `TokenProtocol.OneFetchAtATime` | oauth/authcode_source.go:15-23 | at most one fetch is under way: concurrent callers wait for it |
| `Retry.Normalise` | retry/retry.go:129-152 | what each out-of-range setting becomes, each setting in range being kept |
| `Retry.FullJitterRange` | retry/retry.go:232-248 | the possible full-jitter delays, exactly: [0, min(ceiling, max)) without a floor, the floor or what lies between it and that with one (if and only if) |
| `Retry.DecorrelatedBounds` | retry/retry.go:250-259 | decorrelated delays stay between initial and max whatever delay or server hint came before, and within factor times the previous delay |
| `Retry.DecorrelatedRange` | retry/retry.go:250-259 | the possible decorrelated delays, exactly: initial, and what lies between it and min(max, factor times the previous delay) (if and only if) |
| `Retry.MaxHoldsIffFloorBelow` | retry/retry.go:76-80 | the configured maximum bounds every full-jitter delay exactly when the floor does not exceed it (if and only if) |
| `Retry.DelayBounds` | retry/retry.go:216-230 | every requested delay, hinted or computed, is non-negative and bounded |
| `Retry.CeilingRises` | retry/retry.go:261-263 | ceilings never decrease and never exceed max |
| `Retry.CeilingFollowsPower` | retry/retry.go:14-15 | the k-th ceiling is at most min(max, initial * multiplier^k), and unless it is max it is short of the power only by what truncation lost |
| `Retry.CeilingExact` | retry/retry.go:14-15 | with a whole multiplier the k-th ceiling equals min(max, initial * multiplier^k) |
| `Retry.WrapUnary` | retry/retry.go:171-230 | the loop: which attempt's outcome is returned and why; exactly which waits are asked for, a positive hint of the server winning up to max and the strategy drawing in its range otherwise; at most maxAttempts attempts, one behind the gate; the bound on the total sleep |
| `Retry.NextDelayIsRight` | retry/retry.go:216-230 | every delay is the hint up to max, or within min(max, initial * multiplier^(k-1)) for full jitter and min(max, factor * previous) for decorrelated jitter |
| `Stack.CallIsAccounted` | retry/retry.go:171-198 | for every stack of interceptors: wire attempts within the product of its retry and rotation factors, total wait within its wait budget, one breaker record per admission, and the caller gets the last deciding outcome |
| `StackTheorems.BreakerSeesOneOutcome` | breaker/breaker.go:281-290 | behind a breaker: rejected, nothing runs inside and the caller is told the wait; admitted, exactly the final outcome is recorded, failed if and only if its code is a failure code, whatever other callers do to the breaker meanwhile |
| `StackEvents.EventsAreJustified` | retry/retry.go:171-230 | over the trace of every stack, why each event happened: waits follow retryable errors, outside the gate, for the hinted or drawn delay; records say failed exactly for the failure codes; tokens are invalidated after unauthenticated errors only; keys are drawn for unsafe procedures only |
| `StackRepeats.RotationIsExact` | auth/rotation.go:57-73 | rotation around any layers that do not rotate: one invalidation and exactly one more run, whose outcome is returned, if and only if the first run ended unauthenticated |
| `StackRepeats.RetryIsExact` | retry/retry.go:171-198 | retry around any layers that do not retry: the right delay after each retryable error, and no giving up on one before all attempts are made or a wait was cut short |
| `StackRepeats.StandaloneRetries` | presets/presets.go:68-95 | the same of the preset, when its breaker lets the call through |
| `StackKeys.OneKeyIff` | idempotency/idempotency.go:65-78 | for every stack: all attempts of a call carry one key in every environment if and only if the procedure is safe, the caller set the key, or no key layer stands inside a layer that repeats |
| `StackKeys.KeysSplit` | idempotency/idempotency.go:73-75 | the other half made explicit: an environment, with a key function that may return the empty string, in which two attempts carry different keys |
| `StackTheorems.OneKeyWhateverTheOrder` | idempotency/idempotency.go:65-78 | where the condition fails: with key functions that never return the empty string, one key all the same, in every order of layers |
| `StackTheorems.EveryAttemptDrawsItsToken` | auth/auth.go:193-203 | with authentication innermost each wire attempt directly follows a token call and carries its token |
| `StackTheorems.Standalone` | presets/presets.go:68-95 | the preset's layers in order, the defaults chosen for absent options, the normalised settings; authentication without a source is refused |
| `StackTheorems.StandaloneCall` | presets/presets.go:15-24 | one logical call through the preset: retry budget of attempts and of waiting, one record if admitted, no key and no attempt if rejected, one key on all attempts, a token for each |
| `Clients.Client.Invoke` | presets/presets.go:68-95 | the interceptors, writing one request object and moving one ring-buffer breaker that other callers use too, do what the specification of the stack says |
| `Clients.Client.WrapBreaker` | breaker/breaker.go:281-290 | as above for the breaker layer |
| `Clients.Client.WrapIdempotency` | idempotency/idempotency.go:65-78 | as above for the key layer |
| `Clients.Client.WrapRetry` | retry/retry.go:171-198 | as above for the retry loop |
| `Clients.Client.WrapRotation` | auth/rotation.go:57-73 | as above for rotation: invalidate and try once more on an unauthenticated error |
| `Clients.Client.WrapAuth` | auth/auth.go:169-203 | as above for the credential layer: no token, no attempt |

## Left out

- CacheKeys.KeyInjective: SHA-256 itself is not modelled; freedom from collisions is a hypothesis on the digest.
- CacheInvalidation.InvalidationHoldsIff: speaks of one invalidated path; the other targets of the same write are steps
  before and after it.
- MemoryCaches.MemoryCache.MoveToFront: the linked list is a sequence of node objects; a list element is its node, and
  unlinking is by position.
- Pagination.Iter: takes a sufficient number of pages as a ghost argument, since the loop need not end;
  `Pagination.WithoutBoundEndless` shows that it excludes nothing that ends.
- PrefetchTheorems.YieldsAPrefix: under external cancellation only the prefix is claimed, since the run may end with or
  without an error.
- PrefetchTheorems.StepsTerminate: a count of steps, not a statement about time.
- Retry.WrapUnary: 64-bit overflow and floating-point rounding of the factors are not modelled; the arithmetic is exact
  over the reals, with truncation.
- Stack.CallIsAccounted: one breaker, one retry and one rotation configuration per stack, and errors are a code with an
  optional delay; custom classification functions are sets of codes.
- TokenSources.ServedTokenIsYoung: the validity test of the external OAuth2 token type is a parameter.
- HedgeV2Whole.CallerGetsFirstSuccess: an attempt that has reported is taken to write no more, its goroutine having ended.
- HTTP, TLS, connection pools, JSON, OIDC discovery, PKCE, URL building, hashing and random sources: I/O or libraries.
- Observability, logging, compression and timeouts: pass-through layers; the preset's outermost layer is modelled as
  doing nothing.
- Streaming calls, unconfigured cache paths and a lookahead below one: handed on unchanged.
- Branches for corrupt list entries and corrupt flight results: a typed model cannot reach them.
- The fallback of the second hedge for messages that are not protobufs, and the conversion of stream errors.
- The settable header pass-through source, the mesh preset, the read-only name prefixes and the layout of generated
  keys: one-branch or formatting code.
- Copying of request bodies and of response headers at the cache boundary: values in the model.
- Panics, and wall-clock liveness.
