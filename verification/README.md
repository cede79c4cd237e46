# Gatex verification

A Dafny model of the Gatex API gateway's stateful core, with proofs about whole runs of it: the
TTL/LRU response cache, the token bucket and the sharded per-client limiter, the circuit breaker with
its permits, the backend pool, the request path that holds a permit and a backend at once, route
matching, and the writer that captures responses for the cache.

Check it with `dafny verify dfyconfig.toml`.

## How the model is built

- Each Go object is a class with the same fields and the same branches. The clock, the hash of a client
  key, the values an atomic load returns and the outcome of a downstream write are parameters.
- Each locked region is also a function on an immutable snapshot of the object (`Core`, `Tokens`,
  `Shard`, a list of `Item`s, ...), and the class methods are proved to follow these functions. The
  `...Runs` modules prove the properties over every sequence of such steps.
- Times and durations are integer nanoseconds; token counts and rates are reals. `time.Time.Sub` and
  `bucketRefillDuration` saturate at 2^63-1 as in Go. `generation` and connection counts are unbounded.

| file | modules |
|---|---|
| `Cache.dfy`, `CacheRuns.dfy` | `HttpValues`, `ResponseCache`; `CacheRuns` |
| `Bucket.dfy` | `TokenBucket`, `BucketRuns` |
| `Limiter.dfy` | `ClientLimiters`, `LimiterRuns`, `IdleEviction` |
| `Isolation.dfy`, `RetryAfter.dfy` | `ClientIsolation`; `RetryAfter` |
| `Breaker.dfy`, `BreakerRuns.dfy` | `CircuitBreaker`; `BreakerRuns` |
| `Balancer.dfy` | `Balancer`, `BalancerRuns`, `ReleaseProtocol` |
| `GatewayPool.dfy`, `GatewayRuns.dfy` | `GatewayPools`; `GatewayRuns` |
| `Routing.dfy` | `Routing` |
| `Capture.dfy` | `Capture`, `CacheMiddleware` |

## Where code and promises differ

- "The most specific matching route wins" (repository README) is not true of every accepted
  configuration: `config.Validate` only asks for a leading slash, and a prefix ending in two slashes is
  long without being specific. `Routing.TableIsSpecificExactly` says exactly which tables keep the promise, and
  `Routing.SpecificExactly` which prefixes are safe in any company.
- Forgetting idle clients is invisible exactly when an empty bucket refills within the longest
  `time.Duration`; beyond that, `bucketRefillDuration` saturates and eviction hands out tokens early
  (`LimiterRuns.TransparentExactly`).
- Elapsed time saturates in the bucket too, so a limit that needs longer than the longest duration to
  refill is stricter than its rate says (`BucketRuns.ExactExactly`), and a rejected call can change later
  answers (`BucketRuns.DroppingExactly`).
- "Per-client" limiting isolates clients exactly when a refill fits into a duration or every new instant is
  a cleanup; otherwise a shard-mate's call decides when an idle client is forgotten
  (`ClientIsolation.IsolatedExactly`).
- `Retry-After` is long enough for every limit that earns a token within the longest duration. For slower
  ones each gap between calls counts for one such duration at most, and `RetryAfter.RetryAfterExactly` says
  exactly when the advertised wait is still enough; with the gateway's cleanup interval of one minute it
  is not (`RetryAfter.RetryAfterInProduction`).
- A probe slot is held from the breaker's `Acquire` on, before a backend is selected: with one probe allowed,
  a request can be refused while no backend is in use, because of a request that then finds no backend
  (`GatewayRuns.RefusedWhileAnotherEnters`).
- The comment on `Cache.Set` says that at capacity it evicts the least recently used entry; the code
  first drops expired entries, and evicts a live one only if all are live. The model follows the code.

## Model

| member | source | states |
|---|---|---|
| ResponseCache.New | internal/cache/cache.go:56-74 | Non-positive TTL and capacity are refused in that order; otherwise an empty cache. |
| ResponseCache.Cache.Get | internal/cache/cache.go:79-94 | Keeps map and recency list in bijection; a live key is answered and moved to the front, an expired one is removed from the map, all other entries keep their order. |
| ResponseCache.Cache.Set | internal/cache/cache.go:99-129 | Keeps the bijection and the capacity; the new state is that of the item-list specification in every branch (refresh, purge, evict); nothing is dropped for a stored key or below capacity. |
| ResponseCache.Cache.RemoveExpired | internal/cache/cache.go:136-145 | The back-to-front loop is exactly the order-preserving filter of unexpired entries. |
| ResponseCache.Cache.RemoveAt | internal/cache/cache.go:131-134 | Removes one entry from map and list together and keeps them in bijection. |
| CacheRuns.HitsAreLatest | internal/cache/cache.go:79-129 | After any run the store has distinct keys within capacity, and every hit returns the response of the latest Set on its key, strictly less than TTL after it. |
| CacheRuns.EvictsOnlyWhenAllLive | internal/cache/cache.go:113-128 | Set keeps every live entry of another key, unless the cache was full of live entries and the entry was the least recently used. |
| CacheRuns.LruRetention | internal/cache/cache.go:79-145 | After a Set or hit on a key, with fewer than maxEntries other keys stored or hit since and the TTL not elapsed, Get hits with the latest Set's response. |
| CacheRuns.LruInclusion | internal/cache/cache.go:79-145 | For the same run under a nondecreasing clock, whatever hits with one capacity hits with the same response with every larger capacity. |
| TokenBucket.NewBucket | internal/ratelimiter/bucket.go:28-58 | Refuses a non-positive rate, then a non-positive burst; otherwise a full bucket. |
| TokenBucket.Bucket.RefillInPlace | internal/ratelimiter/bucket.go:77-85 | The fields follow the capped lazy refill; an earlier or equal instant changes nothing. |
| TokenBucket.Bucket.Allow | internal/ratelimiter/bucket.go:65-75 | Answer and new fields are those of the refill followed by taking one token if there is one; at an instant not later than the last refill, only that token changes. |
| TokenBucket.RefillComposes | internal/ratelimiter/bucket.go:77-85 | Refilling at an intermediate instant changes no later refill, if a refill fits into a duration or the instants are no further apart than one. |
| TokenBucket.ComposesExactly | internal/ratelimiter/bucket.go:77-85 | Refills compose for all buckets and instants if and only if an empty bucket refills within the longest duration. |
| TokenBucket.RefillableInSeconds | internal/ratelimiter/bucket.go:77-85 | A refill fits into the longest duration if and only if the burst is earned in 9223372036.854775807 seconds. |
| BucketRuns.WindowBound | internal/ratelimiter/bucket.go:65-85 | In every run with nondecreasing times, the calls allowed in any window [s, t] number at most burst + rate * (t - s). |
| BucketRuns.BucketIsExact | internal/ratelimiter/bucket.go:65-85 | A call is allowed if and only if admitting it overdraws none of the windows that start at an earlier call or at itself; for every run when a refill fits into a duration, and otherwise for runs no longer than one. |
| BucketRuns.SaturationIsInexact | internal/ratelimiter/bucket.go:77-85 | For every limit whose refill exceeds the longest duration, a run in which a call is refused although every window has room, because the elapsed time saturates. |
| BucketRuns.ExactExactly | internal/ratelimiter/bucket.go:65-85 | The bucket enforces its window bound greedily over all runs if and only if an empty bucket refills within the longest duration. |
| BucketRuns.DroppingRejectedCall | internal/ratelimiter/bucket.go:65-85 | Deleting a rejected call from a run changes no later answer; for every run when a refill fits into a duration, and otherwise for runs no longer than one. |
| BucketRuns.SlowDropShows | internal/ratelimiter/bucket.go:65-85 | For every limit that takes longer than the longest duration for one token, a run in which deleting a rejected call changes a later answer. |
| BucketRuns.FastDropShows | internal/ratelimiter/bucket.go:65-85 | The same for every limit that earns a token but not its burst within the longest duration. |
| BucketRuns.DroppingExactly | internal/ratelimiter/bucket.go:65-85 | Deleting a rejected call changes no later answer over all runs if and only if an empty bucket refills within the longest duration. |
| BucketRuns.LateCallsCountAsLatest | internal/ratelimiter/bucket.go:77-80 | In every run, ordered or not, each call is answered as if it came at the latest instant so far. |
| BucketRuns.AnyOrderBound | internal/ratelimiter/bucket.go:65-85 | With calls in any order, at most burst + rate * (latest instant - start) are allowed. |
| ClientLimiters.NewClientLimiter | internal/ratelimiter/client_limiter.go:59-93 | Succeeds exactly for valid limits and options, with the first failing check as its error; starts with empty shards and the idle TTL raised to the refill time. |
| ClientLimiters.ClientLimiter.Cleanup | internal/ratelimiter/client_limiter.go:122-133 | Once the interval has passed, the deletion loop removes exactly the idle clients of one shard, in whatever order it visits them. |
| ClientLimiters.ClientLimiter.Allow | internal/ratelimiter/client_limiter.go:97-120 | Answer and shards are those of the shard specification; only the shard at the key's hash modulo the shard count changes. |
| LimiterRuns.ConfiguredTTLCoversRefill | internal/ratelimiter/client_limiter.go:76-77 | The raised idle TTL covers a complete refill if and only if a refill fits into a duration at all; otherwise the TTL is the longest duration. |
| LimiterRuns.ConfiguredTTLIsLeast | internal/ratelimiter/client_limiter.go:76-84 | Limit and interval are those given; the idle TTL is the given one if that covers a refill, never shorter, and no duration between the two covers a refill. |
| LimiterRuns.EvictionIsTransparent | internal/ratelimiter/client_limiter.go:97-133 | With a TTL that covers a refill, every answer over every run with nondecreasing times is that of an ideal limiter that keeps one bucket per client forever. |
| LimiterRuns.SaturationShows | internal/ratelimiter/client_limiter.go:149-155 | For every configuration whose refill saturates, a run on which the evicting limiter allows a call the ideal one refuses. |
| LimiterRuns.TransparentExactly | internal/ratelimiter/client_limiter.go:76-155 | For every valid configuration: eviction is invisible over all runs if and only if an empty bucket refills within the longest duration. |
| ClientIsolation.ClientsAreIndependent | internal/ratelimiter/client_limiter.go:95-133 | If the idle TTL covers a refill or every new instant is a cleanup, an answer depends on the client's own calls only, not on other clients, the hash or the number of shards. |
| ClientIsolation.MateShows | internal/ratelimiter/client_limiter.go:97-133 | For every other configuration and every hash, two clients and a run in which one is refused what it is allowed without the other's call. |
| ClientIsolation.IsolatedExactly | internal/ratelimiter/client_limiter.go:76-155 | For every valid configuration: over all runs no answer depends on other clients if and only if an empty bucket refills within the longest duration or the cleanup interval is one nanosecond. |
| IdleEviction.IdleClientsAreForgotten | internal/ratelimiter/client_limiter.go:101-133 | After a call its shard holds no client silent for the idle TTL plus one cleanup interval. |
| IdleEviction.MemoryFollowsCalls | internal/ratelimiter/client_limiter.go:101-133 | Over every timed run a stored client carries the instant of its last call, and a client is stored as long as its last call is less than the idle TTL ago. |
| IdleEviction.SilentClientsAreForgotten | internal/ratelimiter/client_limiter.go:76-133 | With a configured idle TTL that covers a refill: after a call no client of its shard is stored whose last call is that TTL plus one cleanup interval ago. |
| RetryAfter.RetryAfterSuffices | internal/proxy/gateway.go:462-471 | Over every run of the evicting limiter, with any idle TTL, interval and burst: a client refused at some instant and not allowed since is allowed once the advertised seconds have passed, if a token is earned within the longest duration or the time credited for the wait earns one. |
| RetryAfter.AdvertisedSeconds | internal/proxy/gateway.go:462-471 | The value lies between 1 and 2^63-1; it is the least whole number of seconds in which the rate earns a token, or 2^63-1 if no smaller one is. |
| RetryAfter.RetryAfterFails | internal/ratelimiter/client_limiter.go:97-133 | For every configuration whose credited wait earns no token: a run in which a refused client that waits the advertised seconds is refused again, each of its calls just missed by a shard-mate's cleanup. |
| RetryAfter.RetryAfterExactly | internal/proxy/gateway.go:462-471 | For every valid configuration: the advertised wait is enough in all runs if and only if the time credited for it, with gaps as long as eviction permits, earns a token. |
| RetryAfter.RetryAfterInProduction | internal/proxy/gateway.go:462-471 | With cleanups more than a second apart (by default a minute), it is enough in all runs if and only if a token is earned within the longest duration. |
| RetryAfter.RetryAfterIsLeast | internal/proxy/gateway.go:462-471 | For every valid configuration and every smaller positive whole number of seconds, a run in which a client refused at some instant is refused again that much later. |
| CircuitBreaker.NewWithConfig | internal/breaker/breaker.go:131-161 | Negative settings are refused in order; each zero setting takes its default 5, 30 s or 1, each other one is kept; the breaker starts closed. |
| CircuitBreaker.Breaker.Acquire | internal/breaker/breaker.go:182-204 | New state and verdict in every state, including the lazy half-opening; the permit is fresh, unused and stamped with the current generation. |
| CircuitBreaker.Breaker.Record | internal/breaker/breaker.go:247-280 | New state for every report, current or stale, probe or not. |
| CircuitBreaker.Breaker.Cancel | internal/breaker/breaker.go:282-291 | Returns a probe slot only for a current probe in a half-open breaker. |
| CircuitBreaker.Breaker.TransitionTo | internal/breaker/breaker.go:296-312 | Codes above 2 and the edges closed to half-open and open to closed are exactly the errors, each with its own kind, and change nothing; repeating the state is a no-op. |
| CircuitBreaker.Breaker.TransitionLocked | internal/breaker/breaker.go:314-325 | A transition starts a new generation with both probe counters at zero, and stamps openings. |
| CircuitBreaker.Permit.Report | internal/breaker/breaker.go:238-245 | Only the first result of a permit reaches the breaker. |
| CircuitBreaker.Permit.Cancel | internal/breaker/breaker.go:229-236 | A cancellation reaches the breaker only if the permit had no result before. |
| BreakerRuns.RunRefines | internal/breaker/breaker.go:182-325 | Over every run of admissions, reports, cancellations and manual transitions, the breaker with generations and counters refines a reference machine that has only the outcomes of the current phase and the set of permits that may still speak. |
| BreakerRuns.SameVerdicts | internal/breaker/breaker.go:182-204 | After every run it admits or refuses the next request as the reference does, with the same error. |
| BreakerRuns.ProbeAccounting | internal/breaker/breaker.go:182-291 | In every reachable half-open state the admitted count is unresolved plus successful probes of this generation and within the limit, successes are strictly below it, and with no unresolved probe the next Acquire is admitted. |
| BreakerRuns.GenerationDeterminesState | internal/breaker/breaker.go:199-291 | A permit of an old generation changes nothing; a current one implies the breaker is not open and is a probe exactly in half-open; cancelling a current pending probe always finds a positive count. |
| BreakerRuns.TransitionsFollowOutcomes | internal/breaker/breaker.go:247-280 | While closed, the failure count is the trailing failure run of this phase and the breaker opens exactly when it reaches the threshold; half-open it closes exactly on the configured number of distinct successes and reopens exactly on a live probe's failure. |
| BreakerRuns.BreakerRecovers | internal/breaker/breaker.go:177-280 | From every reachable open state, through every continuation without manual transitions and without the failure of a live probe, the breaker is closed exactly once as many live probes have succeeded as the limit says; and after the timeout it admits whenever no permit is outstanding. |
| BreakerRuns.ProbeRateBound | internal/breaker/breaker.go:182-325 | Without manual transitions and with a nondecreasing clock, k half-open phases take at least k open timeouts since the first opening, and uncancelled probes number at most the probe limit times the whole timeouts elapsed. |
| Balancer.NewPoolWithStrategy | internal/balancer/pool.go:59-81 | Empty list, unknown strategy and blank URL are errors in that order; otherwise distinct healthy idle backends in the order of the URLs. |
| Balancer.Pool.NextRoundRobin | internal/balancer/pool.go:118-129 | The modulo scan computes the pick of the ring specification and stores the cursor behind it. |
| Balancer.PickIsNearest | internal/balancer/pool.go:118-129 | The pick is the healthy backend at the least cyclic distance from the cursor, and there is none only if no backend is healthy. |
| Balancer.Pool.NextLeastConnections | internal/balancer/pool.go:131-142 | Returns a healthy backend with the fewest connections, the earliest of those, and none only if no backend is healthy. |
| Balancer.Pool.Acquire | internal/balancer/pool.go:99-116 | Round robin takes the healthy backend nearest to the cursor and moves the cursor behind it, least connections the least loaded one; one more connection there and no other change; without a healthy backend nothing changes, the cursor included. |
| Balancer.Backend.Release | internal/balancer/pool.go:172-182 | Without interference: one connection less, never below zero. |
| BalancerRuns.NoStarvation | internal/balancer/pool.go:99-129 | A backend that stays healthy is picked within any n consecutive Acquires of an n-backend pool, whatever other health flags do between or during scans. |
| BalancerRuns.RoundRobinIsFair | internal/balancer/pool.go:118-129 | With fixed health, over any block of Acquires from any cursor the counts of two healthy backends differ exactly by the change in which of them is ahead of the cursor, so by at most one; unhealthy backends get none. |
| BalancerRuns.LeastConnectionsStaysLevel | internal/balancer/pool.go:131-142 | Over every mix of assignments and releases, healthy backends that start within d >= 1 connections of each other stay within d plus the releases made. |
| BalancerRuns.CountsFollowChanges | internal/balancer/pool.go:166-182 | Over every mix, a backend's count is its first one plus its assignments minus its releases. |
| BalancerRuns.ScanLeastBounds | internal/balancer/pool.go:131-142 | With requests completing between the loads of the scan: the selected backend ends it with no more connections than any backend observed healthy had at its start, and there is none only if all were observed unhealthy. |
| BalancerRuns.StillScanIsLeast | internal/balancer/pool.go:131-142 | If nothing completes during the scan, it selects the earliest least loaded healthy backend. |
| ReleaseProtocol.ReleaseConserves | internal/balancer/pool.go:166-182 | Under every interleaving of loads and swaps the count is the number of threads in flight and acquires minus completed releases, the early return at zero is never taken, and a thread's failed swaps do not outnumber the updates of other threads. |
| ReleaseProtocol.FailedSwapHasCulprit | internal/balancer/pool.go:172-182 | A swap fails only if another thread updated the count since this thread's load. |
| ReleaseProtocol.EveryAcquireCounts | internal/balancer/pool.go:166-170 | Whoever else is in flight, an acquire adds one to the count and puts its thread in flight. |
| ReleaseProtocol.AcquiredIsExact | internal/balancer/pool.go:166-170 | Over every interleaving the acquires counted are exactly the Acquire steps of threads not in flight at that moment. |
| ReleaseProtocol.AllCanHold | internal/balancer/pool.go:166-170 | Any number of threads hold at the same time, and all of them count. |
| ReleaseProtocol.UndisturbedReleaseCompletes | internal/balancer/pool.go:172-182 | After every run, a thread in flight that loads and swaps with nobody in between completes its release. |
| ReleaseProtocol.SwapOutcome | internal/balancer/pool.go:172-182 | A swap completes the release exactly if the count is the one loaded; otherwise nothing changes and the thread loads again. |
| GatewayPools.GatewayPool.constructor | internal/proxy/gateway.go:133-149 | One upstream for each backend of the balancer, in the same order, each with its own target. |
| GatewayPools.GatewayPool.Acquire | internal/proxy/gateway.go:353-374 | Without interference: takes permit and backend or neither; the backend is the one the balancer's strategy promises; on failure connections and cursor are unchanged and the breaker is at most awakened, with no slot taken. |
| GatewayPools.GatewayPool.FindUpstream | internal/proxy/gateway.go:363-373 | The search finds the upstream of the acquired backend; the fallback after the loop is unreachable. |
| GatewayRuns.BreakerRunsInside | internal/proxy/gateway.go:302-374 | The breaker inside every interleaving of the locked regions of requests is a run of the breaker, so its run theorems hold there. |
| GatewayRuns.BreakerHearsExactly | internal/proxy/gateway.go:353-407 | That run hears of every arrival, every outcome of a request on a backend and every permit given back, of nothing else, in order, at the same instants, and of success exactly for replies outside 5xx. |
| GatewayRuns.FirstOutcomeDecides | internal/proxy/gateway.go:387-399 | Over every run a request's permit counts as failed if its first outcome is a 5xx status or a broken exchange, and as succeeded otherwise, whatever comes later. |
| GatewayRuns.SettledByOutcome | internal/proxy/gateway.go:387-399 | A permit that counts as succeeded or failed had such a first outcome while its request held a backend. |
| GatewayRuns.FewFailuresStayClosed | internal/proxy/gateway.go:387-399 | A gateway with fewer failed outcomes than the threshold keeps its breaker closed, and the breaker counts no failure that did not happen. |
| GatewayRuns.SelectedBackendIsHeld | internal/proxy/gateway.go:358-362 | After every run a request that selects holds exactly the backend the balancer chose, with one more connection there, or none and fails. |
| GatewayRuns.CompletionReleases | internal/proxy/gateway.go:320-322 | After every run a completing request gives back one connection of the backend it holds and nothing else changes. |
| GatewayRuns.ConnectionsConserved | internal/proxy/gateway.go:302-374 | Over every interleaving of permits taken, backends selected, permits given back, outcomes and completions, each backend counts exactly the requests that hold it, and the total is the number of requests that hold any. |
| GatewayRuns.PermitsConserved | internal/proxy/gateway.go:302-374 | Over every such interleaving the unresolved permits are exactly those of requests between permit and selection, about to give back, or proxied without an outcome. |
| GatewayRuns.ReleaseFindsItsConnection | internal/proxy/gateway.go:320-322 | The deferred Release of a request never meets a zero count. |
| GatewayRuns.IdleGatewayAdmits | internal/proxy/gateway.go:302-374 | No probe slot is ever lost: when all requests are done the breaker refuses only during an open phase that has not timed out. |
| GatewayRuns.FailedAcquireReturnsItsSlot | internal/proxy/gateway.go:358-362 | Whatever other requests did in between, a request without a backend still has an unresolved permit; cancelling it returns its probe slot if the probe is current, and changes nothing else. |
| GatewayRuns.RefusedWhileAnotherEnters | internal/proxy/gateway.go:353-362 | A run in which a request is refused for want of a probe slot while no backend is held, because another request is inside acquire. |
| Routing.MatchRoute | internal/proxy/gateway.go:339-351 | Nothing exactly when no prefix matches; otherwise the longest matching prefix, the earliest of equals. |
| Routing.TableIsSpecificExactly | internal/proxy/gateway.go:339-351 | For every table of prefixes that start with a slash: every path the chosen route matches is matched by every other route that matches this path, if and only if each prefix, taken as a path, is won by a route with the same base. |
| Routing.CleanTablesAreSpecific | internal/proxy/gateway.go:339-351 | So it is for every table in which no prefix ends in two slashes. |
| Routing.DoubleSlashBreaks | internal/proxy/gateway.go:446-448 | For every prefix ending in two slashes, a clean prefix beside which it wins a path without being the more specific route. |
| Routing.SpecificExactly | internal/proxy/gateway.go:446-448 | A rooted prefix is safe beside every clean prefix if and only if it does not end in two slashes. |
| Capture.CacheResponseWriter.DoWriteHeader | internal/proxy/cache.go:64-77 | Statuses 100 to 199 other than 101 and every call after the first commitment change nothing; any other status is committed with its headers, and recorded only if it is 200 and the headers allow it. |
| Capture.CacheResponseWriter.DoWrite | internal/proxy/cache.go:79-97 | Implicit 200, partial writes, errors and the size limit change the fields as the call specification says. |
| Capture.CacheResponseWriter.TakeResponse | internal/proxy/cache.go:105-119 | The captured response, if any, of the fields and the header at the end. |
| Capture.CaptureIsExact | internal/proxy/cache.go:64-119 | For every sequence of calls: a response is captured if and only if it was committed with 200 and cacheable headers, every write was accepted in full and the body is at most 1 MiB; it then holds the committed headers and exactly the bytes written and accepted. |
| Capture.FirstCommitCounts | internal/proxy/cache.go:64-82 | Status and headers of a response are those of the first call that is a write (200) or a status outside 100 to 199 or 101. |
| Capture.OnlyOKIsCaptured | internal/proxy/cache.go:64-119 | A committed response is captured if and only if its first such call is a write or 200, its headers allow it, all writes were complete and the body is at most 1048576 bytes. |
| Capture.UncommittedIsEmptyOK | internal/proxy/cache.go:105-119 | A response never committed is captured as an empty 200 with the final headers, if these allow it. |
| CacheMiddleware.HitReplaysCapture | internal/proxy/cache.go:25-52 | Over every interleaving of lookups and stores, a hit is the capture of the latest storing request on that key, younger than the TTL: status 200, the bytes the first client received, the committed headers less request ID and lookup outcome. |
| CacheMiddleware.CaptureIsReplayed | internal/proxy/cache.go:25-52 | Over every interleaving, what a request captured is served for its key without request ID and lookup outcome, as long as it is younger than the TTL, not captured again, and fewer other keys than the capacity were asked for since. |
| CacheMiddleware.HitStaysCached | internal/proxy/cache.go:33-39 | A lookup that hits keeps its entry under the same conditions. |
| CacheMiddleware.WriteCachedResponse | internal/proxy/cache.go:188-197 | A hit sends the stored status and body, the stored headers over those already set, the current request's ID and `X-Cache: HIT`. |

## Left out

- IEEE rounding of token counts and of `Retry-After`: rates and tokens are reals, so NaN and infinite rates do not arise.
- Wrap-around of the 64-bit `generation`, cursor and connection counters: they are unbounded; no run of fewer than 2^63 steps can tell the difference.
- Mutexes, `sync.Once` and atomics as such: a locked region or once-body is one step, and the regions of one request interleave with those of others in `GatewayRuns`. `Backend.Release` is split into its atomic steps.
- Out-of-order timestamps in `ClientLimiter.Allow`, whose clock is read before the shard lock: nondecreasing processing order is a hypothesis of the limiter's run theorems.
- The FNV hash: the limiter's theorems hold for every hash function.
- Sharing of `*clientEntry` and `*Bucket` objects: a client's bucket is a value in its shard's map; class `Bucket` models the standalone object.
- Copying of responses on entry and exit of the cache: responses are immutable values.
- Nil permits, and outcomes of requests that end without `ModifyResponse` or `ErrorHandler` having been called: a modelled request completes only after an outcome.
- Balancer.Backend.Release: without interference; the retry loop under interference is `ReleaseProtocol`.
- Balancer.Pool.NextLeastConnections: counts do not change during this scan; `BalancerRuns.ScanLeastBounds` covers completions during it.
- GatewayPools.GatewayPool.Acquire: nothing else runs between its locked regions; `GatewayRuns` covers the interleavings.
- Which request and response headers forbid caching, cache keys, URL rewriting, client address parsing: header and URL text handling; header cacheability is an abstract predicate.
- Reverse proxying, transports, timeouts, health-check requests, configuration loading, authentication, CORS, logging, metrics, recovery and process start-up: foreign I/O or single-branch plumbing.
