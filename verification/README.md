# Verified model of the API gateway's runtime core

This project models, in Dafny, the stateful heart of the gateway and proves what it promises over
whole runs. `dafny verify dfyconfig.toml` checks everything.

- **Upstream selection and resilience.** `CircuitBreakers` is the timed breaker; `LoadBalancer` has
  upstreams, active guards, the weighted ticket order and both strategies, as classes with the loops
  of the implementation; `PickLaws` says what one pick guarantees and `Seams` when its ticket scan
  is enough. `Gateway` is a transition system of one route with any number of concurrent requests.
  Its steps are clock ticks, health flips, arrivals, atomic picks, upstream answers, finishes and
  cancellations. `RetryLaws`, `Arrivals`, `Recovery`, `Shedding`, `Fairness` (with `Stretches`) and
  `Starvation` prove properties of all its runs; `CancelledTrials` and `SheddingTight` build runs
  (with `FailingRuns`) that show the traffic bound cannot be improved. `RetryLoop` is the handler's
  loop over the balancer's objects, proved to leave behind exactly what the system does.
- **Rate limiting.** `RateWindows` bounds every interval of any fixed-window log and `WindowMaximum`
  says what is reached; `InMemoryLimiter` is the mutex-guarded map and `RedisLimiter` the INCR /
  EXPIRE / TTL protocol of many instances, and both produce such logs; `RedisAnswers` ties what
  callers are told to them.
- **Caching.** `ResponseCaching` is the TTL cache against the history of all puts; `Headers` has
  header maps and transforms; `CacheReplay` relates a hit to the miss that stored it.
- **Routing and configuration.** `Routing` is route matching, segment boundaries and prefix
  stripping; `RouteOrder` says when the order of the routes matters; `Config` is validation;
  `RouteTables` and `Runtime` are the table of runtimes by route name and the resolution of a
  request.
- `Basics`, `Arithmetic` and `Text` hold what the others share.

Conventions. Time is a natural number: nanoseconds for the breaker, the in-memory limiter and the
cache, milliseconds for the shared store. Clock readings are taken to be in the order in which
locks are acquired; the code samples the clock before it takes the mutex, so this is an assumption,
and `AllowsCharacterised` says what the breaker does without it. A pick is one atomic step with one
clock reading. Strings are byte strings carried as `char` sequences. `usize` is 64 bits wide and the
round-robin cursor wraps at it.

Where code and documentation part, the model follows the code:

- "Allowing a single trial" (`crates/gateway/src/breaker.rs:55-56`): HalfOpen admits every call
  until an outcome is recorded (`AdmittedUntilOutcome`), so the traffic bound has a factor for the
  calls in flight, and cancelled trials come on top, without any bound in time
  (`CancelledTrialsAreUnbounded`).
- "Regardless of config order" (`crates/core/src/router.rs:5`): two routes can tie when a prefix has
  trailing slashes (`TrailingSlashBreaksOrder`). For a table of any length the order matters exactly
  when two routes are `Ambiguous` and no third one `Shadows` them (`OrderMattersIffOpenTie`).
- A cache hit does not repeat every header the miss showed; `ReplayIsTransparent` has the exact
  condition on configuration and upstream response, header by header.
- The round-robin scan can miss the only passing upstream exactly when the next cycle of tickets
  crosses the wrap of the cursor and the order's length does not divide 2^64
  (`ScanSufficesIffNoSeam`); the fallback scan is what keeps `pick` complete there.
- The limiters admit at most `2 * limit - 1` requests in an interval of one window's length, one
  fewer than twice the limit; the bound is reached (`BoundIsReached`), and the in-memory limiter's
  exact maximum is `Most`.
- Losing an EXPIRE, whose error the code ignores, never admits more requests, but the key then
  counts for ever (`LostExpireStarves`); two steps lead there (`KeysGetLost`).

## Model

| member | source | states |
|---|---|---|
| CircuitBreakers.SoundAfterAnyHistory | crates/gateway/src/breaker.rs:61-95 | After any history: Closed iff failures since the last success are below the threshold iff there is no deadline; the counter is that number of failures; the deadline is the last failure plus the cooldown |
| CircuitBreakers.AllowsCharacterised | crates/gateway/src/breaker.rs:61-74 | For every history, even with an unordered clock, the exact condition on past events under which a call is let through |
| CircuitBreakers.BreakerRefinesHistory | crates/gateway/src/breaker.rs:61-95 | With an ordered clock the three-state machine is the predicate "few enough failures since the last success, or cooldown of the last failure over" |
| CircuitBreakers.RefinementNeedsMonotoneClock | crates/gateway/src/breaker.rs:64-70 | A concrete unordered history on which that predicate and the machine differ |
| CircuitBreakers.DefensiveGuardsAreDead | crates/gateway/src/breaker.rs:66-91 | An Open breaker always has a deadline, and the HalfOpen disjunct never decides whether a failure opens the breaker |
| CircuitBreakers.AdmittedUntilOutcome | crates/gateway/src/breaker.rs:55-74 | Once a call is let through, every later call is, until an outcome is recorded |
| CircuitBreakers.CircuitBreaker.AllowAt | crates/gateway/src/breaker.rs:61-74 | The answer is the history predicate on the events so far; the probe may turn Open into HalfOpen |
| CircuitBreakers.CircuitBreaker.RecordSuccess | crates/gateway/src/breaker.rs:76-81 | A success closes the breaker from any state, also when it comes late |
| CircuitBreakers.CircuitBreaker.RecordFailureAt | crates/gateway/src/breaker.rs:87-95 | A failure counts, opens at the threshold and moves the deadline |
| LoadBalancer.ExpandOrder | crates/gateway/src/balancer.rs:82-91 | The nested loops build the block order of the weights, never empty and within range |
| LoadBalancer.LeastLoadedIsFirstMinimum | crates/gateway/src/balancer.rs:131-138 | Least connections chooses the first of the least loaded acceptable upstreams, and nothing only if none is acceptable |
| LoadBalancer.Balancer.constructor | crates/gateway/src/balancer.rs:64-99 | A new balancer has fresh upstreams at the configured addresses and stands as its route says |
| LoadBalancer.NewBalancerStands | crates/gateway/src/balancer.rs:64-99 | That is: the configured weights, thresholds and cooldowns, each at least one, idle and healthy upstreams, closed breakers, cursor zero |
| LoadBalancer.Balancer.PickRoundRobinIn | crates/gateway/src/balancer.rs:118-129 | The ticket scan with its fallback, its cursor and its breaker side effects are those of the declarative pick |
| LoadBalancer.Balancer.PickLeastConnIn | crates/gateway/src/balancer.rs:131-138 | The filtered minimum probes exactly the acceptable upstreams and returns the first lightest one |
| LoadBalancer.Balancer.Pick | crates/gateway/src/balancer.rs:108-116 | The whole new state of the balancer after a pick, with a guard on the chosen upstream that is not excluded |
| LoadBalancer.ActiveGuard.Drop | crates/gateway/src/balancer.rs:48-52 | Dropping a guard takes back the one count it added and nothing else |
| RetryLoop.MarkHealth | crates/gateway/src/balancer.rs:27-29 | Setting the health flag on the objects is the health step of the transition system |
| PickLaws.PickIsComplete | crates/gateway/src/balancer.rs:108-147 | A pick returns none exactly when no upstream that is not excluded is eligible, from any cursor and across wrap-around |
| PickLaws.RoundRobinPick | crates/gateway/src/balancer.rs:118-147 | Which upstream round robin takes, the tickets it draws and the one breaker it probes |
| PickLaws.LeastConnectionsPick | crates/gateway/src/balancer.rs:131-138 | Least connections takes the first of the least loaded passing upstreams, draws no ticket and probes every passing breaker |
| PickLaws.OrderHoldsWeights | crates/gateway/src/balancer.rs:82-91 | The order holds each index exactly weight times and only indices of upstreams |
| PickLaws.OrderIsAscending | crates/gateway/src/balancer.rs:82-91 | The order names the upstreams block by block as configured |
| PickLaws.ScanFindsWhateverPasses | crates/gateway/src/balancer.rs:118-129 | Away from the wrap the fallback never finds what the ticket scan missed |
| PickLaws.FallbackNeededOnSeam | crates/gateway/src/balancer.rs:119-128 | At the wrap it does: a concrete cursor where a full scan misses the only eligible upstream |
| Seams.ScanSufficesIffNoSeam | crates/gateway/src/balancer.rs:118-129 | For every cursor and order length: the scan alone is complete in all balancers exactly when the cycle ends before the wrap or its length divides the machine word |
| Gateway.ActiveCountsConserved | crates/gateway/src/balancer.rs:37-52 | In every reachable state each active count is the number of live guards, never negative, and zero once all requests are over |
| RetryLaws.RetriesAreSafe | crates/gateway/src/proxy.rs:191-308 | A request calls distinct upstreams, at most min(attempts, upstreams); every answer but the last was retryable; the loop never runs out of attempts; every reply is explained by the last answer |
| Arrivals.RetriesFollowArrival | crates/gateway/src/proxy.rs:194-308 | A request that arrived as not idempotent is sent again only after refused connections, and any other answer ended its loop; one that arrived as idempotent only after errors and statuses 500 to 599 |
| Arrivals.UnsafeMethodsAreSentOnce | crates/gateway/src/proxy.rs:452-457 | POST, PATCH and CONNECT reach a second upstream only if all before it refused the connection |
| Arrivals.SafeMethodsAreServed | crates/gateway/src/proxy.rs:452-457 | The six idempotent methods get the completeness of retries from their arrival on |
| Arrivals.AnswerDecides | crates/gateway/src/proxy.rs:235-294 | Status by status and error by error, whether one answer sends the request back to the loop or ends it, and how |
| RetryLaws.LoopTerminates | crates/gateway/src/proxy.rs:196-295 | A live request always has a step, each own step uses up one of at most 2 * attempts + 1, and other requests' steps never touch it |
| RetryLaws.OwnStepsAreBounded | crates/gateway/src/proxy.rs:191-308 | Over any run a request makes at most 2 * attempts + 2 steps of its own, its arrival included |
| RetryLaws.RetriesAreComplete | crates/gateway/src/proxy.rs:191-296 | With as many attempts as upstreams, an upstream that is eligible whenever an idempotent request picks and does not fail that request keeps it from 502, 503 and server errors, whatever runs concurrently and whatever the upstream does to others |
| RetryLaws.ReliableUpstreamServesAll | crates/gateway/src/proxy.rs:191-296 | So an upstream that never fails and is never marked down keeps every idempotent request from them |
| Recovery.RecoveredUpstreamServes | crates/gateway/src/proxy.rs:191-296 | An upstream that is healthy again and stops failing serves every idempotent request that arrives a cooldown later, whatever it did before |
| Shedding.CallsBalance | crates/gateway/src/proxy.rs:196-294 | Every pick of an upstream has been answered, cancelled, or is in flight |
| Shedding.SheddingBound | crates/gateway/src/breaker.rs:61-95 | From any reachable state on, an upstream that does not succeed is picked at most threshold - 1 + C times less the calls already in flight, plus C per elapsed cooldown, plus its cancelled calls, for at most C in flight |
| Shedding.SheddingBoundSequential | crates/gateway/src/breaker.rs:61-95 | With one call at a time and none cancelled: threshold calls and one per cooldown, from any reachable state |
| SheddingTight.SheddingBoundIsReached | crates/gateway/src/breaker.rs:61-95 | For every start on one upstream, every width and every number of cooldowns a run without cancellation is picked exactly as often as the bound allows |
| CancelledTrials.CancelledTrialIsFree | crates/gateway/src/breaker.rs:64-74 | A cancelled half-open trial leaves upstream, clock and calls in flight as they were |
| CancelledTrials.CancelledTrialsAreUnbounded | crates/gateway/src/breaker.rs:64-74 | For every n a run with one call in flight at most and no success picks an upstream n times within one cooldown, so the term for cancelled calls is needed |
| Fairness.WeightedFairness | crates/gateway/src/balancer.rs:118-129 | As many round-robin picks as the acceptable upstreams weigh pick each of them exactly weight times and nothing else, with any steps interleaved |
| Starvation.NoStarvation | crates/gateway/src/balancer.rs:118-129 | Over as many picks as the order has tickets an upstream that every pick finds acceptable is picked at least weight times, whatever the others do |
| Fairness.LeastConnectionsStaysEven | crates/gateway/src/balancer.rs:131-138 | With all upstreams acceptable no active count exceeds the peak in flight divided by the number of upstreams, rounded up |
| RetryLoop.RecordOutcome | crates/gateway/src/proxy.rs:236-270 | Statuses 500 to 599 and every error count as a failure of the upstream's breaker, any other status as a success |
| RetryLoop.Decide | crates/gateway/src/proxy.rs:235-294 | The handler retries a status from 500 to 599 or another error exactly when idempotent, a refused connection always, with attempts left, and replies as the answer demands |
| RetryLoop.ProxyWithRetries | crates/gateway/src/proxy.rs:191-308 | The loop's reply, calls, cursor, counts and breakers are those of the transition system; the code after the loop is never reached |
| RetryLoop.LoopIsSafe | crates/gateway/src/proxy.rs:191-308 | The calls the loop makes are distinct, bounded and retried only when allowed, and its reply is explained |
| RateWindows.IntervalBound | crates/gateway/src/ratelimit.rs:45-64 | Any interval admits at most limit per window it spans, and limit - 1 more |
| RateWindows.LessThanTwiceTheLimit | crates/gateway/src/ratelimit.rs:45-64 | An interval of one window's length admits fewer than twice the limit |
| WindowMaximum.BoundIsReached | crates/gateway/src/ratelimit.rs:45-64 | For every limit, width and length some windowed log reaches the interval bound |
| WindowMaximum.MostIsMaximum | crates/gateway/src/ratelimit.rs:45-64 | No key checked in order of time is admitted more often in an interval than the in-memory limiter's maximum |
| WindowMaximum.MostIsReached | crates/gateway/src/ratelimit.rs:45-64 | For every limit, width and length some key is admitted that often |
| WindowMaximum.MostInClosedForm | crates/gateway/src/ratelimit.rs:45-64 | The maximum is the interval bound, less the carry when the length is one more than whole windows |
| InMemoryLimiter.SlidingWindowBound | crates/gateway/src/ratelimit.rs:45-64 | For all arrival times in order, at most (windows spanned + 1) * limit requests are admitted in any interval |
| InMemoryLimiter.WindowAdmitsFirst | crates/gateway/src/ratelimit.rs:49-59 | Each window admits exactly the first min(limit, arrivals) requests |
| InMemoryLimiter.WindowOpensExactly | crates/gateway/src/ratelimit.rs:48-52 | A window opens exactly when there is none or a whole width has passed; an older clock reading counts as no time |
| InMemoryLimiter.WindowsIgnoreLimit | crates/gateway/src/ratelimit.rs:48-52 | Where windows begin does not depend on the limit, so rejections delay nothing |
| InMemoryLimiter.Limiter.Check | crates/gateway/src/ratelimit.rs:45-64 | One check extends its key's log by one entry, leaves other keys alone, and reports allowance, remainder and reset |
| InMemoryLimiter.Limiter.ServedKeyIsBounded | crates/gateway/src/ratelimit.rs:45-64 | What the limiter object has admitted for a key checked with one limit and window is bounded in every interval, and each window admitted exactly its first arrivals |
| RedisLimiter.TtlOrOneOwner | crates/gateway/src/ratelimit.rs:88-111 | In every interleaving a live key has a deadline at most one window ahead, or exactly one check owes its generation an EXPIRE, or that EXPIRE was lost; and who owes an EXPIRE owes it to a live key of that generation |
| RedisLimiter.GlobalLimit | crates/gateway/src/ratelimit.rs:83-125 | Across any number of instances an interval of one window's length counts fewer than twice the limit as allowed, lost EXPIREs included |
| RedisAnswers.AnswersAreEntries | crates/gateway/src/ratelimit.rs:112-124 | Every check owns one entry of the log and every entry belongs to one check; a caller is told what its entry says, what the limit leaves, and a reset within the window |
| RedisAnswers.LastCommandAnswers | crates/gateway/src/ratelimit.rs:112-124 | The last command ends a check; the reset reported is the time left to the nearest second, zero without a deadline, a whole window if TTL fails |
| RedisAnswers.CallersLetThrough | crates/gateway/src/ratelimit.rs:83-125 | Of the checks counted in an interval no more are told to go ahead than the bound allows |
| RedisLimiter.LostExpireStarves | crates/gateway/src/ratelimit.rs:105-111 | After a lost EXPIRE the key never dies and, once at the limit, every later entry is a rejection |
| RedisAnswers.LostExpireRejects | crates/gateway/src/ratelimit.rs:105-124 | Every check that begins after that and gets an answer is told it is rejected, with nothing remaining |
| RedisLimiter.KeysGetLost | crates/gateway/src/ratelimit.rs:88-111 | From any start two steps lose a key |
| ResponseCaching.HitIsFreshLatestPut | crates/gateway/src/cache.rs:38-48 | What the cache holds for a key was stored by a put of it strictly younger than the TTL, and nothing has happened to the key since |
| ResponseCaching.KeyIsInjective | crates/gateway/src/cache.rs:33-36 | Requests whose method and target hold no space share a key only if they agree in method, host and target |
| ResponseCaching.ResponseCache.Get | crates/gateway/src/cache.rs:38-48 | A lookup answers exactly the held unexpired entry, which is the key's latest put and last event, and drops an expired one |
| ResponseCaching.ResponseCache.PutResponse | crates/gateway/src/cache.rs:50-73 | A put never exceeds the capacity, gives up one other entry only when full, and an unexpired one only if none has expired, for any choice of victim |
| Headers.TransformPerName | crates/gateway/src/transform.rs:69-83 | What the transforms make of each header: an added value wins over a removal |
| Headers.RemovesNameExactly | crates/gateway/src/transform.rs:69-75 | A header is removed exactly when the configuration names it, in any letter case |
| Headers.AddedValueExactly | crates/gateway/src/transform.rs:76-83 | The value added is the last usable one configured for the name, in any letter case |
| Headers.TransformsAreIdempotent | crates/gateway/src/transform.rs:69-83 | Applying the transforms twice is applying them once |
| Headers.ApplyTransforms | crates/gateway/src/transform.rs:69-83 | The in-place loops compute the transform function |
| Headers.EndToEndPerName | crates/gateway/src/transform.rs:58-66 | The filter drops all values of hop-by-hop names and keeps the values of all others in order |
| Headers.FilteredResponseHeaders | crates/gateway/src/transform.rs:9-66 | Exactly the fields that do not bear one of the ten hop-by-hop names, in any letter case, are kept |
| CacheReplay.ReplayIsTransparent | crates/gateway/src/proxy.rs:324-385 | A hit shows a header as the miss did exactly when the transforms add or remove it, it is hop-by-hop, or the upstream sent it not at all or once as visible text |
| CacheReplay.HitPerName | crates/gateway/src/proxy.rs:363-385 | What a hit shows of each header: the added value, else the last value that was text |
| CacheReplay.RepeatedHeaderCollapses | crates/gateway/src/proxy.rs:368-376 | A concrete response whose repeated header is not replayed as shown |
| CacheReplay.StoresExactly | crates/gateway/src/proxy.rs:327-330 | Exactly a 200 on a cached GET is kept whose first cache-control value does not have no-store, private or no-cache in it, in any letter case |
| CacheReplay.CacheEnabledExactly | crates/gateway/src/proxy.rs:126 | The cache is consulted exactly for a GET on a route with a cache whose cache-control does not have no-cache or no-store in it |
| CacheReplay.FinishResponse | crates/gateway/src/proxy.rs:311-361 | Status, headers and body sent on a miss, what is held and when nothing is, and that a failed body read becomes a 502 that stores nothing |
| CacheReplay.ReplayResponse | crates/gateway/src/proxy.rs:363-385 | A hit has the stored status and body and the rebuilt headers |
| CacheReplay.MissThenHit | crates/gateway/src/proxy.rs:324-385 | Through store, lookup and replay: a hit before expiry has the miss's status and body, its own markers, and every other header alike exactly when it is repeatable |
| Routing.MatchRoute | crates/core/src/router.rs:20-46 | The single pass returns none only if nothing matches, else the match with the longest prefix, then with a host if any such match has one, then the first in order |
| Routing.HostMatchesExactly | crates/core/src/router.rs:24-30 | A host constraint is met exactly by hosts equal up to letter case, whatever ports either carries |
| RouteOrder.OrderMattersIffOpenTie | crates/core/src/router.rs:20-46 | For tables of any length: some rearrangement answers some request differently exactly when two routes are ambiguous and no route shadows them |
| RouteOrder.OrderIndependence | crates/core/src/router.rs:1-46 | A table without such a pair answers every request the same in every order |
| RouteOrder.OrderMattersIffAmbiguous | crates/core/src/router.rs:20-46 | Of two routes, swapping them changes an answer exactly when they are ambiguous |
| RouteOrder.TidyTablesAreUnambiguous | crates/core/src/router.rs:20-64 | Distinct (host, prefix) pairs without trailing slashes leave no ambiguous pair, so order does not matter |
| RouteOrder.ShadowedTieIsHarmless | crates/core/src/router.rs:20-46 | Three concrete prefixes, two of them ambiguous, whose order does not matter |
| RouteOrder.TrailingSlashBreaksOrder | crates/core/src/router.rs:33-43 | Two concrete prefixes on which the order decides |
| RouteOrder.SharePathIsExact | crates/core/src/router.rs:55-64 | The static test on two prefixes holds exactly when some request path matches both |
| Routing.PathMatchesSegments | crates/core/src/router.rs:55-64 | A path matches a prefix other than "/" exactly when the prefix's segments begin the path's segments |
| Routing.SplitJoins | crates/core/src/router.rs:53-64 | Segments hold no slash and join back to the path |
| Routing.StripRoundTrip | crates/core/src/router.rs:67-78 | The forwarded path starts with a slash and the trimmed prefix put back rebuilds the request path; the bare prefix becomes "/" |
| Routing.StripIsNearlyInjective | crates/core/src/router.rs:67-78 | Only a prefix with and without a final slash are forwarded alike |
| Config.Validate | crates/core/src/config.rs:260-308 | Validation accepts exactly the configurations its tests describe; otherwise its complaint is true and the first fault of the first route at fault |
| Config.FirstFaultIsUnique | crates/core/src/config.rs:260-308 | There is only one such complaint |
| RouteTables.LastByNameIsLast | crates/gateway/src/state.rs:47-51 | The table has an entry for exactly the names of routes, and under each name the last route of that name |
| Runtime.BuildRoutes | crates/gateway/src/state.rs:47-51 | Every route name gets a runtime built from the last route of that name, with a clean balancer |
| Runtime.Resolve | crates/gateway/src/proxy.rs:53-76 | A matched route always has a runtime, and in a valid configuration it is that very route's, with upstreams to pick from |
| Runtime.OwnRuntimeIffNamesAgree | crates/gateway/src/state.rs:48-51 | Every route finds its own runtime exactly when routes that share a name are the same |
| Runtime.ValidRouteRuns | crates/core/src/config.rs:272-291 | In every reachable state a valid route's balancer is well formed, its order has the weights, and tickets and picks stay in range |
| Runtime.TicketsPointIffUpstreams | crates/core/src/config.rs:277-282 | Every ticket of a new balancer names an upstream exactly when its route has upstreams, which is why validation asks for them |

## Left out

- LoadBalancer.Balancer.Pick: one atomic step with one clock reading; the implementation reads the
  clock at each eligibility test and separates the load of an active count from its increment, so
  interleavings inside a pick are not modelled, and the even-load bound holds for atomic picks only.
- CircuitBreakers.CircuitBreaker.RecordFailureAt: counts in unbounded naturals; the 32-bit counter
  is not followed past 2^32 consecutive failures.
- InMemoryLimiter.Limiter.Check: counts in unbounded naturals; the 32-bit counter is not followed
  past 2^32 requests in one window. The bounds assume clock readings in lock order.
- RedisLimiter.GlobalLimit: a failed INCR lets its request through unlimited; those requests are not
  in the log. Values of TTL before an EXPIRE has landed are taken as zero, as the reply clamps them;
  the store rounds a remaining time to the nearest second, which is its own behaviour and not stated
  in this repository.
- RetryLaws.RetriesAreComplete: ends at the loop; a later failure to read a body that is to be
  cached turns the response into 502 (`FinishResponse`).
- CacheReplay.FinishResponse: a streamed body is a value that arrives whole or fails; how far a
  failing stream gets is not modelled.
- Headers.HeaderMap: fields are a sequence and `insert` appends; the order between different names
  and the length limit of names are not those of the HTTP library.
- Health probing is only the step that sets the flag; several routes share nothing but the limiter,
  so the system has one route.
- Authentication, client-address and rate-key extraction, `X-Forwarded-*`, correlation ids, metrics,
  tracing, error bodies, YAML parsing and defaults, timeouts, servers and shutdown: input/output,
  library calls or short branches.
- Headers named in `Connection` are not stripped by the code, so no conformance to section 6.1 of
  RFC 7230 is claimed.
