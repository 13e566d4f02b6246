# A verified model of the PATH relay gateway's stateful core

PATH is a gateway that relays blockchain requests to staked suppliers. Most of what can go wrong in it
lives in a few stateful components. Each is modelled here by a Dafny module, in the form the Go code has:
objects that are updated in place are classes, loops are methods with invariants, protocols are state
machines whose steps are the critical sections, select arms and Redis commands of the code. The theorems
are about every run, every history or every input.

| module | component |
|---|---|
| `LeaderElection` | leader election over one Redis lease: any number of instances, lost requests and lost replies, one clock |
| `BreakerGate` | the circuit breaker's rate gate, decided on the history of one domain's outcomes |
| `BreakerCodec` | the text format of a break in Redis and its two older forms |
| `CircuitBreaker` | the breaker object: cache, refresh from Redis, marks, reads, clearing |
| `BreakerInterleaving` | the three lock sections of a mark, interleaved over any number of threads |
| `CardinalityGuard` | admission and two-generation eviction of metric series, with 32-bit generation stamps |
| `HedgeRace` | primary request, hedge, timers, caller cancellation and drain |
| `BatchFanOut` | semaphore-bounded fan-out and ordered collection of a batch |
| `RetryLoop` | the retry loop of one batch item |
| `ConfigMerge` | the three-layer health-check configuration merge |
| `HealthScheduler` | which services are due on a tick |
| `BackendDedup` | grouping by backend URL, rotation of representatives, the dedup job |
| `RequestSampler` | sample windows, capped fingerprint table, per-method tallies |
| `RestLabel` | route templates of REST paths |

`dafny verify dfyconfig.toml` checks all of them. Times are integers; rates are compared by
cross-multiplication; integers that wrap or truncate in the source (the generation counter, whole-second
leases and expiries) do so here.

## What the proofs found

- Leadership is unique in every timely run if and only if the lease, truncated to whole seconds, is longer
  than `renewInterval + 2 * callTimeout` (`LeaderUniqueIffLeaseOutlastsRenewal`). The second timeout comes
  from `Start`, which makes its first attempt before the ticker exists. A lease below one second truncates
  to zero and gives no protection.
- The comment at `gateway/domain_circuit_breaker.go:266-268`, that duplicate failures of one incident never
  reach the gate, does not hold of the code: the check, the gate and the publication are separate lock
  sections. For every setting, a duplicate can escalate a break already in force if and only if
  `threshold <= 1` and `threshold + rebreakMargin <= 1` (`IncidentEscalatesIff`), and a late publication can
  shorten the break in force if and only if `threshold <= 1` (`PublicationShortensIff`). With the settings
  the gateway uses, ten simultaneous failures are enough for both (`TenFailuresSuffice`). Each needs another
  write to put the break in force after the thread's own check (`DuplicateReachesGateOnlyIfOvertaken`,
  `PublishShortensOnlyIfOvertaken`).
- An invalid hedge-race answer after the delay is always a last resort if and only if no receiver is ever
  held up (`LastResortIffNoLag`): for any lag, however short, a valid result sent just before the
  ten-second timer can lose to it. With receivers held up by at most `lag` the promise is off by no more
  than `lag` (`InvalidAnswerIsLastResort`).
- No endpoint, hedges included, gets two relays for one batch item, except exactly when the first attempt
  ran a hedge race that brought no response (`ContactedTwiceIffUnanswered`).
- The escalated TTL is monotone in the hit count if and only if `defaultTTL <= maxTTL`
  (`TTLMonotoneIffBaseFits`).
- The comment in `dueServices` that a service's first entry decides holds of a configuration if and only
  if no later active entry of the service has a shorter interval (`FirstEntryDecidesIff`); in general a
  service is due exactly when some active entry is (`DueMeansSomeEntry`).
- A batch item ends with neither a response nor an error exactly when everything it was offered on its
  first attempt was already circuit-broken (`ProcessPayload`, outcome `Dropped`).
- The order inside a URL group is determined if and only if no two suppliers on one URL share an address,
  because the sort is not stable (`OrderIsFixedIffAddressesDistinct`).
- Registry and admission set stay in step on an observation if and only if its label tuple does not
  collide with an admitted one (`InStepIffNoCollision`).
- The sampler's distinct count is exact if and only if no request left out of the table was seen twice
  (`DistinctIsAnUpperBound`).

## Model

| member | source | states |
|---|---|---|
| `LeaderElection.FreshLeaderOwnsKey` | gateway/health_check_leader.go:120-214 | in every run, a running instance whose flag is set and whose last grant is younger than the lease owns the live key |
| `LeaderElection.TwoLeadersMeansOneStale` | gateway/health_check_leader.go:120-214 | two running instances with the flag set: one was last granted the lease at least a lease ago |
| `LeaderElection.TimelyLeaderIsUnique` | gateway/health_check_leader.go:80-231 | with calls and ticks on time, the first tick a renew interval after Start's own attempt returned, and a lease longer than renewInterval + 2 callTimeout, there is at most one leader |
| `LeaderElection.TwoLeadersWhenStale` | gateway/health_check_leader.go:80-231 | any shorter positive lease has a timely run to two leaders: the renewal on the punctual first tick hangs |
| `LeaderElection.TwoLeadersWhenLeaseTruncatesToZero` | gateway/health_check_leader.go:128-129 | so has a lease that truncates to zero seconds |
| `LeaderElection.LeaderUniqueIffLeaseOutlastsRenewal` | gateway/health_check_leader.go:80-231 | uniqueness in all timely runs holds if and only if renewInterval + 2 callTimeout is below leaseDuration truncated to whole seconds |
| `LeaderElection.ServePreservesProtection` | gateway/health_check_leader.go:160-165 | no command of another instance, and no command but its own release, takes the key from a holder before its grant runs out |
| `LeaderElection.StepPreservesInv` | gateway/health_check_leader.go:96-231 | every step of the protocol keeps the invariant tying flags, grants, messages in flight and the key |
| `LeaderElection.AttemptIsThreeSteps` | gateway/health_check_leader.go:120-148 | one whole attempt of the code is a run of three protocol steps with the same effect on flag and key |
| `LeaderElection.RedisKey.Run` | gateway/health_check_leader.go:160-168 | a command acts on the key if it arrives and answers only if the reply does too; a live key of another instance is never touched, and a reported success has left the key this instance's, or gone |
| `LeaderElection.LeaderElector.constructor` | gateway/health_check_leader.go:59-75 | an elector starts without leadership |
| `LeaderElection.LeaderElector.TryAcquireLeadership` | gateway/health_check_leader.go:120-148 | exactly when the flag ends up set (key absent, or own key when already leader, and the answer came), and a full lease then |
| `LeaderElection.LeaderElector.RenewLeadership` | gateway/health_check_leader.go:156-187 | the flag stays set exactly when the key is live and ours and the answer came |
| `LeaderElection.LeaderElector.ReleaseLeadership` | gateway/health_check_leader.go:195-214 | another instance's key is never touched; our own is removed; a failed release leaves the flag |
| `LeaderElection.LeaderElector.Stop` | gateway/health_check_leader.go:96-111 | releases only if leader: a release that arrives removes our own live key, never another instance's; the flag falls exactly when the release is answered |
| `LeaderElection.HandOver` | gateway/health_check_leader.go:96-148 | after a leader has stopped and its release has arrived, the next attempt of another instance wins at once, however much of the lease was left |
| `LeaderElection.StoppedLeaderHandsOver` | gateway/health_check_leader.go:96-214 | the same as a run of the protocol from every state its invariant allows: stop, release, attempt, and the other instance leads at the same instant |
| `BreakerGate.GateDecidesOnHistory` | gateway/domain_circuit_breaker.go:204-283 | for any history, a failure breaks the domain if and only if, of the outcomes of the window it falls in, at least minFailures failed and (threshold, plus the margin when the last break is at most escalationMemory ago) x all outcomes <= failures; windows open with the first outcome, after a break, and with the first outcome more than the window's length after the opening in force |
| `BreakerGate.LowRateNeverBreaks` | gateway/domain_circuit_breaker.go:228-264 | a window whose failed fraction is below the threshold never breaks the domain, however many raw failures it holds |
| `BreakerGate.EnoughSuccessesPreventBreak` | gateway/domain_circuit_breaker.go:228-264 | with a positive threshold there is, for every number of failures, a number of successes that stops the break |
| `BreakerGate.WindowExists` | gateway/domain_circuit_breaker.go:204-226 | the gate's counters and start are those of the window in force, as the history determines it |
| `BreakerGate.WindowAround` | gateway/domain_circuit_breaker.go:204-226 | the same at every outcome before it is weighed; the window holds no break and nothing later than its length after its opening |
| `BreakerGate.WeighedIsCoherent` | gateway/domain_circuit_breaker.go:204-226 | a window opens with its first outcome or the break before it, holds no break, and spans at most failureWindow |
| `BreakerGate.EpisodeMemory` | gateway/domain_circuit_breaker.go:257-283 | the remembered episode is the last break of the history |
| `BreakerGate.VerdictMeans` | gateway/domain_circuit_breaker.go:233-256 | the verdict on a failure written out over counts, settings and last break, successes included |
| `BreakerGate.BreaksAreSeparated` | gateway/domain_circuit_breaker.go:233-283 | any two breaks of one domain have at least minFailures failures after the first up to the second |
| `BreakerGate.HitMemory` | gateway/domain_circuit_breaker.go:257-274 | the stored hit count is the length of the longest chain of breaks with gaps within the escalation memory |
| `BreakerGate.HitCountIsChainLength` | gateway/domain_circuit_breaker.go:257-274 | so is the hit count of each break when it happens |
| `BreakerGate.TTLMonotoneIffBaseFits` | gateway/domain_circuit_breaker.go:287-300 | the TTL is monotone in the hit count if and only if the base does not exceed the cap |
| `BreakerGate.TTLDoublesUntilCapped` | gateway/domain_circuit_breaker.go:287-300 | the TTL stays between base and cap, doubles per hit until capped, and stops growing after the fifth doubling |
| `BreakerCodec.CurrentFormatRoundTrip` | gateway/domain_circuit_breaker.go:373-380 | a printed record parses back to its expiry, hits and the first 500 characters of its reason, whatever the reason contains |
| `BreakerCodec.LegacyFormats` | gateway/domain_circuit_breaker.go:459-486 | the two older formats parse to their documented defaults |
| `BreakerCodec.ItoaRoundTrip` | gateway/domain_circuit_breaker.go:459-486 | every 64-bit integer survives printing and parsing and its text holds no separator |
| `CircuitBreaker.RefreshIsUnionWithLaterExpiry` | gateway/domain_circuit_breaker.go:489-549 | a refresh leaves exactly the union of unexpired local breaks and well-formed Redis values whose second is not reached, the later expiry where both exist, all after now |
| `CircuitBreaker.ReadIsExact` | gateway/domain_circuit_breaker.go:386-401 | a read reports exactly the unexpired breaks of the cache and, if the cache is stale and Redis answers, those in force there |
| `CircuitBreaker.SharedBreakIsSeenAfterCacheTTL` | gateway/domain_circuit_breaker.go:386-401 | a refresh answers reads for exactly cacheTTL, whatever is marked or recorded meanwhile; a read at or after that reports every break Redis has in force |
| `CircuitBreaker.OpKeepsBreak` | gateway/domain_circuit_breaker.go:306-453 | no operation but clearing its service shortens a known break |
| `CircuitBreaker.KnownBreakPersists` | gateway/domain_circuit_breaker.go:306-453 | nor does any sequence of them before it expires |
| `CircuitBreaker.MarkedDomainIsAvoidedForItsTTL` | gateway/domain_circuit_breaker.go:306-401 | a domain just broken is reported broken by every read until its escalated TTL has passed, unless its service is cleared |
| `CircuitBreaker.MarkBreaksIffJustified` | gateway/domain_circuit_breaker.go:306-345 | a mark leaves the cache alone unless the domain is not broken and too many outcomes of its window failed; then it is broken for the TTL of its place in the chain of breaks |
| `CircuitBreaker.NewBreakIsJustified` | gateway/domain_circuit_breaker.go:306-345 | a mark makes a new break if and only if the history justifies one |
| `CircuitBreaker.ClearForgets` | gateway/domain_circuit_breaker.go:585-631 | clearing forgets breaks, window and escalation of its service and nothing of another |
| `CircuitBreaker.GateAnswers` | gateway/domain_circuit_breaker.go:233-283 | the gate breaks on a new failure if and only if too many outcomes of its window failed; the hits are the length of the chain of breaks |
| `CircuitBreaker.TrackOutcome` | gateway/domain_circuit_breaker.go:187-226 | the stored windows stay those of the domains' gated histories when an outcome is logged |
| `CircuitBreaker.TrackClear` | gateway/domain_circuit_breaker.go:608-610 | and when a service is cleared |
| `CircuitBreaker.DomainCircuitBreaker.constructor` | gateway/domain_circuit_breaker.go:166-183 | a breaker starts with nothing broken and no window |
| `CircuitBreaker.DomainCircuitBreaker.RecordSuccess` | gateway/domain_circuit_breaker.go:187-200 | a success joins the domain's gated history; an empty domain is ignored |
| `CircuitBreaker.DomainCircuitBreaker.ShouldBreak` | gateway/domain_circuit_breaker.go:233-283 | true exactly when too many outcomes of the window in the extended history failed, with the chain's length as hits |
| `CircuitBreaker.DomainCircuitBreaker.MarkBroken` | gateway/domain_circuit_breaker.go:306-381 | a break is made exactly when the history justifies it; the new state, the gated history (a domain already broken is not counted again) and what is written to Redis |
| `CircuitBreaker.DomainCircuitBreaker.Publish` | gateway/domain_circuit_breaker.go:332-381 | the new break joins the cache entry of its service, which is made if missing, and the value for Redis is formed only when a store is configured |
| `CircuitBreaker.DomainCircuitBreaker.GetBrokenDomains` | gateway/domain_circuit_breaker.go:386-401 | returns exactly the unexpired domains of the cache and, when it was stale and Redis answered, those in force there |
| `CircuitBreaker.DomainCircuitBreaker.FilterExpiredDomains` | gateway/domain_circuit_breaker.go:404-413 | exactly the unexpired domains |
| `CircuitBreaker.DomainCircuitBreaker.RefreshLocal` | gateway/domain_circuit_breaker.go:417-453 | drops exactly the expired breaks and returns the rest |
| `CircuitBreaker.DomainCircuitBreaker.RefreshFromRedis` | gateway/domain_circuit_breaker.go:489-580 | the cache becomes the union of local and Redis breaks and its domains are returned |
| `CircuitBreaker.DomainCircuitBreaker.ParseAll` | gateway/domain_circuit_breaker.go:489-517 | exactly the well-formed unexpired Redis values |
| `CircuitBreaker.DomainCircuitBreaker.MergeLocal` | gateway/domain_circuit_breaker.go:524-549 | the union with the later expiry |
| `CircuitBreaker.DomainCircuitBreaker.ClearService` | gateway/domain_circuit_breaker.go:585-631 | the cleared state, the number of domains dropped, and every history of another service unchanged |
| `BreakerInterleaving.EveryBreakIsJustified` | gateway/domain_circuit_breaker.go:306-345 | in every interleaving a thread goes on to publish if and only if too many of the logged outcomes of the window its failure falls in failed, successes counted, with the chain's length as hits |
| `BreakerInterleaving.BackToBackIsMarkBroken` | gateway/domain_circuit_breaker.go:306-345 | the three lock sections run back to back leave the cached break and the window as MarkBroken as a whole does |
| `BreakerInterleaving.StepPreservesInv` | gateway/domain_circuit_breaker.go:306-345 | every lock section of every thread keeps window and history in step |
| `BreakerInterleaving.DuplicateReachesGateOnlyIfOvertaken` | gateway/domain_circuit_breaker.go:314-325 | a failure of a domain already broken reaches the gate only if another write put that break in force after the thread's own check |
| `BreakerInterleaving.PublishShortensOnlyIfOvertaken` | gateway/domain_circuit_breaker.go:332-345 | a publication shortens a break only if it was put in force after the thread's own check |
| `BreakerInterleaving.IncidentEscalatesIff` | gateway/domain_circuit_breaker.go:266-345 | for every setting: a duplicate at the gate of a domain already broken can escalate it if and only if both the plain and the raised line are at most one, and then with threads that read the clock in order |
| `BreakerInterleaving.PublicationShortensIff` | gateway/domain_circuit_breaker.go:332-345 | for every setting: a publication can shorten the break in force if and only if the threshold is at most one, and then with threads that read the clock in order |
| `BreakerInterleaving.IncidentEscalates` | gateway/domain_circuit_breaker.go:306-345 | two bursts of minFailures threads past their check reach it, the second publishing hit two |
| `BreakerInterleaving.PublicationShortens` | gateway/domain_circuit_breaker.go:332-345 | two bursts whose breaks are published in the opposite order reach it |
| `BreakerInterleaving.TenFailuresSuffice` | gateway/domain_circuit_breaker.go:166-183 | both with the settings every breaker is created with, by ten failures read at the same instant |
| `CardinalityGuard.LiveSeriesAreTheRecentTuples` | metrics/cardinality_guard.go:311-430 | in every run count equals the size of the admitted set, within the limit, and the live series are exactly the tuples admitted and not idle for two sweeps |
| `CardinalityGuard.AdmittedIffFreshOrRoom` | metrics/cardinality_guard.go:311-356 | by the log alone: a tuple is admitted if and only if it is not idle for two sweeps, or the tuples that are not, after the sweep its arrival may trigger, are fewer than the limit |
| `CardinalityGuard.CountIsFreshTuples` | metrics/cardinality_guard.go:311-356 | the count is the number of tuples the log leaves fresh, and they are the registry |
| `CardinalityGuard.StampsSurviveWraparound` | metrics/cardinality_guard.go:361-430 | every stamp is this generation or the previous one modulo 2^32, and equals this one exactly when the tuple was seen since the last sweep |
| `CardinalityGuard.UnobservedBetweenSweepsIsGone` | metrics/cardinality_guard.go:385-430 | a tuple not seen between two sweeps has no series after the second |
| `CardinalityGuard.EvictedOnlyAfterIdleWindow` | metrics/cardinality_guard.go:369-430 | a due sweep evicts only tuples not seen for at least the eviction window |
| `CardinalityGuard.LiveMeansRecentlySeen` | metrics/cardinality_guard.go:379-430 | when sweeps follow events within a gap, every live series was observed within the last two gaps |
| `CardinalityGuard.SeriesAgeIsBounded` | metrics/cardinality_guard.go:221-229 | with the janitor calling every tick the gap is evictAfter + tick, so a live series was observed within twice that |
| `CardinalityGuard.NothingEvictedUnlessDeletable` | metrics/cardinality_guard.go:385-396 | without an eviction window or a way to delete series no sweep happens and no series goes |
| `CardinalityGuard.InStepIffNoCollision` | metrics/cardinality_guard.go:311-356 | one observation or sweep leaves registry and admitted set in step if and only if it is not a hash collision |
| `CardinalityGuard.StepPreservesInv` | metrics/cardinality_guard.go:311-430 | every observation and sweep keeps the invariant |
| `CardinalityGuard.Guarded.constructor` | metrics/cardinality_guard.go:294-307 | a guard starts empty |
| `CardinalityGuard.Guarded.Observe` | metrics/cardinality_guard.go:311-356 | a tuple is admitted exactly when its series is live afterwards and, short of a collision, exactly when it is fresh or the fresh ones are fewer than the limit; the new state and log; the invariant is kept exactly when the tuple does not collide with an admitted one |
| `CardinalityGuard.Guarded.Touch` | metrics/cardinality_guard.go:361-365 | stamps the entry with the current generation and nothing else |
| `CardinalityGuard.Guarded.SweepLocked` | metrics/cardinality_guard.go:385-430 | the swept state and the logged sweep |
| `CardinalityGuard.Guarded.EvictIdle` | metrics/cardinality_guard.go:405-425 | removes exactly the idle entries and their series and counts them |
| `HedgeRace.NoResultIsDropped` | gateway/hedge.go:291-304 | in every race no send finds the channel full |
| `HedgeRace.EachBranchRecordedOnce` | gateway/hedge.go:560-626 | a branch is recorded as winner or loser at most once, and exactly once when it settled, its result was taken and not abandoned |
| `HedgeRace.ContextsAreReleased` | gateway/hedge.go:629-683 | every return has cancelled both contexts or left a drain that does |
| `HedgeRace.AnswerAndLabelAgree` | gateway/hedge.go:149-503 | the answer, the recorded winner and the label agree; hedge_won and primary_won imply no error, a response and one the heuristics accept; an answer lacking one of these after the delay means the other branch lacked one too or ten seconds passed since the first result was received |
| `HedgeRace.InvalidAnswerIsLastResort` | gateway/hedge.go:403-503 | with receivers held up by at most `lag`, an answer that failed, is empty or is rejected by the heuristics after the delay means the other branch answered so too, was never started, or sent nothing until `lag` before ten seconds after the first result's receipt |
| `HedgeRace.LastResortIffNoLag` | gateway/hedge.go:403-503 | such an answer is a last resort in every race if and only if the lag is zero |
| `HedgeRace.HeldUpReceiverMayIgnoreAResult` | gateway/hedge.go:411-432 | for every delay and every positive lag, however short, a race returns an invalid answer with a valid one, sent in time, in the channel |
| `HedgeRace.EveryRaceEnds` | gateway/hedge.go:115-246 | a race takes at most 14 actions, is never stuck before it is over, and over means returned and cancelled |
| `HedgeRace.StepPreservesInv` | gateway/hedge.go:115-503 | every select arm, completion, timer and cancellation keeps the invariant |
| `HedgeRace.HedgeRacer.constructor` | gateway/hedge.go:85-110 | a racer starts valid, in a state a race can reach, with the primary in flight and an empty channel |
| `HedgeRace.HedgeRacer.Send` | gateway/hedge.go:249-305 | keeps the racer in a reachable state; a branch's result always joins the channel and is never dropped |
| `HedgeRace.HedgeRacer.OnEarlyResult` | gateway/hedge.go:149-171 | the answer is the primary's, labelled primary_only; no hedge ran, and both contexts are cancelled |
| `HedgeRace.HedgeRacer.OnDelay` | gateway/hedge.go:173-234 | a hedge runs from now on exactly when it has an endpoint and a context; nothing is decided yet |
| `HedgeRace.HedgeRacer.OnFirstResult` | gateway/hedge.go:343-411 | the first result is the recorded winner, under its label, if and only if it did not fail, has a response and passes the heuristics; otherwise it is held back with winner and label unset |
| `HedgeRace.HedgeRacer.OnLoser` | gateway/hedge.go:629-641 | the answer is valid and rightly labelled; the one loser is the other branch; contexts are cancelled |
| `HedgeRace.HedgeRacer.OnLoserWindow` | gateway/hedge.go:629-641 | the answer is valid and rightly labelled; no loser is recorded and a drain is at work |
| `HedgeRace.HedgeRacer.OnSecondResult` | gateway/hedge.go:439-503 | the second result is the answer, under its label, if and only if it did not fail, has a response and passes the heuristics; otherwise the first is, as both_failed; the one loser is the other branch |
| `HedgeRace.HedgeRacer.OnSecondTimeout` | gateway/hedge.go:414-432 | the answer is the invalid first result after the whole wait, rightly labelled, with a drain at work |
| `HedgeRace.HedgeRacer.OnCallerGone` | gateway/hedge.go:236-245 | nobody has won, no label is set, and a drain is at work |
| `HedgeRace.HedgeRacer.DrainOnce` | gateway/hedge.go:650-683 | the answer and its label stand, no branch is recorded twice, and both contexts are cancelled when the drain stops |
| `HedgeRace.SelectHedgeEndpoint` | gateway/hedge.go:509-541 | a hedge endpoint is given exactly when one differs from the primary in address and operator, and is such a one |
| `BatchFanOut.ConcurrencyIsBounded` | gateway/http_request_context_handle_request.go:1100-1140 | never more than maxConcurrentRelays items in processing |
| `BatchFanOut.SendNeverBlocks` | gateway/http_request_context_handle_request.go:1100-1140 | in every reachable state an item still in processing finds room in the channel for its result |
| `BatchFanOut.NeverDeadlocks` | gateway/http_request_context_handle_request.go:1094-1157 | in every reachable state of an unfinished batch some step is possible |
| `BatchFanOut.EveryBatchFinishes` | gateway/http_request_context_handle_request.go:1094-1157 | every schedule of n items finishes within 6n+3 steps |
| `BatchFanOut.FinishedBatchIsComplete` | gateway/http_request_context_handle_request.go:1140-1157 | a finished batch holds at each index the result of that item, whatever the completion order |
| `BatchFanOut.SlotsAreFilledOnce` | gateway/http_request_context_handle_request.go:1140-1157 | collecting never overwrites a slot |
| `BatchFanOut.StepPreservesInv` | gateway/http_request_context_handle_request.go:1094-1157 | every step keeps the invariant |
| `BatchFanOut.CollectInOrder` | gateway/http_request_context_handle_request.go:1140-1157 | the collecting loop puts each arrival at its own index and invents nothing |
| `RetryLoop.ProcessPayload` | gateway/http_request_context_handle_request.go:1220-1529 | every attempt is on the ranking's pick (or the first) among the endpoints open to it and is decided by the reply that decides: none without a context, the race's when it raced and was answered, else the plain one; delivered if and only if the last such reply is a success; failed only when passes, request, capability budget or choices ran out; dropped if and only if all first offers were broken; endpoints differ pairwise in address and non-empty operator; at most maxRetries + 1 passes and as many relays, two more with hedging; nothing follows a success or the second capability failure |
| `RetryLoop.LogIsFaithful` | gateway/http_request_context_handle_request.go:1286-1515 | every attempt of an accounted log: endpoint, deciding reply, endpoints contacted and hedge to avoid, written out over what its pass met |
| `RetryLoop.EndIsFaithful` | gateway/http_request_context_handle_request.go:1346-1515 | an item is delivered if and only if the reply that decides its last attempt is a success |
| `RetryLoop.ChoicesAreOpen` | gateway/http_request_context_handle_request.go:1309-1345 | an endpoint is left to choose if and only if it is on offer (validated if any is), neither its host nor its operator is broken or that of one taken before, and it was not taken itself |
| `RetryLoop.RunPasses` | gateway/http_request_context_handle_request.go:1286-1529 | the loop keeps its invariant until a pass ends it or the passes are used up |
| `RetryLoop.ContactedTwiceIffUnanswered` | gateway/http_request_context_handle_request.go:1358-1408 | an endpoint gets two relays for one item if and only if the first pass ran a hedge race that brought no response |
| `RetryLoop.Iterate` | gateway/http_request_context_handle_request.go:1286-1515 | one pass comes to the turn its surroundings call for: gone, skipped, stuck or an attempt on an offered endpoint |
| `RetryLoop.PassKeepsInv` | gateway/http_request_context_handle_request.go:1286-1515 | every pass keeps the run accounted for, the exclusions, the relay budget and the capability budget |
| `RetryLoop.PassKeepsBudget` | gateway/http_request_context_handle_request.go:1286-1515 | relays and capability failures stay within their budgets, and nothing is attempted after a success or a spent budget |
| `RetryLoop.PassKeepsExclusion` | gateway/http_request_context_handle_request.go:1325-1392 | rotation goes on, and an item is dropped exactly when everything offered first was broken |
| `RetryLoop.PassKeepsHistory` | gateway/http_request_context_handle_request.go:1286-1515 | the log stays exactly what the passes make of what they meet, and a failure has one of the stated reasons |
| `RetryLoop.Attempted` | gateway/http_request_context_handle_request.go:1346-1515 | the endpoint is excluded from then on and exclusions only grow; the item is delivered exactly when this attempt succeeded, and fails only on a spent capability budget |
| `RetryLoop.GoesOn` | gateway/http_request_context_handle_request.go:1346-1392 | an eligible attempt keeps the rotation; it, a rejected race's hedge and their operators are excluded from then on |
| `RetryLoop.Send` | gateway/http_request_context_handle_request.go:1349-1461 | no verdict without a context, the race's verdict when it raced and was answered, else the plain reply's; the hedge to avoid is that of a rejected race; every endpoint contacted, in order |
| `RetryLoop.Select` | gateway/http_request_context_handle_request.go:1300-1345 | the ranking's pick among what is left, or the first of it; none exactly when nothing is left |
| `RetryLoop.TurnIsDue` | gateway/http_request_context_handle_request.go:1286-1461 | the turn taken on the loop's variables is the one the log so far calls for |
| `RetryLoop.FirstTurn` | gateway/http_request_context_handle_request.go:1325-1334 | the first pass is stuck exactly when everything on offer was already broken |
| `RetryLoop.TurnFits` | gateway/http_request_context_handle_request.go:1325-1392 | the turn taken is on an eligible endpoint, within the relays its pass allows |
| `RetryLoop.AccountedAfterAttempt` | gateway/http_request_context_handle_request.go:1286-1515 | an attempt that follows from its pass extends the account of the run |
| `RetryLoop.AccountedWithoutOffer` | gateway/http_request_context_handle_request.go:1300-1307 | a pass with nothing on offer makes no attempt and is counted |
| `RetryLoop.FilterEndpoints` | gateway/http_request_context_handle_request.go:2148-2178 | the filtering loop keeps exactly the eligible endpoints in order |
| `RetryLoop.FilteredMembers` | gateway/http_request_context_handle_request.go:2148-2178 | an endpoint is kept if and only if it was offered and neither it, its host nor its operator is excluded |
| `RetryLoop.RotationGoesOn` | gateway/http_request_context_handle_request.go:1237-1529 | an eligible attempt extends the rotation |
| `RetryLoop.ExclusionGrows` | gateway/http_request_context_handle_request.go:2174-2178 | marking an endpoint covers its whole operator |
| `ConfigMerge.MergeConfigsIsMonoid` | gateway/health_check_executor.go:731-768 | merging is associative as an exact list equality, with the empty list as identity, for all lists, duplicates included |
| `ConfigMerge.MergeConfigsOverrides` | gateway/health_check_executor.go:731-768 | after a merge of two layers a service's switch, allowance, interval and each check are those of the upper layer where it sets them, else of the lower |
| `ConfigMerge.LayersOverride` | gateway/health_check_executor.go:298-333 | over the three layers, for every service: switch, allowance, interval and each check are those of the highest of unified, local, external that sets them; an unset interval is the lowest layer's |
| `ConfigMerge.MergedChecksOverride` | gateway/health_check_executor.go:771-829 | a check of the upper layer replaces the one of the same name, the others stay |
| `ConfigMerge.MergeKeepsUniqueness` | gateway/health_check_executor.go:731-829 | unique services and check names stay unique |
| `ConfigMerge.OverlayAssociates` | gateway/health_check_executor.go:731-829 | any keyed overlay with an associative combination is associative, order included |
| `ConfigMerge.OverlayIdentity` | gateway/health_check_executor.go:731-829 | the empty layer changes nothing on either side |
| `ConfigMerge.LookupOverlay` | gateway/health_check_executor.go:731-829 | what an overlay holds under a key |
| `ConfigMerge.OverlayUnique` | gateway/health_check_executor.go:731-829 | an overlay of lists with unique keys has unique keys |
| `ConfigMerge.GetServiceConfigs` | gateway/health_check_executor.go:298-333 | the three layers merged, however grouped; every field and check of every service is that of the highest layer that sets it |
| `ConfigMerge.MergeLayers` | gateway/health_check_executor.go:731-768 | the merging loops compute the overlay of services |
| `ConfigMerge.MergeServices` | gateway/health_check_executor.go:771-829 | the check-merging loops compute the overlay of checks; every field and check is the local one where set, else the external one |
| `ConfigMerge.Index` | gateway/health_check_executor.go:735-740 | the index map holds the last entry of each key |
| `HealthScheduler.RunsEveryNthTick` | gateway/health_check_executor.go:2163-2222 | with ticks less than half a period (rounded up) late, a service of n ticks runs on exactly every n-th tick for ever, and its cycle counts its runs |
| `HealthScheduler.SuccessiveRunsAreApart` | gateway/health_check_executor.go:2163-2222 | whatever the tick times, successive runs are at least the interval less half a tick apart |
| `HealthScheduler.HalfATickLateRunsEarly` | gateway/health_check_executor.go:2163-2206 | the bound on lateness is tight for every period and every n >= 2: one tick half a period (rounded up) late and the service runs a tick early |
| `HealthScheduler.DueMeansSomeEntry` | gateway/health_check_executor.go:2163-2212 | a service is due if and only if some entry of it is not switched off and the time since its last run, if any, is at least that entry's interval (ten seconds if unset) less half a tick |
| `HealthScheduler.ActiveMeansSomeEntry` | gateway/health_check_executor.go:2184-2192 | a service is active if and only if some entry of it is not switched off |
| `HealthScheduler.FirstEntryDecidesIff` | gateway/health_check_executor.go:2163-2212 | a service's first active entry decides for every schedule and time if and only if no later active entry of it has a shorter interval |
| `HealthScheduler.DueWhenElapsed` | gateway/health_check_executor.go:2118-2206 | a service that ran before is due exactly when its interval less the slack has passed |
| `HealthScheduler.Recorded` | gateway/health_check_executor.go:2200-2222 | what a tick leaves as last run and cycle of an active service |
| `HealthScheduler.DueWithinActive` | gateway/health_check_executor.go:2163-2222 | only active services are due, and an active one not due has run before |
| `HealthScheduler.Ticked` | gateway/health_check_executor.go:2163-2222 | after a tick exactly the active services are known to both maps |
| `HealthScheduler.CallsLeadTo` | gateway/health_check_executor.go:2163-2222 | a scheduler called on a process's ticks holds the schedule the run theorems speak of |
| `HealthScheduler.Scheduler.constructor` | gateway/health_check_executor.go:151-228 | nothing has run yet |
| `HealthScheduler.Scheduler.Decide` | gateway/health_check_executor.go:2180-2212 | one entry is decided against the schedule before the tick |
| `HealthScheduler.Scheduler.DueServices` | gateway/health_check_executor.go:2163-2222 | returns exactly the due services with their next cycle and stays the schedule of all its calls |
| `HealthScheduler.Scheduler.Advance` | gateway/health_check_executor.go:2163-2222 | the loop and the pruning compute the ticked schedule |
| `HealthScheduler.MinCheckInterval` | gateway/health_check_executor.go:2129-2149 | the smallest interval of any entry not switched off, or ten seconds when there is none |
| `BackendDedup.GroupEndpointsByURL` | gateway/health_check_executor.go:2239-2264 | one address-ordered group per URL, URLs ascending, then the endpoints without a URL one by one in the order given |
| `BackendDedup.Bucket` | gateway/health_check_executor.go:2240-2248 | the bucketing loop keeps each URL's endpoints in order |
| `BackendDedup.SortGroups` | gateway/health_check_executor.go:2256-2261 | every group is the address-ordered bucket of its URL |
| `BackendDedup.SortBy` | gateway/health_check_executor.go:2254-2259 | an ordered permutation, with no promise about equal keys |
| `BackendDedup.LeqIsBytewise` | gateway/health_check_executor.go:2254-2259 | the order is the bytewise one: after a common prefix the first string has ended or has the smaller byte |
| `BackendDedup.GroupsPartition` | gateway/health_check_executor.go:2239-2264 | the groups partition the endpoints with their multiplicities, and a URL group holds its own URL only |
| `BackendDedup.GroupingIgnoresOrder` | gateway/health_check_executor.go:2239-2264 | permuted endpoints with distinct addresses give the same URL groups |
| `BackendDedup.OrderIsFixedIffAddressesDistinct` | gateway/health_check_executor.go:2256-2261 | the order within the URL groups is determined if and only if no two endpoints of a URL share an address |
| `BackendDedup.EachMemberOncePerRotation` | gateway/health_check_executor.go:2108-2113 | in any `size` consecutive cycles each member is the rotated representative exactly once |
| `BackendDedup.EveryMemberHasItsTurn` | gateway/health_check_executor.go:2108-2222 | scheduling and rotation together: each member has exactly one turn in any `size` consecutive runs of its service |
| `BackendDedup.CycleOnNthTick` | gateway/health_check_executor.go:2208-2211 | the p-th run of a service has cycle p+1 |
| `BackendDedup.RunGroup` | gateway/health_check_executor.go:2484-2526 | at most one member fires, first, and nobody is fanned to without outcomes of another; with steady sessions the first live member from the rotated one fires once, every other live member is probed once and given its outcomes once if there are any, the rest are untouched, and a group with none does nothing |
| `BackendDedup.Representative` | gateway/health_check_executor.go:2489-2501 | with steady sessions, the first member at or after the rotated one that has no session or an active one |
| `BackendDedup.RunSiblings` | gateway/health_check_executor.go:2508-2525 | the sibling loop never fires |
| `BackendDedup.SiblingsCovered` | gateway/health_check_executor.go:2508-2525 | every other live member is probed exactly once and fanned to exactly once if there are outcomes; the rest are untouched |
| `RequestSampler.RecordConserves` | gateway/request_sampler.go:183-213 | sampled equals the sum of counts plus overflow and the sum of the methods' samples; the methods' distinct counts sum to the reported one |
| `RequestSampler.RecordKeepsSummary` | gateway/request_sampler.go:183-213 | recording keeps exact counts for what is in the table and an overflow of every appearance of what is not, within the cap |
| `RequestSampler.TallySummarises` | gateway/request_sampler.go:160-213 | both hold of every window's events |
| `RequestSampler.EntriesAreDated` | gateway/request_sampler.go:183-213 | every entry of a table names the method and the first 200 bytes of its request's first visit and the times of its first and last, over all visits; a request without one met a full table |
| `RequestSampler.DistinctIsAnUpperBound` | gateway/request_sampler.go:421-438 | true distinct <= reported <= sampled, and exact if and only if nothing outside the table repeats |
| `RequestSampler.ExactWhenTableSuffices` | gateway/request_sampler.go:198-201 | a table as large as the number of distinct requests never overflows and reports exactly |
| `RequestSampler.WindowsAreTheirSpans` | gateway/request_sampler.go:218-232 | in every run the current and the previous window account for exactly the events of their own spans |
| `RequestSampler.TrackedWindows` | gateway/request_sampler.go:160-232 | every service of a sampler reports windows that account for exactly the events of their own spans |
| `RequestSampler.Sampler.constructor` | gateway/request_sampler.go:142-155 | nothing seen yet; a rate of zero becomes one |
| `RequestSampler.Sampler.CurrentWindow` | gateway/request_sampler.go:218-232 | opens or rotates the service's window and no other |
| `RequestSampler.Sampler.Observe` | gateway/request_sampler.go:160-181 | one request joins the events of its own service, with its items only if it is the one in N, and every service stays where its events lead |
| `RequestSampler.Sampler.CountRequest` | gateway/request_sampler.go:170-180 | steps its own service and no other |
| `RequestSampler.Sampler.RecordEach` | gateway/request_sampler.go:178-180 | the loop records the items in order |
| `RequestSampler.Sampler.Report` | gateway/request_sampler.go:395-419 | rotates a due window first and keeps every service where its events lead; nothing for an unknown service or a missing previous window |
| `RestLabel.NormalisingIsIdempotent` | metrics/method_sanitizer.go:147-166 | a route template is a normal form: bounded depth, static segments only, and normalising it again changes nothing |
| `RestLabel.NormalizeRESTPath` | metrics/method_sanitizer.go:147-166 | the in-place loop computes the template |
| `RestLabel.TemplateReplacesWhatVaries` | metrics/method_sanitizer.go:188-245 | a segment becomes :var if and only if it is a number, a 0x hash, an address, 24 or more letters and digits, or has a byte no route has; byte by byte |
| `RestLabel.RouteWordStays` | metrics/method_sanitizer.go:188-245 | a short word of letters, dashes and underscores is kept |
| `RestLabel.TemplateOfPath` | metrics/method_sanitizer.go:147-166 | the label of a path segment by segment: cut at the query and at every slash, the first twelve segments kept or replaced, a mark for the rest |
| `RestLabel.SplitJoin` | metrics/method_sanitizer.go:153-165 | splitting joined segments gives them back |
| `RestLabel.JoinSplit` | metrics/method_sanitizer.go:153-165 | joining what was split gives the path back |
| `RestLabel.TemplateIsStable` | metrics/method_sanitizer.go:188-245 | a rewritten segment is not rewritten again, nor is the depth mark |

## Left out

- Logging, metrics publication, HTTP, Redis transport, YAML, JSON and protobuf decoding: I/O and library code.
- Selection ranking, response heuristics, reputation and the Shannon protocol: their answers are arbitrary, except that a pick is a member of the list it was made from, or empty.
- Clocks: every reading is a parameter; the leader protocol has one clock, and the guard and breaker histories assume readings that do not go backwards where a theorem says so.
- Leader instance IDs are taken to be distinct, and a stopped instance no longer counts as running, since a failed release leaves its flag set.
- Agreement of several pods through Redis deletions in the circuit breaker: the read and the clean-up are separate commands; the theorems are about what one pod keeps and what one refresh computes.
- Overflow of Go's 64-bit durations in the escalated TTL, and wrap-around of the 64-bit cycle and request counters.
- The size cap that rejects an oversized batch before fan-out (gateway/http_request_context_handle_request.go:1094-1098).
- The single-request retry path and the parallel-endpoints path: they add little beyond the batch item's loop, the hedge race and the fan-out.
- Request fingerprinting (canonical JSON, FNV hashes) and the ranking of report entries: a sampled request is the items it was split into.
- The guard's race between admission and recording of a series (metrics/cardinality_guard.go:415-419): the two are one step.
- BackendDedup.RunGroup: what a probe or a replayed outcome does to reputation, observations and archival marks is not modelled.
- RestLabel.NormalizeRESTPath: the length cap, UTF-8 repair and JSON-RPC allowlists around it are not modelled.
- Endpoint resolution, the worker pool, sync and archival validation in the health-check executor.
- Default filling of service configuration, WebSocket limits, block-height plausibility and RPC type detection: short case analyses.
