# A verified model of the lease-based distributed rate limiter

One coordinator holds a token bucket per tenant. Workers lease tokens from it in batches and admit
requests from local pools. This project models that protocol as state machines over arbitrary real
clock readings - checks, waits and wake-ups, lease calls, replies that are late, lost or orphaned,
worker crashes and starts, coordinator restarts, any number of tenants and workers - and proves what
the design promises about every run of it.

The layers, bottom up:

| file | models |
|---|---|
| `Bucket.dfy`, `BucketTheorems.dfy` | the token bucket as a mutable class proved equal to a step function; whole schedules of calls |
| `Coordinator.dfy`, `CoordinatorTheorems.dfy` | the coordinator's tenant map, counters and lease handler; whole schedules of leases |
| `Pool.dfy`, `Limiter.dfy` | each critical section of the worker's check and renewal as a step; the pool, counter and limiter objects that perform them in place |
| `Node.dfy`, `NodeTheorems.dfy`, `Pacing.dfy`, `Answers.dfy`, `Demand.dfy`, `Scenarios.dfy` | one worker's side of one tenant, with all interleavings of its critical sections |
| `System.dfy`, `SystemTheorems.dfy` | one tenant's whole system: bucket, all workers, all calls in flight, all failures |
| `Cluster.dfy` | all tenants together, with per-tenant state created on first use |
| `Harness.dfy`, `HarnessExact.dfy` | the evaluation harness's universal assertion, exactly when it holds, and runs that attain the admission bound |
| `Driver.dfy` | the load driver's pacing loop and outcome record |

The main results are `TenantSystem.AdmissionWindow` and `Harness.HarnessInvariantHolds` (what can be
admitted in any window of any run), `HarnessExact.AdmissionWindowIsTight` (that as much is admitted in
some run), `TenantSystem.TokensAreConserved`, `Cluster.TenantsDoNotInterfere`,
`BucketTheorems.FullerBucketLead`, `Pacing.LeaseCallsBounded` and `NodeTheorems.FailClosed`.

Conventions. Times are real numbers of seconds and bucket levels exact reals; the zero value of a Go
time is 0 and clocks read more than that. `make(chan)` gives a channel the next number, and closed
channels are logged. Steps of one worker carry arbitrary clock readings, in no particular order, because
the source reads the clock before it takes the lock; the only ordering used is causal: a renewal reads
the clock after the check that started it, so not before any reading seen by then. A window is any block
of steps whose coordinator readings lie in an interval; inside one coordinator process those readings may
go backwards. `C` below is the largest request cost allowed (1000 for requests that come over HTTP).

## Where the code and its documents disagree

The model follows the code.

- README.md:54-55 and DESIGN.md:37 say admitted tokens never exceed rate x window + burst. That holds of
  tokens debited (`TenantSystem.DebitsInWindow`); of tokens admitted it fails for every lease size
  (`HarnessExact.PlainBoundFails`), by what workers held when the window began
  (`TenantSystem.AdmittedWasHeldOrDebited`).
- DESIGN.md:38 and internal/loadgen/scenarios.go:479-480 bound that slack by 1.2 x lease size per worker.
  A rejected request also renews above the watermark (internal/worker/limiter.go:195), so the slack is
  max(C, watermark) - 1 + lease size, and some run attains it. The harness's bound holds in every run if
  5 x (C - 1) <= lease size and fails in some run otherwise. The harness's own mixed-cost workload (cost
  5, leases of 10) is on the failing side.
- README.md:65-66 says each grant expires after its duration. Expiry is pool-wide: a grant that lands on
  leftovers extends them too (`Pools.GrantExpiresAloneIffPoolWasEmpty`, `Scenarios.StaleTokensRevive`).
- A rate below one token per second passes validation, but such a tenant is never admitted
  (`SystemTheorems.LowRateNeverAdmits`); any rate of at least one is (`HarnessExact.RateOneIsAdmitted`).

## Model

| member | source | states |
|---|---|---|
| `TokenBucket.Grant` | internal/bucket/bucket.go:33-49 | a take gives at most n whole tokens, no more than there are, and leaves less than one token when it gives less than n |
| `TokenBucket.Bucket.constructor` | internal/bucket/bucket.go:19-24 | a new bucket is full |
| `TokenBucket.Bucket.RefillLocked` | internal/bucket/bucket.go:26-31 | the new level and clock are the refill step of the old; a reading not after the last one changes nothing |
| `TokenBucket.Bucket.TakeUpTo` | internal/bucket/bucket.go:36-49 | result and new state are the take step of the old state |
| `TokenBucket.Bucket.NextToken` | internal/bucket/bucket.go:52-60 | the wait of the refilled bucket, with the refill as its only effect |
| `BucketTheorems.Accounting` | internal/bucket/bucket.go:26-49 | over any schedule, even with backward readings, granted + level + overflow = initial level + rate x advance of the clock, and the level stays within 0 and the capacity |
| `BucketTheorems.BlockBound` | internal/bucket/bucket.go:26-49 | any contiguous block of calls grants at most the capacity plus what flows in after its first refill |
| `BucketTheorems.WindowBound` | internal/bucket/bucket_test.go:37-52 | however callers ask, grants over any window of readings are at most rate x window + capacity |
| `BucketTheorems.FullerBucketLead` | internal/bucket/bucket.go:19-49 | of two buckets that differ only in level, the fuller grants no less over any shared schedule, and more by at most the rounded-up difference over the whole future |
| `BucketTheorems.RestartAddsAtMostOneBurst` | internal/bucket/bucket.go:19-24 | restarting full loses no later grant and adds at most one rounded-up burst in all |
| `BucketTheorems.ObservationTransparent` | internal/bucket/bucket.go:26-60 | in a time-ordered schedule, leaving out any choice of peeks and zero-grant takes changes what no remaining call gets, zeros included, and leaves the refilled bucket as it was |
| `BucketTheorems.PeekLeavesNoTraceIff` | internal/bucket/bucket.go:26-60 | a peek before a take leaves grant and bucket as they would be without it exactly when its reading is not ahead of both the take's reading and the bucket's clock |
| `BucketTheorems.PeekAfterOwnTake` | internal/coordinator/coordinator.go:75-79 | whatever other calls come between a take and a peek at the same reading, in any order of readings, the peek changes nothing |
| `BucketTheorems.HandlerPeeksAreTransparent` | internal/coordinator/coordinator.go:74-83 | in any order of readings and any interleaving of lease handlers, leaving out any of their peeks leaves every grant and the bucket as they were |
| `BucketTheorems.TokenAvailableIff` | internal/bucket/bucket.go:36-60 | a take succeeds at a time exactly when the capacity reaches one token and the refill has produced it by then |
| `BucketTheorems.NextTokenIsExact` | internal/bucket/bucket.go:52-60 | from the refilled bucket on, a take succeeds exactly when the capacity reaches one token and the reported wait has passed |
| `BucketTheorems.HintSoundIff` | internal/coordinator/coordinator.go:76-81 | the retry hint is sound exactly when the capacity reaches one token and the handler's reading lags the bucket's clock by no more than rounding the wait up to a millisecond adds |
| `BucketTheorems.HintByLag` | internal/coordinator/coordinator.go:75-81 | a reading that does not lag never makes the hint too early, one that lags by more than a millisecond always does |
| `BucketTheorems.HintSoundAndTight` | internal/coordinator/coordinator.go:76-81 | for a reading that does not lag, a lease at the hint gets a token exactly when the capacity reaches one, and none is there a millisecond earlier |
| `BucketTheorems.LateReadingHintTooEarly` | internal/coordinator/coordinator.go:75-81 | a lagging reading can produce a hint that is too early |
| `BucketTheorems.SmallCapNeverGrants` | internal/bucket/bucket.go:36-49 | a bucket that cannot hold a whole token never grants one |
| `Coordinator.LeaseDebitsWhatItGrants` | internal/coordinator/coordinator.go:74-83 | bucket, counter and reply agree on the grant, which is at most the lease size; a hint is sent exactly with a zero grant |
| `CoordinatorTheorems.ReplyHintSoundAndTight` | internal/coordinator/coordinator.go:74-81 | of the reply as sent: a lease at the hinted time gets a token exactly when the capacity reaches one, and none does earlier than a millisecond before |
| `CoordinatorTheorems.ReplyHintSoundIff` | internal/coordinator/coordinator.go:74-81 | the same at any reading: the hint sent is sound exactly when, besides, the reading lags no more than the rounding makes up for |
| `CoordinatorTheorems.LeasesAreTakes` | internal/coordinator/coordinator.go:74-83 | over any schedule of leases the three counters count the requests, the zero grants and the tokens handed out, and replies and bucket are those of a bare bucket asked for a lease size each time |
| `Coordinator.TenantState.Lease` | internal/coordinator/coordinator.go:74-83 | reply and new entry are the lease step of the old entry |
| `Coordinator.Server.constructor` | internal/coordinator/coordinator.go:32-39 | every configured tenant gets its own full bucket of one second's burst and zero counters |
| `Coordinator.Server.HandleLease` | internal/coordinator/coordinator.go:63-86 | a request without a tenant name is refused, an unknown tenant is not found, a known one is debited; no other tenant's entry changes |
| `Pools.AdmitsIff` | internal/worker/limiter.go:128-138 | a check is Unknown exactly while negatively cached, and otherwise admitted at once exactly when the pool holds its cost, and at least one token, unexpired |
| `Pools.WakeAdmitsIff` | internal/worker/limiter.go:163-172 | the same for a check that waited; it takes its cost exactly when admitted and else leaves the pool as it was |
| `Pools.RenewsIff` | internal/worker/limiter.go:191-203 | a check starts a renewal exactly when none is out, nothing holds it back, and it was not admitted, nothing was granted yet, or it leaves no token or less than a whole fifth of the last grant |
| `Pools.BeginLeaves` | internal/worker/limiter.go:127-155 | what the first critical section leaves: cost taken if admitted, else expired budget dropped, and nothing but budget and renewal flag touched |
| `Pools.GrantServes` | internal/worker/limiter.go:244-249 | a grant, full or partial, serves with what was left until its TTL is over and no longer, and sets the watermark to a fifth of itself |
| `Pools.BeginTakesCostOrNothing` | internal/worker/limiter.go:127-155 | the first critical section takes the whole cost when it admits, else nothing but expired budget |
| `Pools.WaitedCheckTakesCostOrNothing` | internal/worker/limiter.go:120-185 | over both critical sections a check that waited takes its cost exactly when it is admitted |
| `Pools.InsufficientFindsOrStartsRenewal` | internal/worker/limiter.go:187-203 | an unserved check that nothing holds back finds a renewal in flight or starts one |
| `Pools.GrantExpiresAloneIffPoolWasEmpty` | internal/worker/limiter.go:244-249 | past the old expiry the pool serves just the new grant exactly when it was empty when the grant landed |
| `Limiters.Pool.constructor` | internal/worker/limiter.go:47-57 | a new pool is empty |
| `Limiters.Pool.ShouldRenewLocked` | internal/worker/limiter.go:191-203 | the renewal rule, without changing the pool |
| `Limiters.Pool.CheckBegin` | internal/worker/limiter.go:127-155 | verdict, renewal and new pool are the check step of the old pool |
| `Limiters.Pool.CheckWake` | internal/worker/limiter.go:161-173 | decision and new pool are the wake step of the old pool |
| `Limiters.Pool.RenewApply` | internal/worker/limiter.go:211-250 | the channel closed and the new pool are those of the renewal step |
| `Limiters.Counters.Record` | internal/worker/limiter.go:177-184 | an admission counts once and by its cost, a rejection once, an unknown tenant not at all |
| `Limiters.Limiter.constructor` | internal/worker/limiter.go:85-87 | every tenant starts with an empty pool and zero counters |
| `Limiters.Limiter.PoolFor` | internal/worker/limiter.go:89-98 | creating a pool on first use is invisible to every tenant |
| `Limiters.Limiter.CountersFor` | internal/worker/limiter.go:100-114 | creating counters on first use is invisible to every tenant |
| `Limiters.Limiter.RenewStart` | internal/worker/limiter.go:205-207 | counts the lease call of one tenant and changes nothing else |
| `Limiters.Limiter.CheckBegin` | internal/worker/limiter.go:120-159 | the tenant's pool and counters take the check step; all other tenants' are untouched |
| `Limiters.Limiter.CheckWake` | internal/worker/limiter.go:160-184 | the tenant's pool and counters take the wake step; all other tenants' are untouched |
| `Limiters.Limiter.RenewApply` | internal/worker/limiter.go:205-251 | the tenant's pool and counters take the renewal step; all other tenants' are untouched |
| `Nodes.InvStep` | internal/worker/limiter.go:120-251 | every step keeps singleflight, conservation, the pool bound and the clock facts together |
| `Nodes.ReachableInv` | internal/worker/limiter.go:120-251 | they hold in every state a worker can get into |
| `NodeTheorems.PoolSlack` | internal/worker/limiter.go:132-203 | a pool and the grant on its way hold at most max(C, watermark) - 1 + lease size; while a renewal is outstanding the pool holds at most max(C, watermark) - 1 |
| `Scenarios.PoolSlackIsAttained` | internal/worker/limiter.go:191-203 | for every lease size, TTL and C, some reachable pool holds max(C, watermark) - 1 with a renewal outstanding, and max(C, watermark) - 1 + lease size once it has landed |
| `NodeTheorems.SingleflightHolds` | internal/worker/limiter.go:139-217 | `renewing` holds exactly when a call is outstanding, never two; no channel is closed twice; every waiter's channel is the current one or closed |
| `NodeTheorems.ReturnWakesAllWaiters` | internal/worker/limiter.go:211-217 | when the outstanding call returns, every waiting check can wake |
| `NodeTheorems.WaitsIffCold` | internal/worker/limiter.go:144-160 | a check waits exactly when its pool is cold and neither pacing, backoff nor the negative cache applies; then the pool is empty and a renewal under way |
| `NodeTheorems.FailClosed` | internal/worker/limiter.go:132-172 | once no grant arrives, at most the tokens then in the pool are admitted, and none by a reading a TTL or more later, directly or after waiting |
| `Answers.CountersAreExact` | internal/worker/limiter.go:120-223 | over every run the worker's counters count the requests answered Admit and what they cost, those answered Reject, the calls started and the calls that failed |
| `Answers.EveryCheckIsAnsweredOnce` | internal/worker/limiter.go:120-185 | over any run without a crash every check is admitted, rejected or answered Unknown once, or still waits |
| `Answers.GrantServesWaiter` | internal/worker/limiter.go:157-172 | a waiting check is admitted when the renewal brings enough for it and it wakes before the grant expires |
| `Scenarios.ColdStartIsAdmitted` | internal/worker/limiter.go:144-172 | in every configuration some run makes a worker's first request wait and admits it once the first lease has landed |
| `Scenarios.LateLeaseServesTheNext` | internal/worker/limiter.go:174-184 | in every configuration some run rejects a request whose wait times out and admits the next from the lease that came late |
| `Scenarios.StaleTokensRevive` | internal/worker/limiter.go:244-249 | whenever a request may cost two leases, some reachable worker holds a lease, gets the next one within the 1.5 s timeout but after the first expired, and admits a request for both |
| `Pacing.BackoffIsExact` | internal/worker/limiter.go:222-234 | after k consecutive errors the backoff is min(250 ms x 2^(k-1), 2 s); an answer resets it, a 404 does not |
| `Pacing.OutageIsPaced` | internal/worker/limiter.go:191-234 | in an outage the check that makes attempt k+1 reads the clock at least three quarters of the first k backoffs after the one that made the first attempt |
| `Scenarios.OutagePaceIsAttained` | internal/worker/limiter.go:191-234 | for every k some run makes k attempts spaced exactly by three quarters of their backoffs |
| `Pacing.RetriesAfterBackoff` | internal/worker/limiter.go:191-234 | 2.5 s after the last error an unserved check always finds or starts a renewal, unless the tenant is still negatively cached |
| `Pacing.NextCallExactly` | internal/worker/limiter.go:191-243 | after any return, an unserved check with no renewal out starts one exactly when due: 10 s after a 404, the jittered backoff after an error, max(hint, 200 ms) after a zero grant, at any time after a grant |
| `Pacing.ZeroGrantIsHonored` | internal/worker/limiter.go:235-243 | the next call after a zero grant comes no sooner than the hint and no sooner than 200 ms |
| `Pacing.RetriesAfterZeroGrant` | internal/worker/limiter.go:235-243 | once the hint and 200 ms have passed after a zero grant, an unserved check always finds or starts a renewal, unless the tenant is still negatively cached |
| `Pacing.LeaseCallsBounded` | internal/worker/limiter.go:191-251 | calls started by checks that read the clock in a window are at most one, plus one per token received, plus one per 187.5 ms of the window, whatever the request rate; tokens received are at most a lease size plus what is debited meanwhile |
| `Pacing.NegativeCacheIsIdle` | internal/worker/limiter.go:128-131 | while a tenant is negatively cached its pool is empty and no call is outstanding |
| `Pacing.UnknownTenantCallsTenSecondsApart` | internal/worker/limiter.go:219-221 | consecutive lease calls for a tenant that always gets 404 are started by checks whose readings are at least ten seconds apart |
| `Pacing.NoWaitUntilNextGrant` | internal/worker/limiter.go:144-153 | between a zero grant or error and the next positive grant no check waits |
| `Demand.CostlyRequestIsNotStarved` | internal/worker/limiter.go:187-203 | in any run in which a sole client repeats cost C, with renewals of at least g that land before its next check, it is admitted by its (ceil(C/g) + 1)-th check, directly or by waking |
| `Demand.LeasesAreBatched` | internal/worker/limiter.go:191-203 | with full grants, at the k-th lease call at least (k-1) leases minus max(C, watermark) - 1 tokens were admitted or expired |
| `TenantSystem.InvStep` | internal/coordinator/coordinator.go:63-86 | every step of the tenant's system keeps every worker's invariant and the agreement between coordinator and workers on what was debited |
| `TenantSystem.TokensAreConserved` | internal/worker/limiter.go:120-251 | in every reachable state, tokens debited by all coordinator incarnations = admitted + in live pools + in flight + lost to expiry, clearing, undelivered replies and crashes |
| `TenantSystem.DebitsInWindow` | internal/coordinator/coordinator.go:74-83 | debits over any window are at most rate x window + burst, plus a burst per restart inside it |
| `TenantSystem.AdmittedWasHeldOrDebited` | DESIGN.md:35-38 | admitted tokens exceed that bound by at most what workers held or had in flight when the window began |
| `TenantSystem.AdmissionWindow` | internal/loadgen/scenarios.go:476-503 | in every run, tokens admitted in any window are at most rate x window + (restarts + 1) bursts + (workers at its start) x (max(C, watermark) - 1 + lease size) |
| `SystemTheorems.WorkersAreWorkers` | internal/worker/limiter.go:120-251 | each worker of a system is always in a state of the single-worker machine |
| `SystemTheorems.TraceIsRun` | internal/worker/limiter.go:120-251 | the steps of one worker in a system run are a run of the single-worker machine that ends in the same state |
| `SystemTheorems.CoordinatorLoad` | internal/worker/limiter.go:191-251 | a worker's lease calls at readings in a window are at most one, a lease size, what the bucket can supply, and one per 187.5 ms of the window |
| `SystemTheorems.UnknownIffNotConfigured` | internal/coordinator/coordinator.go:64-73 | a reply makes a worker answer Unknown for ten seconds exactly when the tenant has a name and is not configured |
| `SystemTheorems.LowRateNeverAdmits` | internal/config/config.go:48-51 | a tenant unknown or below one token per second is never debited or admitted |
| `Cluster.RunProjects` | internal/coordinator/coordinator.go:69-83 | every run of the cluster is, for each tenant, a run of that tenant's system alone |
| `Cluster.TenantsDoNotInterfere` | internal/worker/limiter.go:89-185 | deleting every step of all other tenants leaves a run, and this tenant's bucket, counters, pools, calls and waiters exactly as they were |
| `Harness.InvariantCheck` | internal/loadgen/scenarios.go:482-503 | the check passes exactly when every configured tenant's result is within its bound |
| `Harness.SlackCovers` | internal/loadgen/scenarios.go:483-483 | 1.2 x lease size covers what a worker can hold exactly when 5 x (C - 1) <= lease size |
| `Harness.ClusterAdmissionWindow` | internal/loadgen/scenarios.go:476-503 | the window bound for each tenant of the whole cluster |
| `Harness.HarnessInvariantHolds` | internal/loadgen/scenarios.go:476-503 | in every run of the cluster with 5 x (C - 1) <= lease size, the harness's check passes for all tenants |
| `HarnessExact.AdmissionWindowIsTight` | internal/loadgen/scenarios.go:476-503 | for every lease size, C, number of workers, number of restarts and whole number of seconds, some run admits in a window of that length exactly what `TenantSystem.AdmissionWindow` allows |
| `HarnessExact.HarnessBoundCanFail` | internal/loadgen/scenarios.go:476-503 | for every C with 5 x (C - 1) > lease size and every number of workers, restarts and whole seconds, some run breaks the harness's bound in a window of that length |
| `HarnessExact.PlainBoundFails` | DESIGN.md:37-37 | for every lease size, C, number of workers and whole number of seconds, some run admits a whole lease per worker more than rate x window + burst |
| `HarnessExact.RateOneIsAdmitted` | internal/config/config.go:48-51 | every tenant with a rate of at least one token per second is admitted in some run |
| `HarnessExact.OrphanedLeaseIsLost` | internal/worker/server.go:23-23 | some run debits a lease after its caller has timed out, and its tokens are lost |
| `Driver.RunTenant` | internal/loadgen/driver.go:209-243 | requests released are always the whole part of RPS x elapsed time up to the last tick handled; exactly those that find a slot free are dispatched, the others counted as drops |
| `Driver.TenantResult.Record` | internal/loadgen/driver.go:45-69 | one outcome adds one to one total and to the same column of its second; buckets always sum to the totals |

## Left out

- HTTP handlers, JSON, the mux and statistics snapshots: only their outcomes matter here (grant, zero grant, 404, refusal, error).
- Go mutexes and goroutine scheduling: replaced by atomic steps in any order; `handleLease` is one step although it locks the bucket twice, which `BucketTheorems.HandlerPeeksAreTransparent` shows to change no grant and no bucket; a hint computed after another lease got in between is not modelled, but workers' theorems hold for any hint.
- Floating-point rounding, nanosecond truncation below the hint's millisecond, and integer overflow: exact reals and unbounded integers are used.
- Random jitter: any factor in [0.75, 1.25).
- Two coordinators alive at once, and lease parameters that change between coordinator incarnations: one live coordinator with one configuration, each new process starting no earlier than the last refill of the old.
- YAML parsing: a configuration is one that passed validation (lease size at least 1, duration at least 100 ms, positive rates).
- Harness.InvariantCheck: takes the sorted tenant names as an argument and does not build the detail string.
- Harness.HarnessInvariantHolds: compares what clients saw with admissions in a window of exactly the measured duration; requests dispatched before its end and admitted in the up to 2 s until the client's timeout are outside it (internal/loadgen/driver.go:219-222).
- Kubernetes control, scenarios other than the universal assertion, charts, latency percentiles and throughput: measurements and presentation.
