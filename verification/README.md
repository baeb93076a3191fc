# Verified models of the Birb Nest SDK and service

Birb Nest is a multi-tenant key-value cache: a Go client SDK, an HTTP API in front of Redis
and PostgreSQL, and an instance registry. This project models the parts of it that are state
machines or protocols and proves what they promise over every run. `dafny verify
dfyconfig.toml` checks all of it with Dafny 4.11; the resource limit is set in that file.

## What is modelled

| module | system part | form |
|---|---|---|
| `Errors` | error values, `errors.Is`/`errors.As` chains, the retry classification | datatypes and functions |
| `Backoff` | capped exponential delay with jitter; the browser client's iterated delay | functions over `real`, one loop |
| `RetryLoop` | the budgeted retry loop | a loop over a scripted environment |
| `WasmRetry` | the browser client's attempt loop | a loop over a scripted environment |
| `Hedging` | hedged requests: main goroutine, N call goroutines, one buffered channel, cancellation | the main goroutine's loops, and a step system of all interleavings |
| `CircuitBreaker` | one breaker and the per-endpoint table | classes, each method equal to a function of the old state |
| `BreakerRuns`, `BreakerWedge` | many interleaved calls through breaker and retry loop, with a clock and an episode number per state change | a step system |
| `Config` | validation of the client configuration and the default retry budget | a class |
| `Keys` | instance-scoped key building and parsing over real strings | a datatype with functions |
| `InstanceCache` | the instance cache and the context cache over one flat store | classes over one shared store |
| `AsyncWriter`, `AsyncRetries` | bounded queue, worker pool, retries, drops | a class whose methods are the atomic steps, and the step system |
| `WriteBehind`, `WriteBehindLimits` | `Set` and `Get` of a primary over fast map, queue and database; exactly when they keep their promises | a class, and a step system |
| `RateLimiter` | fixed window per client | a class |
| `InstanceContext`, `Registry`, `RegistryState`, `RegistryRuns`, `RegistryLaws` | instance records as shared mutable objects; the two-level registry; its runs | classes with footprints, functions on values, runs |
| `Paths` | escaping and placeholder substitution | functions and a loop |
| `BatchLoad` | loading an instance's rows in batches, around two registry updates | a class, a loop |

`Options` and `Counting` hold the shared result types and counting lemmas.

The environment enters as parameters: clock readings, random draws, what a call, a store or a
database returns, when a context ends. A concurrent component is a set of atomic steps; a
theorem about it speaks of every sequence of enabled steps. Durations and times are unbounded
integers of nanoseconds, floating-point numbers are reals, `time.Duration(x)` drops the
fraction.

## What the proofs found

The names in parentheses are the lemmas or methods that state each point.

- The rate limiter admits up to 2N - 1 requests of one client within one minute, and no more
  (`SlidingBound`, `SlidingBoundAttained`), although its limit reads as N per minute.
- The circuit breaker can reject everything for ever when `SuccessThreshold` is above
  `HalfOpenRequests`, and only then (`WedgeFreeExactly`). `Validate` does not compare the two.
- `RetryBudget.MaxAttempts` is documented as a number of retries (sdk/retry.go:67-69 and
  52); the code counts calls, so M allows M - 1 retries (`AttemptsSpent`).
- With neither `MaxAttempts` nor `MaxDuration` set, an error that stays retryable is retried for
  ever; either limit ends the loop of every strategy (`EndsExactly`).
- The queue entry's timestamp is documented as deciding the last write
  (internal/api/async_writer.go:17) but nothing reads it. At a quiet moment the database is the
  map of latest sets, with a worker, exactly when there is one worker, no failed call, no
  overflow, and no two sets of a key cross between Redis and the queue. Every undisturbed get
  is right exactly when, besides, no pending key is evicted or misread and no get is overtaken
  by a set (`DatabaseFaithfulExactly`, `GetsFreshExactly`).
- The browser client retries errors that the native client does not (`RejectionsRetried`), does
  not cap its very first delay (`FormsAgree`), and with a negative retry count would report
  success without a request (`SuccessMeansFetched`); `Validate` excludes that.
- Two instances share cache keys exactly when one namespace begins with the other
  (`CollideExactly`), which colon-free IDs exclude.
- The memory cache of the registry replaces a nil metadata map by an empty one
  (`Transparent`), and outlives the store exactly when a refresh fails in a record's last five
  minutes (`RefreshFailureExactly`). An outage whose text contains "not found" or "nil" makes
  `GetOrCreate` replace a live record (`RecreatesExactly`). After a failed activity update the
  rest of the minute reports success over an unchanged record (`HollowExactly`).
- Placeholders inside other braces can be hit by a later argument (`NestedBraces`).
- A load that begins and does not finish leaves its instance migrating
  (`LeavesMigratingExactly`).

One remark has no lemma, because pauses carry no duration in the model: the comment at
internal/api/async_writer.go:102 says exponential backoff, while the pause grows linearly.

## Model

| member | source | states |
|---|---|---|
| Errors.AnnotationIsTransparent | sdk/errors.go:473-508 | annotating an error with %w changes neither its retry decision nor the sentinels it matches |
| Errors.EnhancedCarriesSentinels | sdk/errors.go:193-207 | the enhanced error found in a chain matches exactly the sentinels the whole chain matches |
| Errors.WrapKeepsRetryDecision | sdk/errors.go:521-535 | wrapping a chain that holds an enhanced error keeps its retry decision |
| Errors.CancellationWrapper | sdk/errors.go:521-535 | a wrapped cancellation still matches its cause, and counts as a retryable timeout |
| Errors.HttpRetryClasses | sdk/errors.go:307-340 | an HTTP error is retried exactly for 5xx, 429 and 408, in both error forms |
| Errors.NetworkRetriedRejectionNot | sdk/errors.go:376-380 | a network failure is always retried, a breaker rejection never |
| Errors.TypeRetryClasses | sdk/errors.go:248-255 | an error made for a type is retried, and flagged so, exactly for network, timeout, server and rate-limit errors |
| Errors.TypeSentinels | sdk/errors.go:193-207 | exactly which sentinel an error of each type matches |
| Errors.HttpSentinels | sdk/errors.go:324-340 | an HTTP error matches the sentinel of its status class and no other |
| Errors.WrapMatches | sdk/errors.go:521-535 | wrapping keeps what a plain error matches and adds the sentinel of the type; a network error matches what its cause does |
| Errors.PlainRetryClasses | sdk/errors.go:473-508 | of plain errors exactly three sentinels, timeouts and network failures are retried |
| Backoff.GeometricClosed | sdk/retry.go:204-230 | the sum of the uncapped delays has the closed form (m^n - 1)/(m - 1) |
| Backoff.UnjitteredMonotone | sdk/retry.go:204-230 | without jitter the interval never shrinks and never exceeds MaxInterval |
| Backoff.JitterBounds | sdk/retry.go:217-227 | jitter moves the interval by at most the fraction J, and never below zero |
| Backoff.JitteredPlace | sdk/retry.go:217-227 | the draw places the interval in proportion between (1 - J) and (1 + J) times the base |
| Backoff.NeverNegative | sdk/retry.go:217-229 | for any jitter the moved interval is cut off at zero; without jitter it does not move |
| Backoff.WaitBelowCap | sdk/retry.go:204-230 | n delays add up to at most (1 + J) n MaxInterval for all draws |
| Backoff.WaitBelowGeometric | sdk/retry.go:204-230 | n delays add up to at most (1 + J) Initial (1 + m + ... + m^(n-1)) for all draws |
| Backoff.CalculateBackoff | sdk/wasm.go:174-185 | the loop with its early break equals the capped recursion |
| Backoff.IterateInteger | sdk/wasm.go:174-185 | with an integer multiplier the loop is the capped power, no truncation lost |
| Backoff.FormsAgree | sdk/wasm.go:174-185 | iterated and closed delay agree on an attempt exactly when the first delay is within the cap or it is not the first retry |
| Backoff.FormsClose | sdk/wasm.go:174-185 | for a real multiplier the loop is never above the closed form and short by at most (m^(n-1) - 1)/(m - 1) |
| RetryLoop.Execute | sdk/retry.go:392-459 | which calls are made, with what outcome, and the exact time waited, for every environment up to any horizon |
| RetryLoop.OutcomeMeaning | sdk/retry.go:392-459 | nil exactly when the last call returned nil; otherwise the last error or a cancellation wrapper; every earlier error was retryable |
| RetryLoop.OutcomeUnique | sdk/retry.go:392-459 | the environment determines the number of calls and the outcome |
| RetryLoop.EndsWith | sdk/retry.go:392-459 | which result a failed last call ends with: a cancellation during the call before a spent budget, one while waiting only when a wait was due |
| RetryLoop.RetriedTypes | sdk/retry.go:111-132 | an error is retried exactly when it is retryable and of a listed type, if types are listed |
| RetryLoop.ExponentialDraws | sdk/retry.go:204-230 | the exponential strategy waits its base for a draw of one half, the lower end for zero |
| RetryLoop.OtherDraws | sdk/retry.go:281-349 | the same for the linear strategy; the constant one ignores the draw |
| RetryLoop.AttemptBound | sdk/retry.go:100-108 | MaxAttempts M > 0 allows at most M calls and ends the loop |
| RetryLoop.AttemptsSpent | sdk/retry.go:100-108 | when only the budget stops it, exactly M calls are made and the M-th error is returned |
| RetryLoop.StopsAtLimit | sdk/retry.go:100-108 | when only the budget ends the loop, MaxAttempts calls were made or MaxDuration had passed at the last call, and neither before it |
| RetryLoop.DurationBound | sdk/retry.go:100-108 | MaxDuration D alone with constant delay c ends the loop within ceil(D/c) + 1 calls |
| RetryLoop.DurationEnds | sdk/retry.go:416-436 | MaxDuration D alone ends the loop of every retrying strategy, within D + 1 calls |
| RetryLoop.EndsExactly | sdk/retry.go:100-108 | when only a limit can end the loop, it ends if and only if MaxAttempts or MaxDuration is set |
| RetryLoop.UnlimitedNeverEnds | sdk/retry.go:392-459 | with neither limit a persistent retryable error is retried for ever |
| RetryLoop.WaitedBelowCap | sdk/retry.go:438-455 | the loop's own total waiting obeys the cap bound |
| RetryLoop.WaitedBelowGeometric | sdk/retry.go:438-455 | the loop's own total waiting obeys the geometric bound |
| RetryLoop.WaitedWithin | sdk/retry.go:392-459 | a finished run of at most n calls waited at most (1 + J) min((n-1) Max, Initial (m^(n-1) - 1)/(m - 1)) |
| WasmRetry.Do | sdk/wasm.go:54-84 | at most MaxRetries + 1 fetches, all but the last failed; result and total delay are determined |
| WasmRetry.EndingUnique | sdk/wasm.go:54-84 | that description leaves one possible ending |
| WasmRetry.SuccessMeansFetched | sdk/wasm.go:54-84 | success means a parsed response exactly when MaxRetries is not negative |
| WasmRetry.RejectionsRetried | sdk/wasm.go:54-84 | a 4xx rejection is asked MaxRetries + 1 times here and once by the native client |
| WasmRetry.DelaysClosed | sdk/wasm.go:174-185 | for an integer multiplier the browser delays add up to those of the closed form |
| Hedging.Execute | sdk/retry.go:520-612 | the two loops compute what the sequence of observed timer ticks, results and cancellation determines |
| Hedging.ExecuteFollowsProtocol | sdk/retry.go:552-611 | in every interleaving the main goroutine is where Execute's loops are after the same observations |
| Hedging.RunInv | sdk/retry.go:520-612 | the protocol invariant holds after every interleaving |
| Hedging.Conservation | sdk/retry.go:520-612 | until return or cancellation: running + sending + buffered + received = launched <= N |
| Hedging.NoSendBlocks | sdk/retry.go:535-545 | a goroutine about to send always finds room in the channel |
| Hedging.ResultMeaning | sdk/retry.go:552-611 | nil means some call returned nil; an error means all N calls failed and it is the first received; or the caller cancelled |
| Hedging.SelectMeans | sdk/retry.go:552-611 | in every reachable state: the first success returns at once, a failure or tick launches one more call while one is left, the N-th failure returns the first one |
| Hedging.MeasureDecreases | sdk/retry.go:552-611 | every step uses up a bounded measure |
| Hedging.Termination | sdk/retry.go:552-611 | no run has more than 4N + 1 events |
| Hedging.Progress | sdk/retry.go:552-611 | in every reachable state before return some step is possible |
| CircuitBreaker.CircuitBreaker.TransitionTo | sdk/circuit_breaker.go:328-352 | a change of state clears the counters and stamps the time; none is a no-op |
| CircuitBreaker.CircuitBreaker.Begin | sdk/circuit_breaker.go:213-236 | admission: new state and admit or reject, as the functions the run proofs use |
| CircuitBreaker.CircuitBreaker.RecordResult | sdk/circuit_breaker.go:282-325 | recording: new state for success and failure in each state |
| CircuitBreaker.CircuitBreaker.Execute | sdk/circuit_breaker.go:213-245 | the two critical sections around one call; a rejected call does not run |
| CircuitBreaker.CircuitBreaker.State | sdk/circuit_breaker.go:248-254 | reading the state may move Open to HalfOpen |
| CircuitBreaker.CircuitBreaker.Reset | sdk/circuit_breaker.go:257-266 | closed, counters cleared, last failure time kept |
| CircuitBreaker.PerEndpointBreaker.GetOrCreate | sdk/circuit_breaker.go:455-476 | one breaker per endpoint, created closed, the others untouched |
| CircuitBreaker.PerEndpointBreaker.Execute | sdk/circuit_breaker.go:394-397 | runs through that endpoint's breaker; every other breaker keeps its value |
| CircuitBreaker.PerEndpointBreaker.Reset | sdk/circuit_breaker.go:427-435 | resets that endpoint's breaker only, if there is one |
| Config.Config.Validate | sdk/config.go:300-338 | rejects exactly an empty base URL; otherwise puts every field in range |
| Config.ClampSane | sdk/config.go:300-338 | validation reaches the range and leaves a value alone exactly when it is in it |
| Config.ClampDefaults | sdk/config.go:300-338 | the value every out-of-range field is replaced by |
| Config.DefaultStrategyBounds | sdk/native.go:67-83 | a validated configuration makes at most MaxRetries + 1 attempts per call and ends |
| Config.DefaultStrategySpends | sdk/native.go:67-83 | when every call fails retryably, exactly MaxRetries + 1 calls are made and the last error is returned |
| Config.DefaultStrategyDelays | sdk/native.go:67-83 | each delay is within 30 percent of the capped power of the multiplier |
| BreakerRuns.StepInv | sdk/circuit_breaker.go:213-352 | for every retry strategy: every admit, attempt, complete, poll, reset and tick keeps the invariant, stale completions included |
| BreakerRuns.CountersMean | sdk/circuit_breaker.go:282-352 | Closed: failures is the trailing run of failed completions, below the threshold; HalfOpen: successes and admissions are those of this episode, within their limits; zero elsewhere |
| BreakerRuns.OpensOnThreshold | sdk/circuit_breaker.go:310-325 | Closed leaves for Open exactly on the FailureThreshold-th failure in a row |
| BreakerRuns.HalfOpenEnds | sdk/circuit_breaker.go:294-325 | HalfOpen opens exactly on a failed completion, with the present as last failure; closes exactly on a reset or the SuccessThreshold-th success of the episode |
| BreakerRuns.ChangeStamped | sdk/circuit_breaker.go:257-266 | the time of the last state change moves to the present exactly when a state is entered or a reset happens |
| BreakerRuns.AdmitsExactly | sdk/circuit_breaker.go:213-236 | a call is admitted exactly when Closed, Open for Timeout, or HalfOpen below the limit; a rejection matches ErrCircuitOpen and is not retried |
| BreakerRuns.OpenPeriod | sdk/circuit_breaker.go:269-279 | Open admits nothing; it closes on a reset, becomes HalfOpen exactly on a call or poll Timeout after the last recorded failure, and stays Open otherwise |
| BreakerRuns.EpisodeLoad | sdk/native.go:97-134 | calls admitted in one half-open episode make at most HalfOpenRequests times the attempts the strategy allows one call: one without retries, MaxAttempts with such a budget |
| BreakerRuns.ConfiguredEpisodeLoad | sdk/native.go:67-83 | with a validated configuration and no strategy of its own, at most HalfOpenRequests * (MaxRetries + 1) HTTP attempts per half-open episode |
| BreakerRuns.NeverWedges | sdk/circuit_breaker.go:213-245 | with SuccessThreshold <= HalfOpenRequests a breaker at its limit has a call of this episode in flight that can move |
| BreakerRuns.WedgeLasts | sdk/circuit_breaker.go:213-245 | a wedged breaker with nothing in flight rejects everything until it is reset |
| BreakerWedge.WedgeReachable | sdk/circuit_breaker.go:294-307 | with SuccessThreshold > HalfOpenRequests a wedged state is reachable |
| BreakerWedge.WedgeFreeExactly | sdk/circuit_breaker.go:213-352 | for every retry strategy: no reachable state is wedged if and only if SuccessThreshold <= HalfOpenRequests |
| Keys.SplitJoin | internal/instance/keys.go:45-60 | splitting undoes joining exactly for a non-empty list of colon-free parts |
| Keys.ParseBuild | internal/instance/keys.go:31-60 | for a non-empty ID, parsing a built key returns ID and components if and only if none holds a colon |
| Keys.ParseBuildLegacy | internal/instance/keys.go:31-60 | the exact condition for the round trip without an instance ID |
| Keys.RebuildParsed | internal/instance/keys.go:31-60 | building from what any key parses to gives the key back, except exactly for the prefix with an empty ID |
| Keys.StripBuild | internal/instance/keys.go:101-108 | stripping a built key leaves the joined components if and only if there are some |
| Keys.CollideExactly | internal/instance/keys.go:123-127 | two instances can produce a common cache key if and only if one namespace begins with the other |
| Keys.CacheKeyInjective | internal/instance/keys.go:123-127 | for colon-free IDs the cache key determines ID and key, colons in the key included |
| Keys.OwnsOnlyItsKeys | internal/instance/keys.go:90-98 | an instance recognises a key built by a colon-free ID exactly when the ID is its own |
| Keys.TrimKeepsColonFree | internal/instance/keys.go:22-26 | trimming keeps an ID colon-free |
| Keys.NewKeepsId | internal/instance/keys.go:22-26 | a bare ID is kept as it is and white space around it changes nothing |
| Keys.BuiltText | internal/instance/keys.go:31-41 | the text of a built key |
| Keys.CacheKeyText | internal/instance/keys.go:123-127 | the text of a cache key, with and without an instance |
| Keys.RecognisesExactly | internal/instance/keys.go:90-108 | an instance recognises and strips exactly the keys it builds; others are left alone |
| Keys.ColonsCollide | internal/instance/keys.go:123-127 | two IDs, one with colons, that share a cache key |
| InstanceCache.Store.GetMultiple | internal/cache/redis.go:109-131 | exactly the requested keys that are there, duplicates answered once |
| InstanceCache.InstanceCache.GetMultiple | internal/cache/instance_cache.go:49-74 | exactly the instance's own entries among the requested keys, under their own names |
| InstanceCache.InstanceCache.SetMultiple | internal/cache/instance_cache.go:77-86 | every item stored under its prefixed key, nothing else changed |
| InstanceCache.InstanceCache.DeleteMultiple | internal/cache/instance_cache.go:89-97 | exactly the prefixed keys removed |
| InstanceCache.InstanceCache.Get | internal/cache/instance_cache.go:25-28 | the value under the prefixed key, or key-not-found; a store that cannot be reached is a different error |
| InstanceCache.InstanceCache.Set | internal/cache/instance_cache.go:31-34 | stores under the prefixed key |
| InstanceCache.InstanceCache.Delete | internal/cache/instance_cache.go:37-40 | removes the prefixed key; an absent one is key-not-found |
| InstanceCache.ContextCache.GetMultiple | internal/cache/instance_cache.go:258-289 | the same for the instance named by the request context, "global" when there is none |
| InstanceCache.ContextCache.SetMultiple | internal/cache/instance_cache.go:292-307 | the same for bulk writes |
| InstanceCache.ContextCache.DeleteMultiple | internal/cache/instance_cache.go:310-324 | the same for bulk deletes |
| InstanceCache.OwnStep | internal/cache/instance_cache.go:25-97 | an operation acts on its instance's view as on a plain map, with the same answer |
| InstanceCache.ForeignStep | internal/cache/instance_cache.go:25-97 | an operation of an instance with an unrelated namespace leaves the view alone |
| InstanceCache.IsolatedExactly | internal/cache/instance_cache.go:25-97 | one instance never shows in another's view if and only if neither namespace begins with the other |
| InstanceCache.InstancesIsolatedExactly | internal/cache/instance_cache.go:17-97 | caches constructed for two colon-free IDs are isolated if and only if the IDs differ without the white space around them |
| InstanceCache.MapOfMaps | internal/cache/instance_cache.go:25-97 | over any sequence of operations by any instances, one whose namespace is unrelated to the others ends with the map and has received the answers it would have alone |
| InstanceCache.ColonFreeInstances | internal/cache/instance_cache.go:25-97 | the same for any instances with colon-free IDs |
| InstanceCache.GlobalShared | internal/cache/instance_cache.go:204-324 | requests without an instance and requests naming "global" act on one view with its answers; requests of other colon-free instances leave it alone |
| InstanceCache.ContextsIsolatedExactly | internal/cache/instance_cache.go:204-324 | requests with two colon-free context IDs are isolated if and only if they work under different IDs, "global" standing for none |
| AsyncWriter.AsyncWriter.Write | internal/api/async_writer.go:55-75 | the write joins the queue if there is room, meets a waiting worker if the queue is unbuffered, and is otherwise dropped and counted |
| AsyncWriter.AsyncWriter.Finish | internal/api/async_writer.go:84-123 | what one database answer does to worker, database and counters |
| AsyncWriter.AsyncWriter.Work | internal/api/async_writer.go:78-126 | a worker's loop over as many requests as there are answers and queued writes, for every sequence of answers |
| AsyncWriter.StepInv | internal/api/async_writer.go:55-126 | every step keeps the counting, attempt, request and provenance invariants |
| AsyncWriter.Conservation | internal/api/async_writer.go:38-126 | issued = queued + held + persisted + dropped + requeue failures + exhausted; queue and held stay within capacity and workers |
| AsyncWriter.FourAttempts | internal/api/async_writer.go:94-110 | no write causes more than four database calls |
| AsyncRetries.GivenUpAfterFour | internal/api/async_writer.go:94-110 | a write that was given up has had exactly four database calls, in every interleaving |
| AsyncRetries.ExhaustedExactly | internal/api/async_writer.go:94-123 | every write counted as exhausted is one of those |
| AsyncRetries.SingleWrite | internal/api/async_writer.go:78-126 | a single write is persisted when one of its first four calls is accepted and exhausted when all four are refused |
| AsyncWriter.NoForeignValues | internal/api/async_writer.go:84-92 | a database value is the initial one or was queued for that same instance and key |
| AsyncWriter.WorkDecreases | internal/api/async_writer.go:78-126 | every step that is not a write uses up a bounded amount of work |
| AsyncWriter.Drains | internal/api/async_writer.go:78-126 | once writing stops, after any run, the pipeline takes boundedly many steps and ends with nothing queued or held and every write persisted, dropped, lost or exhausted |
| WriteBehind.Handlers.Set | internal/api/handlers_instance.go:86-112 | the fast map is written first; only then is the write queued, and a failed fast write stops with an error; with nothing in between, the two steps of the runs |
| WriteBehind.Handlers.Get | internal/api/handlers_instance.go:133-159 | the fast map's value; on a miss or an unreadable fast map the database's, which is put back; not found when the database has none or cannot be read |
| WriteBehind.Simulation | internal/api/async_writer.go:55-126 | with overlapping sets and gets: replaying held write and queue over the database gives the latest value of every key without a half-done set, and every get, new or on its way, answers from the map of latest sets, after every calm run with at most one worker |
| WriteBehind.QuiescentDatabase | internal/api/async_writer.go:55-126 | when nothing is half done or pending the database equals the map of latest sets |
| WriteBehind.EvictExactly | internal/api/handlers_instance.go:133-152 | evicting a key keeps every answer right if and only if its last pending write, if any, repeats the database's value |
| WriteBehind.BlindGetExactly | internal/api/handlers_instance.go:133-152 | a get that cannot read the fast map answers right under the same condition, and only then |
| WriteBehind.OvertakenExactly | internal/api/handlers_instance.go:145-152 | a set between a get's database read and its repopulation leaves every answer right if and only if it is for another key or the same value |
| WriteBehind.OvertakenEarly | internal/api/handlers_instance.go:133-152 | a set between a get's miss and its database read leaves every answer right if and only if the database has no value of the key or that same value |
| WriteBehind.CrossedExactly | internal/api/handlers_instance.go:86-104 | of two sets of one key, the later in Redis and the earlier in the queue, the right value reaches the database if and only if both set the same one |
| WriteBehindLimits.DatabaseFaithfulExactly | internal/api/async_writer.go:55-126 | for every capacity, worker count and start: the database is the latest sets at every quiet moment if and only if there is one worker and neither failed calls, overflow nor crossing sets may happen, or there is no worker and no write can vanish |
| WriteBehindLimits.GetsFreshExactly | internal/api/handlers_instance.go:86-152 | for every capacity, worker count and start: every get that runs undisturbed returns the latest set if and only if there is one worker and none of failure, overflow, missing a pending key, overtaking and crossing may happen; the exact condition without workers |
| WriteBehindLimits.TwoWorkersReorder | internal/api/async_writer.go:78-126 | any second worker, over any queue, can leave the older value in the database |
| WriteBehindLimits.CrossingReorders | internal/api/handlers_instance.go:86-104 | two sets of one key that cross between Redis and the queue can leave the older value in the database, over any queue |
| WriteBehindLimits.FailuresLose | internal/api/async_writer.go:94-123 | failed calls can lose the only write of a key, over any queue |
| WriteBehindLimits.RetryReorders | internal/api/async_writer.go:94-110 | from capacity two on, one failed call can leave the older value in the database |
| WriteBehindLimits.OverflowLoses | internal/api/async_writer.go:64-74 | over any queue, a set that finds it full is lost |
| WriteBehindLimits.EvictionHides | internal/api/handlers_instance.go:133-152 | evicting a key with a pending write can make Get return an old value |
| WriteBehindLimits.RepopulationOvertaken | internal/api/handlers_instance.go:145-152 | putting back a value read before a newer Set can hide that Set |
| RateLimiter.Limiter.Handle | internal/api/middleware.go:133-172 | admission, counter, remaining count and reset time of one request; other clients untouched |
| RateLimiter.WindowBound | internal/api/middleware.go:133-172 | at most N admissions within one window |
| RateLimiter.PassesExactly | internal/api/middleware.go:133-172 | a request passes if and only if fewer than N have passed since its window opened, a window opening at the first request more than a minute after the one before |
| RateLimiter.SlidingBound | internal/api/middleware.go:133-172 | at most 2N - 1 admissions of a client in any closed minute, none for a limit of zero or below |
| RateLimiter.SlidingBoundAttained | internal/api/middleware.go:133-172 | a trace with 2N - 1 admissions in one minute, for every N |
| RateLimiter.Independence | internal/api/middleware.go:133-172 | a client's admissions are those of its own requests alone |
| InstanceContext.Context.Clone | internal/instance/context.go:124-152 | new objects throughout, equal content up to a nil metadata map |
| InstanceContext.Context.UpdateLastActive | internal/instance/context.go:119-121 | changes that field only |
| Registry.Registry.Get | internal/instance/registry.go:86-119 | new state and answer; the record handed out shares no object with the memory cache |
| Registry.Registry.Register | internal/instance/registry.go:59-83 | new state and error; the caller's record is marked active even when the store fails |
| Registry.Registry.GetOrCreate | internal/instance/registry.go:122-143 | creates exactly on a not-found answer |
| Registry.Registry.Update | internal/instance/registry.go:146-162 | keeps the existing creation time, in the store and in the caller's record |
| Registry.Registry.Delete | internal/instance/registry.go:165-187 | removes record, clone and throttle mark, or nothing |
| Registry.Registry.UpdateLastActive | internal/instance/registry.go:190-207 | throttled, or read, touched and written back |
| Registry.Registry.UpdateMemCache | internal/instance/registry.go:267-274 | remembers a clone under the record's own ID for five minutes |
| Registry.Registry.Isolated | internal/instance/registry.go:254-274 | changes to objects outside the cache's footprint leave the registry's content alone |
| Registry.CallersCannotReachIn | internal/instance/registry.go:254-274 | overwriting everything a Get handed out does not change the next Get |
| Registry.RegisteredIsOutOfReach | internal/instance/registry.go:59-83 | overwriting a registered record does not change what is registered |
| RegistryLaws.StepNamed | internal/instance/registry.go:59-302 | an operation on one ID changes nothing of any other |
| RegistryLaws.RegistersExactly | internal/instance/registry.go:59-83 | registering succeeds exactly for a named record the store accepts, and changes nothing otherwise |
| RegistryLaws.RegisteredIsFound | internal/instance/registry.go:59-119 | what later reads answer after a registration: from memory for five minutes, from the store for a day |
| RegistryLaws.ReadExtends | internal/instance/registry.go:112-116 | a store read is remembered for five minutes and keeps the record for another day |
| RegistryLaws.CreatesExactly | internal/instance/registry.go:122-143 | GetOrCreate creates and stores the default record exactly on a not-found answer |
| RegistryLaws.UpdatesExactly | internal/instance/registry.go:146-162 | Update succeeds exactly when the record can be read and written, and stores the caller's record with the old creation time |
| RegistryLaws.DeletesExactly | internal/instance/registry.go:165-187 | Delete succeeds exactly for a live record and a working store, leaves nothing of that ID and everything of the others |
| RegistryLaws.DeletedIsGone | internal/instance/registry.go:165-187 | after a successful Delete no read finds the record, at any time and under any faults, until a step creates it |
| RegistryLaws.ThrottledForAMinute | internal/instance/registry.go:278-289 | after an unthrottled update calls are throttled for exactly a minute |
| RegistryRuns.StepConsistent | internal/instance/registry.go:59-302 | an operation keeps memory entries equal to the stored records and expiring before them if and only if no failed refresh lets a record overstay |
| RegistryRuns.ConsistentExactly | internal/instance/registry.go:59-302 | over whole runs the two levels stay consistent if and only if no step lets a record overstay |
| RegistryRuns.Transparent | internal/instance/registry.go:86-119 | after every run from a consistent state in which no record overstays, a read answers as the store would, differing exactly for a remembered record stored with nil metadata |
| RegistryRuns.RefreshFailureExactly | internal/instance/registry.go:112-116 | after a store read, memory answers only while the store does if and only if the refresh worked or the stored record had more than five minutes left |
| RegistryRuns.RefreshFailureShows | internal/instance/registry.go:293-302 | such a state is reachable: a run with one failed refresh reads what the store has dropped |
| RegistryRuns.CreationSticks | internal/instance/registry.go:122-207 | while a record stays live and is not registered over or deleted, its creation time is fixed and its activity never goes back |
| RegistryRuns.LiveUntilExpiry | internal/instance/registry.go:59-302 | a run that ends before the first expiry keeps the record live throughout |
| RegistryRuns.RecreatesExactly | internal/instance/registry.go:100-143 | GetOrCreate replaces a live record exactly on an outage that looks like an absent key |
| RegistryRuns.OncePerMinute | internal/instance/registry.go:278-289 | after an unthrottled call no further one does anything for a minute, until a delete |
| RegistryRuns.ActivityIsRecent | internal/instance/registry.go:190-207 | with a healthy store a successful update leaves the stored activity less than a minute old |
| RegistryRuns.RestartsConsistent | internal/instance/registry.go:45-51 | a registry that starts over the store of a consistent one, or over an empty store, starts consistent |
| RegistryRuns.ActivityExactly | internal/instance/registry.go:190-207 | an unthrottled update of a live record succeeds and moves its activity if and only if the record could be read and written; otherwise the record is unchanged |
| RegistryRuns.HollowExactly | internal/instance/registry.go:190-207 | every update of the following minute reports success, and the record is as old as before if and only if the first update could not read or could not write |
| Paths.BuildPath | sdk/transport.go:70-81 | the loop substitutes the arguments one after another |
| Paths.SequentialIsSimultaneous | sdk/transport.go:70-81 | for patterns with braces in placeholders only, that equals substituting all at once, the first of equal placeholders only |
| Paths.NestedBraces | sdk/transport.go:70-81 | for {{0}} the two differ exactly when the argument spells the number of a later argument |
| Paths.DecodeEscape | sdk/transport.go:75-78 | percent-decoding (section 2.1 of RFC 3986) returns the argument, spaces and plus signs included |
| Paths.EscapedAlphabet | sdk/transport.go:75-78 | escaped text holds unreserved characters (section 2.3 of RFC 3986) and percent signs only |
| Paths.EscapeExactly | sdk/transport.go:75-78 | text is left as it is exactly when all of it is unreserved |
| Paths.EscapeOther | sdk/transport.go:75-78 | any other byte becomes a percent sign and two upper-case hexadecimal digits |
| Paths.EscapedSpace | sdk/transport.go:75-78 | a space becomes "%20" |
| Paths.PathDeterminesArguments | sdk/transport.go:70-81 | when placeholders are whole segments, different arguments give different paths |
| BatchLoad.InstanceOperations.LoadRows | internal/operations/instance_ops.go:57-94 | which batches reach the cache, in order, and which failure ends the load |
| BatchLoad.BatchedIsOneByOne | internal/operations/instance_ops.go:57-94 | the cache ends as if the rows had been written one by one, repeated keys included |
| BatchLoad.BatchSizes | internal/operations/instance_ops.go:79-94 | every batch but the last has 1000 entries, the last 1 to 1000 |
| BatchLoad.WrittenOnce | internal/operations/instance_ops.go:57-94 | with distinct keys each row is in exactly one batch and nothing else is written |
| BatchLoad.BatchCount | internal/operations/instance_ops.go:57-94 | n rows with distinct keys take n/1000 batches, rounded up |
| BatchLoad.InstanceOperations.LoadInstance | internal/operations/instance_ops.go:34-106 | registry, cache and result as determined by the registry before, the rows and what works |
| BatchLoad.SucceedsExactly | internal/operations/instance_ops.go:34-106 | a load succeeds if and only if the record can be read and marked, the query works, every row scans, the cache takes every batch, the metadata map exists, and memory or a reachable store still has the record for the last write |
| BatchLoad.LeavesMigratingExactly | internal/operations/instance_ops.go:34-106 | a load that cannot begin changes no record; one that begins leaves the instance migrating if and only if a later step fails, and active with its row count otherwise |

## Left out

- HTTP, Fiber, Redis, pgx, S3, Datadog, Prometheus and OpenTelemetry: libraries and I/O; stores are maps, a call succeeds or fails.
- SQL text, triggers and TTL predicates of the database: the database is a map keyed by instance and key.
- Expiry of cache values: the TTL argument of cache writes is dropped, except in the registry, whose store expiry is modelled.
- JSON encoding of records, values and bodies, and base64 wrapping: values are abstract and assumed to survive a round trip.
- Floating-point rounding and `int64` overflow in the delays: reals and unbounded integers.
- RetryLoop.Execute: observes the loop up to a horizon of calls, because a loop without limits never ends; strategies a user writes are not modelled.
- The length of the hedge delay: the timer may fire at any moment before the next result.
- Panics and `AsyncWriter.Shutdown`: closing a channel and unwinding are matters of the Go runtime.
- The database delete in `Handlers.Delete`, forwarding from replicas and `queryPrimary`: not ordered with respect to the queue.
- `BatchGet`, request parsing and the choice of the instance ID from headers.
- In the runs of `WriteBehind` a database read always works and a Set that Redis refuses, which changes nothing, is no step; `Handlers.Get` and `Handlers.Set` cover both.
- Registry.Registry.Get: the TTL refresh runs to completion inside the read that starts it; its race with Register and Delete is not modelled, and nobody else writes the store.
- Registry operations that overlap, among themselves or with a load: each is one step here, while handlers start `UpdateLastActive` in the background on every request, and such an update can put back a status read before a load marked the instance.
- Requests that overlap inside the rate limiter: each is handled as one step.
- One clock reading per critical section or registry call, where the code may read it twice.
- InstanceCache.InstanceCache.SetMultiple: a store that fails stores nothing; a pipeline that fails halfway is not modelled.
- BatchLoad.InstanceOperations.LoadRows: the rows are those the query delivers; the code does not ask whether it stopped early, and neither does the model.
- `WithContext`, `WithDetail` and the in-place renaming of `WrapError`: errors are values, so an error object shared by two holders is not modelled.
- `ResetAll`, the no-op breaker, observers, metrics and statistics.
- `InstanceCache.Scan`, `Registry.List` and `scanKeys`: placeholders that return nothing.
- `DeleteInstance`, `BackupInstance`, `RestoreInstance`: queries and streaming around the operations modelled here.
