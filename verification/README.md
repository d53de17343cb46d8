# A model of sentirum-lb's routing core

sentirum-lb is a load balancer written in Rust that learns its routes from Consul. This project
models the in-memory machinery every request goes through and proves what that machinery promises.
Verify it with `dafny verify dfyconfig.toml`.

| files | part of the system |
|---|---|
| `Weights`, `Slots`, `SlotSizing`, `Interleaving`, `Route` | a route's targets, their weights, and the weighted slot list spread by a stride scheduler |
| `Pickers` | round robin over the slot list with a wrapping counter, and least connections |
| `Breaker`, `CircuitBreaker`, `BreakerRuns`, `BreakerLimits` | the circuit breaker: an automaton that scans outcomes, the packed-byte class that refines it, and theorems about whole runs |
| `BreakerThreads`, `BreakerSchedules`, `BreakerAlone`, `BreakerProbes`, `BreakerModes` | the same breaker as a transition system of any number of threads, one atomic operation or reading of the clock per step, which alone add up to the automaton's operations; exactly when its half-open probe is exclusive, and exactly when an open circuit can skip half-open |
| `TokenBucket`, `TokenGrants`, `RateKeys` | fixed-point rate limiting, and which targets share a bucket |
| `Connections`, `ConnectionRegistry`, `Refusals` | connection counters shared through weak references, with table rebuilds and compare-exchange loops |
| `ServerName`, `ServerNameGrammar` | the parser that finds the server name in a TLS ClientHello, against an encoder of the format, and exactly the messages it accepts |
| `RouteTable`, `CommandEffects`, `Table`, `RouteLookup`, `RouteMatching` | the commands that change the table, the class that runs them, the sort and the look-ups |
| `DnsCache` | the DNS cache with expiry and eviction, against a map that never forgets |
| `LogBuffer` | the log ring buffer, against the whole history |
| `Health`, `Catalog`, `Watcher` | which service instances Consul's checks let through, and the loop that watches for changes |

The pattern is the same throughout. Code that changes state is a class or a method with the
program's fields, branches and loops; its `ensures` equates the new state with a function of the old
one. The promises are then proved about those functions, mostly over every run, and the numbers and criteria that
matter to a user are written out in plain terms beside them. Floating-point
weights are exact reals. Clocks and the answers of other systems are inputs.

Six results are about behaviour a reader may not expect:

- Between threads the half-open probe is **not** exclusive, even when a single probe is configured.
  The store that clears the in-flight flag comes after the exchange that makes the breaker half-open,
  and may erase another thread's reservation (`TwoProbesAtOnce`). A thread takes the flag before it
  stores its time stamp, so that another one may still find the stamp of a failed probe, take the new
  probe for stuck and clear the flag (`StaleStampDoubles`). And it reads the clock before it stores
  the stamp, which may be too old by then (`LateStampDoubles`). Another probe can be granted exactly
  when some thread stands before one of the two clears or some stamp is too old, the stored one or
  one that a thread has loaded or is about to store (`SecondProbeExactly`). With atomic operations
  the probe is exclusive (`OneProbe`).
- Between threads an open circuit can close without being half-open first: a success on its way to
  close the circuit is overtaken by an error. From an open state that is possible exactly when some
  thread is on that way, from the clear after the last success on, and has not read another state
  (`SkipsExactly`). Every change of mode but Closed to HalfOpen is possible (`ModeChangesExactly`);
  with atomic operations only the four intended ones are (`RunChained`).
- A turn of the round-robin counter that wraps need not be exact. It is exact for all slot lists of
  one length exactly when the counter does not wrap within the turn or the length divides 2^64
  (`TurnExactIff`), and routes with such lists exist (`WrapBreaksTurn`).
- The global rate limit is configured again on every request exactly when one of rate and burst is 0
  and the other is not (`ReconfiguresAgain`). With a rate and a burst of 0 every request is granted
  (`GlobalLimit`).
- Services on two nodes can share the joined name "node.id", so that a failing one is admitted. That
  is possible exactly when one node's name extends the other's by a dot (`FailingAdmittedExactly`).
- `recent` with a limit of 0 returns an entry if one passes (`LimitRespected`).

## Model

| member | source | states |
|---|---|---|
| Interleaving.Interleave | src/route/table.rs:236-280 | The scheduling loop over fractional positions makes exactly the picks of a scheduler that compares positions by cross multiplication. |
| Interleaving.FindEarliest | src/route/table.rs:259-268 | The inner scan finds the earliest run with slots left, the lower index on ties. |
| Interleaving.PositionOrder | src/route/table.rs:244-278 | A run sits before another exactly when (2a+1)*d < (2b+1)*c: adding strides and cross multiplication agree. |
| Interleaving.PicksArePermutation | src/route/table.rs:236-280 | The interleaved list holds every run exactly as often as it has slots. |
| Interleaving.TakenBalanced | src/route/table.rs:259-279 | Every pick keeps the pairwise invariant (2x-1)*q <= (2y+1)*p for all pairs of runs. |
| Interleaving.PrefixFair | src/route/table.rs:236-280 | In every prefix of length k a run with c of n slots occurs so often that 2*n*count - 2*k*c is at most n + (groups-2)*c in size. |
| Slots.GroupRuns | src/route/table.rs:220-234 | The grouping loop cuts the slot list into maximal runs of one target. |
| Slots.RunsUnique | src/route/table.rs:220-234 | A list has only one division into maximal runs. |
| Slots.SpreadKeepsSlots | src/route/table.rs:212-281 | After interleaving each target still has exactly its slots. |
| Slots.SpreadFair | src/route/table.rs:212-281 | The proportional-share bound, said of targets and the final slot list. |
| Weights.WeightsSum | src/route/table.rs:112-179 | Weights sum to max(1, total fixed) when some target is dynamic and to the total fixed otherwise. |
| Weights.SlotsForWeight | src/route/table.rs:183-198 | A slot count is within one half of 1000 times a weight from 0.0005 to 1000, 1 for smaller positive ones, 1000000 for larger ones and 0 for 0. |
| SlotSizing.SlotsForIsWorth | src/route/table.rs:181-198 | A weight is worth the whole number of slots nearest to 1000 times it, at least one if positive and at most a million, and no other number. |
| SlotSizing.TurnServesWorth | src/route/table.rs:112-281 | One turn of the counter serves a target as often as its fixed weight is worth, or as an equal share of what the fixed weights leave of 1 is. |
| Weights.SomeSlot | src/route/table.rs:200-211 | A route with targets has a slot, so the equal-distribution fallback is never taken. |
| Weights.DynamicShare | src/route/table.rs:119-178 | The shares of the dynamic targets add up to exactly what the fixed weights leave of 1. |
| Routes.Route.AddTarget | src/route/table.rs:80-91 | Appends the target unless one with the same service, URL, fixed weight and source is there. |
| Routes.Route.RemoveTargets | src/route/table.rs:94-108 | Keeps, in order, exactly the targets that miss some given criterion. |
| Routes.Kept | src/route/table.rs:94-108 | A target is kept if and only if it was there and is not removable. |
| Routes.Route.FixedAndDynamic | src/route/table.rs:119-140 | The loop's totals are the sum of the positive fixed weights and the number of other targets. |
| Routes.Route.Share | src/route/table.rs:118-178 | The share computed in either branch is the dynamic share of the specification. |
| Routes.Route.FillSlots | src/route/table.rs:181-198 | The slot list before interleaving: target after target, each as often as its slot count. |
| Routes.Route.ComputeWeights | src/route/table.rs:112-281 | Weights and slot list are functions of the current targets alone; the fallback branch is shown unreachable. |
| Pickers.RoundRobin | src/route/picker.rs:22-50 | Picks the slot the counter selects and advances the counter by one with wrap-around; with nothing to pick it leaves the counter. |
| Pickers.FullTurnIsExact | src/route/picker.rs:35-36 | Any full turn of consecutive picks, from any start without a harmful wrap, picks each target exactly as often as it has slots. |
| Pickers.TurnExactIff | src/route/picker.rs:35-36 | A turn from a given start is exact for all lists of n slots if and only if the counter does not wrap within it or n divides 2^64. |
| Pickers.WrapBreaksTurn | src/route/table.rs:112-281 | The same if-and-only-if for a route the program can build: n targets of fixed weight 0.001 are each picked once in a turn. |
| Pickers.WindowFair | src/route/picker.rs:35-36 | Any k consecutive picks from any start without a harmful wrap are within twice the prefix bound of the proportional share. |
| Pickers.AnyWindowFair | src/route/picker.rs:35-36 | Any window of at most 2^64 picks from any start, across the wrap or not, is within three times the prefix bound. |
| Pickers.RouteServesByWeight | src/route/table.rs:112-281 | End to end: one turn serves a target as often as its weight gave it slots, and no positive weight starves. |
| Pickers.LeastConnections | src/route/picker.rs:100-143 | With weights: a target with weight whose connections, in proportion to weights, are the fewest up to one millionth, the first such; without any: the first with the fewest connections; None only without targets. |
| CircuitBreakers.PackingIsMasking | src/route/circuit_breaker.rs:98-101 | The arithmetic packing equals the program's masks and shifts. |
| CircuitBreakers.CircuitBreaker.constructor | src/route/circuit_breaker.rs:112-128 | A new breaker is Closed with nothing recorded, its configuration clamped. |
| CircuitBreakers.CircuitBreaker.CanAcceptRequest | src/route/circuit_breaker.rs:133-144 | Answers as the automaton does, changing nothing. |
| CircuitBreakers.CircuitBreaker.AllowRequest | src/route/circuit_breaker.rs:150-205 | The retry loop ends, grants exactly when the automaton grants and moves to its state. |
| CircuitBreakers.CircuitBreaker.AbortProbe | src/route/circuit_breaker.rs:209-215 | Frees the reservation in half-open and does nothing otherwise. |
| CircuitBreakers.CircuitBreaker.TryTransitionToHalfOpen | src/route/circuit_breaker.rs:226-255 | From Open, half-open with no successes and a free probe; otherwise nothing. |
| CircuitBreakers.CircuitBreaker.PushOutcome | src/route/circuit_breaker.rs:294-308 | The counter adjusted on push and pop equals the number of errors in the new window. |
| CircuitBreakers.CircuitBreaker.RecordSuccess | src/route/circuit_breaker.rs:257-288 | Refines the automaton, which remembers every outcome since the last close. |
| CircuitBreakers.CircuitBreaker.RecordError | src/route/circuit_breaker.rs:290-349 | Opens exactly when a full scan of the last outcomes trips; the counter-based decision refines the scan. |
| CircuitBreakers.CircuitBreaker.TransitionToOpen | src/route/circuit_breaker.rs:351-390 | Opens at the given time; only a change from another state is recorded. |
| CircuitBreakers.CircuitBreaker.TransitionToClosed | src/route/circuit_breaker.rs:393-408 | Forgets the window; the history shows nothing. |
| CircuitBreakers.CircuitBreaker.RecordTransition | src/route/circuit_breaker.rs:448-458 | The history stays the last 20 of the visible transitions. |
| BreakerRuns.OpenHolds | src/route/circuit_breaker.rs:150-222 | Before the recovery time an open circuit refuses every request, whatever is recorded meanwhile. |
| BreakerRuns.OpenRecovers | src/route/circuit_breaker.rs:150-222 | The first request at or after it is granted and becomes the probe. |
| BreakerRuns.HalfOpenCounts | src/route/circuit_breaker.rs:257-349 | Half-open lasts exactly while nothing fails and too few probes have succeeded. |
| BreakerRuns.ClosesExactly | src/route/circuit_breaker.rs:257-288 | The circuit closes exactly at the success that completes half_open_max_requests of them without an error. |
| BreakerRuns.OneProbe | src/route/circuit_breaker.rs:163-200 | After a half-open grant every request is refused until a result, an abort or the stuck-probe timeout. |
| BreakerRuns.CanAcceptForesees | src/route/circuit_breaker.rs:133-144 | can_accept_request foresees every grant except the replacement of a stuck probe. |
| BreakerRuns.ClosedUntilTrip | src/route/circuit_breaker.rs:257-348 | Without a tripping failure the circuit stays closed and its window is drawn from every outcome so far. |
| BreakerRuns.OpensAtTrip | src/route/circuit_breaker.rs:290-330 | The circuit opens at a failure if and only if the scan of the last window_size outcomes trips there. |
| BreakerRuns.RunChained | src/route/circuit_breaker.rs:226-408 | The true transitions chain and are only the four that exist. |
| BreakerRuns.HistoryFollows | src/route/circuit_breaker.rs:226-458 | At most 20 entries; each starts where the one before ended, except that Closed may follow HalfOpen. |
| BreakerLimits.OpensExactly | src/route/circuit_breaker.rs:290-330 | The circuit opens at an event if and only if that is a failure and the last window_size outcomes are at least 5 and a quarter of the window, or a full window, and errors to at least the threshold percentage. |
| BreakerLimits.OpensByCount | src/route/circuit_breaker.rs:290-330 | The same by counting the successes and failures of a run that fits the window. |
| BreakerLimits.RefusesUntilRecovery | src/route/circuit_breaker.rs:150-222 | An open circuit refuses every request for exactly 1000 times the recovery seconds, in milliseconds, and then grants one. |
| BreakerLimits.RefusesUntilStuck | src/route/circuit_breaker.rs:163-200 | A probe nobody reports on keeps others out for exactly the recovery time, at least 100 milliseconds, and for ever if it was sent at time 0. |
| BreakerLimits.ReportMakesRoom | src/route/circuit_breaker.rs:209-288 | In half-open a success that is not the last needed, and an abort, let the next probe go at once. |
| BreakerLimits.FailureReopens | src/route/circuit_breaker.rs:333-336 | In half-open one failure opens the circuit from its own time on. |
| BreakerLimits.VisibleExactly | src/route/circuit_breaker.rs:351-458 | Only the closing of a half-open circuit is missing from the visible history. |
| BreakerThreads.ExecInv | src/route/circuit_breaker.rs:150-408 | The invariant of every schedule of any number of threads. |
| BreakerAlone.AllowAlone | src/route/circuit_breaker.rs:150-255 | The steps of a thread that nobody disturbs answer and end as allow_request of the automaton does. |
| BreakerAlone.AbortAlone | src/route/circuit_breaker.rs:209-215 | The same for abort_probe. |
| BreakerAlone.ReportsAlone | src/route/circuit_breaker.rs:257-408 | The same for record_success and record_error, of which the window remembers the last outcomes. |
| BreakerThreads.ByteAlwaysDecodes | src/route/circuit_breaker.rs:224-408 | The byte is always a known state with a probe count below the limit, and 0 outside half-open. |
| BreakerThreads.CounterMatchesWindow | src/route/circuit_breaker.rs:257-330 | Whenever the window lock is free the counter is the number of errors in a window of at most window_size. |
| BreakerThreads.DecisionIsAScan | src/route/circuit_breaker.rs:290-330 | One thread at a time is in the locked region and its decision equals a scan of the window. |
| BreakerThreads.CounterNeverUnderflows | src/route/circuit_breaker.rs:264-270 | The counter is positive whenever it is about to be decremented. |
| BreakerThreads.GrantsNeedClears | src/route/circuit_breaker.rs:163-200 | There is never more than one grant more than there were clears of the flag. |
| BreakerThreads.ExclusiveUntilClear | src/route/circuit_breaker.rs:163-200 | From any state with a probe in flight, in any schedule, every further grant costs a clear of the flag. |
| BreakerProbes.SecondProbeExactly | src/route/circuit_breaker.rs:150-255 | In a reachable state with a probe in flight and every thread at rest or asking, requests alone can be granted another probe if and only if some thread stands before a clear of the flag or some stamp, stored or in a thread's hands, is too old. |
| BreakerProbes.TwoProbesAtOnce | src/route/circuit_breaker.rs:237-244 | From a reachable half-open state with no grant yet, moves of requests alone, without result, abort or time, grant two; the store after the exchange is the cause. |
| BreakerProbes.StaleStampDoubles | src/route/circuit_breaker.rs:169-198 | The same with no thread before that store: the flag is taken while the stamp is that of an earlier, failed probe. |
| BreakerProbes.LateStampDoubles | src/route/circuit_breaker.rs:176-194 | The same with no stamp stored at all: a second passes between a thread's reading of the clock and its store. |
| BreakerModes.SkipsExactly | src/route/circuit_breaker.rs:257-408 | From a reachable open state some moves keep the byte open up to one that closes it if and only if some thread is on its way to close: at the clear after the last success, or in the close having read nothing but open. |
| BreakerModes.ModeChangesExactly | src/route/circuit_breaker.rs:226-408 | Between threads one step can bring about every change of mode except Closed to HalfOpen. |
| TokenBuckets.TokenBucket.Configure | src/proxy/ratelimit.rs:69-88 | The new rate, burst, tokens and refill time, with 64-bit wrap-around. |
| TokenBuckets.TokenBucket.TryAcquire | src/proxy/ratelimit.rs:91-125 | Grants exactly when a whole token is there after the refill, and takes it. |
| TokenBuckets.TokenBucket.ConfiguredRateBurst | src/proxy/ratelimit.rs:141-147 | The configuration in whole tokens, (0, 0) when unlimited. |
| TokenBuckets.TokenBucket.TryAcquireRateLimit | src/route/target.rs:316-325 | A target without its own override first follows the global limits. |
| TokenBuckets.NeverTooMany | src/proxy/ratelimit.rs:69-124 | Grants plus what is left never exceed the first tokens, one burst per configure and what the time produced; tokens never exceed the burst. |
| TokenBuckets.RateLimited | src/proxy/ratelimit.rs:91-124 | Over any stretch of requests: at most one burst plus rate times time. |
| TokenBuckets.LittleIsLost | src/proxy/ratelimit.rs:91-124 | While the cap is never hit, fewer sub-tokens are lost to rounding than there were calls. |
| TokenGrants.FullBurstGranted | src/proxy/ratelimit.rs:91-124 | A bucket idle long enough grants, of k requests at one instant, exactly min(k, burst), the burst counting at least 1. |
| TokenGrants.NothingWithheld | src/proxy/ratelimit.rs:91-124 | Over any run, grants and rest make up what was there and produced, less what arrived above the burst and one sub-token a call. |
| TokenGrants.NothingGivenAway | src/proxy/ratelimit.rs:69-124 | And at most that, with one burst for every configure, in plain numbers of sub-tokens and nanoseconds. |
| TokenGrants.ConfiguredExactly | src/proxy/ratelimit.rs:69-88 | A configuration is kept as a million sub-tokens for each token; an empty bucket is filled and a stopped clock started. |
| TokenGrants.UnlimitedGrantsAll | src/proxy/ratelimit.rs:91-97 | Without a rate every request is granted. |
| TokenBuckets.ReconfiguresAgain | src/route/target.rs:316-325 | The next call with the same limits reconfigures if and only if exactly one of rate and burst is 0. |
| TokenBuckets.ReconfiguresAtMostOnce | src/route/target.rs:316-325 | With both at least 1, no number of calls after the first changes the configuration. |
| TokenBuckets.GlobalLimit | src/route/target.rs:316-325 | From a new bucket on: a burst of at least 1 bounds the grants by the burst plus rate times time; a burst of 0 next to a rate grants every request. |
| RateKeys.SharedExactly | src/route/target.rs:226-242 | Two targets have one registry key if and only if they have one URL and one effective override. |
| RateKeys.PolicyInjective | src/route/target.rs:237-242 | Different policies are spelled differently. |
| RateKeys.OverrideOf | src/route/target.rs:228-235 | A target has the override (rate, burst) if and only if its options write that rate in decimal, and write that burst or no burst that is a number and the two are equal. |
| RateKeys.ParseExactly | src/route/target.rs:229-233 | A number is read if and only if the text is an optional plus sign, zeros and its decimal digits, and it is below 2^64. |
| ConnectionRegistries.ConnectionRegistry.ActiveConnectionsFor | src/route/target_stats.rs:33-50 | Shares the live counter of the URL, else prunes above the threshold and registers a new one. |
| ConnectionRegistries.ConnectionRegistry.PruneDead | src/route/target_stats.rs:13-17 | Drops exactly the entries whose counter no handle refers to. |
| ConnectionRegistries.ConnectionRegistry.TryAcquireConnectionSlot | src/route/target.rs:284-305 | The loop over the weak exchange, which may fail for no reason, grants exactly below the limit, or always without one, and then counts the connection. |
| ConnectionRegistries.ConnectionRegistry.ReleaseConnectionSlot | src/route/target.rs:307-309 | Gives the slot back, with the wrap-around an unsigned counter would have. |
| ConnectionRegistries.ConnectionRegistry.Rebuild | src/route/registry.rs:138-157 | Looks every target up while the old table is still held, then drops the old table's handles. |
| ConnectionRegistries.RebuildKeepsConnections | src/route/registry.rs:138-157 | A rebuild disturbs no open connection, and every new target starts from the connections open to its URL. |
| ConnectionRegistries.AcquireCounts | src/route/target.rs:284-305 | The counter compared with the limit is the number of open connections to the URL, which grows by one. |
| Connections.RunInv | src/route/target_stats.rs:13-50 | The invariant of every run of look-ups, prunes, exchange loops, clones, drops and releases. |
| Connections.OneCounterPerUrl | src/route/target_stats.rs:33-50 | Two handles share a counter if and only if they belong to one URL. |
| Connections.HandleSeesAllGuards | src/proxy/tcp.rs:813-821 | The counter a handle sees is the number of guards of its URL. |
| Connections.LookupSeesConnections | src/route/table.rs:488 | After any run, a look-up yields a counter that shows exactly the connections open to the URL. |
| Connections.ReleaseNeverUnderflows | src/proxy/tcp.rs:813-821 | Dropping a guard finds a positive counter. |
| Connections.LimitHolds | src/route/target.rs:284-305 | With limits between 1 and max in force, no counter ever exceeds max, whatever the interleaving. |
| Connections.ConnectionsWithinLimit | src/route/target.rs:284-305 | Hence no URL ever has more than max open connections. |
| Refusals.RefusalsAreJustified | src/route/target.rs:284-305 | Whatever the other threads do, a slot is refused only if the URL had as many connections as the limit when the thread last looked. |
| Refusals.TryExactly | src/route/target.rs:290-304 | One turn of the exchange loop, said of the connections open to the URL: refused at the limit, granted if the count still holds, else repeated with the count of now. |
| Refusals.UndisturbedAttempt | src/route/target.rs:284-305 | A thread nobody disturbs gets a slot whenever there is room, however often the weak exchange fails for no reason. |
| Refusals.RegistryBounded | src/route/target_stats.rs:33-50 | Registering a URL keeps the registry within 513 entries or one more than there are live ones. |
| ServerNames.ReadServerName | src/proxy/tcp.rs:726-811 | On every byte string the loop over slices ends, reads nothing out of range and gives the parse. |
| ServerNames.ReadExtensions | src/proxy/tcp.rs:770-808 | The loop over the extensions. |
| ServerNames.ReadNames | src/proxy/tcp.rs:782-804 | The loop over the names of the server_name extension. |
| ServerNames.HelloRoundTrip | src/proxy/tcp.rs:726-811 | Every well-formed ClientHello yields exactly its host name in lower case, or the empty name when it carries none. |
| ServerNames.NameComesFromMessage | src/proxy/tcp.rs:726-811 | Any name returned for any bytes is literally part of the message, in lower case and past the fixed fields. |
| ServerNameGrammar.AcceptsExactly | src/proxy/tcp.rs:726-811 | A message gives a name if and only if it has the form of a ClientHello up to that name, which is the first host_name of the first server_name extension, or empty without one. |
| ServerNames.BufferSizeBounded | src/proxy/tcp.rs:701-724 | The buffer is at most the record length plus 5, hence at most 16389, and larger than the header already read. |
| ServerNames.RecordRoundTrip | src/proxy/tcp.rs:687-724 | A ClientHello in one record is read completely if and only if it has at most 16384 bytes, and then gives its name. |
| ServerNameGrammar.BufferSizeExactly | src/proxy/tcp.rs:701-724 | A buffer is given if and only if the header announces a ClientHello within one handshake record of at most 16384 bytes, and it ends with that message. |
| ServerNameGrammar.HighByteFirst | src/proxy/tcp.rs:710-722 | Lengths have their high byte first. |
| RouteTables.TableReplays | src/route/table.rs:456-631 | After any commands the table invariant holds, and each host and path holds what replaying the commands for it alone leaves. |
| RouteTables.ApplyOk | src/route/table.rs:456-631 | Every command keeps: lower-case hosts, no empty bucket, one route per path, no route without targets, slots of the current targets. |
| RouteTables.ApplyEffect | src/route/table.rs:456-631 | A command changes exactly the targets in its scope and no others. |
| RouteTables.DelLeavesNoMatch | src/route/table.rs:514-582 | After a del no target in its scope matches it. |
| RouteTables.WeightIsShared | src/route/table.rs:584-631 | A weight command with a match leaves the matching fixed weights summing to the given weight. |
| CommandEffects.ScopeExactly | src/route/definition.rs:52-60 | Where a command applies, by its source: one host in lower case and one path, the root by default; a del without a path to all paths of the host, with tags alone to everything. |
| CommandEffects.AddExactly | src/route/table.rs:80-91 | An add appends the target it describes unless one with the same service, URL, fixed weight and source is there. |
| CommandEffects.DelExactly | src/route/table.rs:94-108 | A del takes away exactly the targets with the given service, all the given tags and the given URL. |
| CommandEffects.WeightExactly | src/route/table.rs:584-631 | A weight command gives each of the n targets with the given service and tags an n-th of the weight and changes nothing else. |
| CommandEffects.StoredWeights | src/route/table.rs:112-179 | Every stored route has its fixed weights or equal shares, and the slots of its targets. |
| RouteTables.LastWeightWins | src/route/table.rs:584-631 | Of two weight commands that differ only in the weight the second alone counts. |
| RouteTables.CommandTwice | src/route/table.rs:456-631 | Giving a command twice in a row leaves every host and path as giving it once does. |
| RouteTables.Slash | src/route/definition.rs:52-60 | The first slash separates host and path. |
| Tables.Table.FromDefinitions | src/route/table.rs:662-669 | Applying the definitions in order and sorting gives the specified table. |
| Tables.Table.Apply | src/route/table.rs:456-462 | The class follows the specification for each command. |
| Tables.Table.ApplyAdd | src/route/table.rs:464-512 | Finds or creates the route of host and path and stores the changed copy. |
| Tables.Table.ApplyDel | src/route/table.rs:514-582 | Filters the routes in scope, drops empty routes and then empty hosts. |
| Tables.Table.DelEverywhere | src/route/table.rs:545-556 | The loop over all hosts, in any order. |
| Tables.DelFrom | src/route/table.rs:560-577 | Filtering in place and retaining equals the filter of the specification. |
| Tables.Table.ApplyWeight | src/route/table.rs:584-631 | Reweights the routes of the command's host and path. |
| Tables.Reshared | src/route/table.rs:594-627 | Counts the matches and divides the weight among them; without a match nothing changes. |
| Tables.Table.Finalize | src/route/table.rs:636-659 | Every host's routes are sorted and every upstream URL is noted once with a target of the table, whatever the order of hosts. |
| Tables.Table.LookupRoute | src/route/table.rs:336-366 | The host in lower case first, then the catch-all host. |
| Tables.Table.MatchingRoutes | src/route/table.rs:370-395 | All matches of the host, then those of the catch-all host. |
| Tables.FindMatchingRoute | src/route/table.rs:426-453 | The first route that matches and has targets. |
| Tables.CollectMatchingRoutes | src/route/table.rs:398-424 | Appends every route that matches and has targets, in order. |
| RouteLookup.SortedOrdered | src/route/table.rs:636-644 | The sort puts longer paths first, then greater ones. |
| RouteLookup.SortUnique | src/route/table.rs:636-644 | With distinct paths every correct sort gives the same list. |
| RouteLookup.LookupIsHeadOfMatching | src/route/table.rs:336-453 | The single look-up is the head of the full list, for every matcher and any table. |
| RouteLookup.BucketLongest | src/route/table.rs:426-453 | In a sorted bucket the first prefix match is the unique longest one. |
| RouteLookup.LongestPrefixWins | src/route/table.rs:336-366 | For a table built from any commands, prefix look-up returns the unique longest covering route of the host, else of the catch-all host, else nothing. |
| RouteLookup.BestAnswerWins | src/route/table.rs:336-366 | For every matcher and any commands, look-up returns the answer that precedes all others of the host, the longest path and the greatest of those, else that of the catch-all host. |
| RouteMatching.PrefixFinds | src/route/table.rs:426-453 | prefix: the route that comes first, by length and then dictionary order, among the root and those whose path begins the request's. |
| RouteMatching.IgnoreCasePrefixFinds | src/route/table.rs:920-924 | iprefix: the same among the root and those whose characters agree with the request's one by one up to ASCII case. |
| RouteMatching.GlobFinds | src/route/table.rs:426-453 | glob: the same among the root and those whose pattern accepts the path. |
| RouteMatching.ExactFinds | src/route/table.rs:426-453 | exact: the one route with the request's path, of its host or else of the catch-all host; the root answers only the root. |
| RouteMatching.MatchingFinds | src/route/table.rs:370-424 | The full list holds of both hosts exactly the routes that fit, best first. |
| RouteMatching.HostCaseIgnored | src/route/table.rs:336-395 | Hosts that differ in ASCII case are answered alike. |
| RouteMatching.LessIsDictionary | src/route/table.rs:638-644 | The order of paths of one length is dictionary order. |
| RouteLookup.AddOrderIrrelevant | src/route/table.rs:662-669 | Lists of adds that name the same hosts and paths send every request to the same host and path, with every matcher. |
| DnsCaches.DnsCache.LookupStatus | src/route/dns_cache.rs:117-153 | The answer and the counter it bumps; an expired entry is removed. |
| DnsCaches.DnsCache.DoStore | src/route/dns_cache.rs:156-171 | Stores with the default TTL and evicts; nothing with a TTL of 0. |
| DnsCaches.DnsCache.DoStoreNegative | src/route/dns_cache.rs:174-189 | The same with the negative TTL. |
| DnsCaches.DnsCache.DoSetTtl | src/route/dns_cache.rs:97-105 | Changed TTLs clear the cache. |
| DnsCaches.DnsCache.EvictIfOverCapacity | src/route/dns_cache.rs:192-225 | Expired entries go first; then just enough of those that expire soonest. |
| DnsCaches.EvictionIsFair | src/route/dns_cache.rs:192-225 | At most 10000 entries stay, none altered, each expiring no earlier than any dropped one; an unexpired one goes only to leave exactly 10000. |
| DnsCaches.RunRefines | src/route/dns_cache.rs:97-225 | Over any run the cache is part of the map that never forgets, and all of its unexpired part while that fits. |
| DnsCaches.AnswersAreLatest | src/route/dns_cache.rs:117-153 | Answers come only from the latest store for the host, strictly before its expiry; while the capacity suffices, misses mean expired or never stored. |
| DnsCaches.CountersAddUp | src/route/dns_cache.rs:117-153 | Hits, misses and negatives add up to the look-ups, and the size stays within the maximum. |
| DnsCaches.AnsweredForItsTime | src/route/dns_cache.rs:117-189 | What was stored last is found for exactly 1000 times the configured seconds, in milliseconds, while the capacity suffices. |
| DnsCaches.LookupBumps | src/route/dns_cache.rs:117-153 | A look-up bumps exactly the counter of its answer. |
| DnsCaches.ForgetsExactly | src/route/dns_cache.rs:97-105 | A removal forgets its host, a clearing or a changed time to live everything, and the same times or a store with time 0 nothing. |
| LogBuffers.LogBuffer.Push | src/admin/logs.rs:77-94 | After any pushes the ring holds exactly the last min(pushes, 1000) entries. |
| LogBuffers.LogBuffer.Recent | src/admin/logs.rs:97-144 | The first max(limit, 1) passing entries of the newest-first order. |
| LogBuffers.NewestMembers | src/admin/logs.rs:122-136 | Exactly the passing entries are found, each as often as it occurs. |
| LogBuffers.RecentIsUnbounded | src/admin/logs.rs:97-144 | The answer equals that of an unbounded log if and only if the last 1000 entries hold enough passing ones. |
| LogBuffers.LimitRespected | src/admin/logs.rs:137-140 | At most `limit` entries come back if and only if the limit is positive or no entry passes. |
| LogBuffers.LevelPassesExactly | src/admin/logs.rs:122-127 | An entry passes if at least as severe as the minimum; an unknown minimum filters nothing and an unknown level always passes. |
| LogBuffers.SearchPassesExactly | src/admin/logs.rs:128-136 | An entry passes a search if its level, target or message mentions the text up to ASCII case. |
| Health.PassingServiceIds | src/consul/watcher.rs:236-313 | The grouping loops list exactly the instances that pass, under their services, in whatever order the maps are walked. |
| Health.PassingExactly | src/consul/watcher.rs:236-313 | An instance passes if and only if its node has no critical serfHealth and no maintenance check, it has no critical maintenance check, and its own checks are at least one and all passing, or warning where accepted. |
| Health.GroupChecks | src/consul/watcher.rs:236-270 | Nodes down, nodes and services in maintenance, and each instance's service checks in order. |
| Health.Unprefixed | src/consul/watcher.rs:253-257 | The check id is some number of maintenance prefixes and then the service id, which begins with none. |
| Health.CountsDecide | src/consul/watcher.rs:286-304 | Comparing counts decides whether all checks are good. |
| Health.ListingIgnoresOrder | src/consul/watcher.rs:236-313 | Listings of the same checks in other orders, visited in other orders, agree on every service as sets. |
| Catalog.ProcessChecks | src/consul/watcher.rs:129-234 | Fails if and only if a look-up for a live, allowed service fails; otherwise admits exactly the entries with the joined name of a passing instance. |
| Catalog.ProcessedExactly | src/consul/watcher.rs:129-234 | The same said of the raw checks, tags and lists, in Consul's words. |
| Catalog.FilterServices | src/consul/watcher.rs:316-337 | A whitelist that is not empty decides alone; otherwise the blacklist does. |
| Catalog.JoinCollides | src/consul/watcher.rs:186-189 | Services of two nodes, each with an id, can share a joined name if and only if one node's name extends the other's by a dot. |
| Catalog.AdmittedIsPassing | src/consul/watcher.rs:186-189 | Without such names an entry is admitted if and only if its own instance passes. |
| Catalog.FailingAdmittedExactly | src/consul/watcher.rs:129-234 | For every tag prefix and allowed service: processing checks of two nodes can admit an instance that has a bad relevant check if and only if one node's name extends the other's by a dot. |
| Watcher.Watch | src/consul/watcher.rs:36-126 | The loop makes the turns of the step function and sends the routes of every delivery and an error for every failure, in order. |
| Watcher.WatchKeeps | src/consul/watcher.rs:36-126 | A pending index differs from the last one; changed snapshots fetched are those handed over plus the pending one; the last index is that of the routes handed over last; k failures in a row wait min(2^k, 60) seconds; an unchanged index pauses the loop exactly when it is 0. |
| Watcher.PendingIsRetried | src/consul/watcher.rs:100-124 | The next successful rebuild hands the pending snapshot over; a failing one keeps it. |
| Watcher.RunsUntilClosed | src/consul/watcher.rs:101-113 | The loop stops exactly when it has handed routes over to a closed channel. |
| Watcher.SentExactly | src/consul/watcher.rs:66-120 | A failing turn sends an error, a delivering one its routes, any other nothing. |

## Left out

- Floating-point rounding, NaN and infinite weights: weights are exact reals, so the initial best
  position `f64::MAX` becomes "no choice yet".
- The random picker and the look-up of TCP routes by port, whose result depends on hash-map order.
- Weak memory: the thread model of the breaker is sequentially consistent, although the program uses
  relaxed and acquire/release orderings. It also leaves out the history, which has its own lock.
- Spurious failures of the weak exchange are modelled for connection slots (`Connections`), not in the
  breaker, whose exchanges are modelled as strong.
- CircuitBreakers.CircuitBreaker.TransitionToOpen: with atomic operations the first exchange succeeds, so its
  retry loop is left to `BreakerThreads`.
- ConnectionRegistries.ConnectionRegistry.TryAcquireConnectionSlot: runs without interference; the
  loop interleaved with other threads is the state machine of `Connections`.
- TokenBuckets.TokenBucket.TryAcquire: one call at a time; the interleaving of a configure with an
  acquire, which share only the mutex-guarded part, is not modelled.
- Pickers.LeastConnections: once a quotient of connections and weight, in millionths, reaches 2^64 the
  program's score saturates, and the proportion is not promised.
- Pickers.FullTurnIsExact: needs the counter not to wrap within the turn, or the slot count to divide
  2^64; `TurnExactIff` shows that nothing weaker will do.
- DnsCaches.DnsCache.EvictSoonest: removes the soonest entry again and again where the program calls a
  partial selection of the standard library; which of several equal ones goes is open in both.
- DnsCaches.DnsCache.LookupStatus: one call at a time; the hit counters are unbounded, and the
  Prometheus counters beside them are not modelled.
- RouteLookup.LongestPrefixWins: the glob matcher is an external library, so what a compiled pattern
  matches is a parameter. Paths are byte strings, so the guard against splitting a UTF-8 character
  has nothing to do.
- The standard library's stable sort is a function; `SortUnique` shows that the choice of sort does
  not matter.
- ServerNames.ReadServerName: yields the bytes of the name; decoding them as UTF-8 with replacement
  leaves ASCII names alone and is not modelled for others.
- Catalog.ProcessChecks: stops at the admitted entries; parsing their tags into commands and sorting
  the commands are not modelled.
- Watcher.Watch: the answers of Consul, of the rebuild and of the channel are inputs, as is the parsed
  waiting time; error texts and metrics are not modelled.
- Route options other than rate limit and burst, target statistics, health trackers, URL parsing, and
  the checks of upstream addresses.
- `Clone` of a circuit breaker or a token bucket: live targets share one.
- Broadcasting log entries to subscribers.
- Pingora hooks, sockets, TLS certificates, the Consul and admin HTTP interfaces, configuration,
  metrics and the dashboard.
