# Cloud SQL Auth proxy: a verified model of its concurrent core

This project models the parts of the Cloud SQL Auth proxy whose correctness depends on how many
goroutines interleave, and proves properties of every run of those models with Dafny 4.11.
`dafny verify dfyconfig.toml` checks everything.

| file | what it models |
|---|---|
| `Basics.dfy` | an option type and the few notions that several files share |
| `Durations.dfy`, `Scheduler.dfy` | 64-bit saturating and wrapping duration arithmetic; when the next background refresh is planned |
| `CertCache.dfy` | one cache entry and the decisions taken on it (`isValid`, `isExpired`, `needsRefresh`, what a refresh or an invalidation stores), the rate limiter, the settings |
| `RefreshProtocol.dfy` | the configuration cache as a transition system, one atomic step per critical section, for any number of instances, callers, timers, refreshes and invalidations |
| `RefreshInvariant.dfy`, `RefreshTheorems.dfy`, `RefreshProgress.dfy`, `Throttle.dfy`, `Renewal.dfy`, `Invalidation.dfy`, `Expiry.dfy`, `RefreshWitnesses.dfy` | its joint invariant, what follows for every run, progress, when refreshes start and how often, what they store and how timers renew it, what a failed handshake leaves behind, when an expired configuration is returned, and runs that show what is not promised |
| `CacheClient.dfy` | the mutable client; its methods are proved to take the steps of the transition system |
| `ConnSets.dfy`, `Admission.dfy` | the set of tracked connections; connection handlers, the connection counter with its limit, shutdown |
| `Copier.dfy` | copying one direction of a connection; the race between both directions to close it |
| `Listeners.dfy` | reconciling open listeners with updates of the instance list |
| `FanIn.dfy` | listing the instances of several projects through one channel |
| `FuseRoot.dfy` | sending on and closing the connection channel of the FUSE root |
| `Names.dfy` | splitting instance connection names |

Conventions. The k-th refresh to start names its `done` channel and the `*tls.Config` it builds.
Every write to the cache is also appended to a log, so that a statement about one state can speak
of the run that led to it; `EntryAt(log, n, instance)` is the entry after the first n writes. A
state is `Reachable` when some finite sequence of enabled steps leads to it from the start; there
is no bound on the number of goroutines or steps. Time is a number of nanoseconds that never
decreases. The settings of the client and the connection limit are fixed for a run. One setting says
whether the user supplied a dialer that connects even for an empty address; the default dialer
refuses that, so that no handshake follows. What the environment decides (outcomes of the
certificate source and of handshakes, arrivals, cancellations, the passing of time, whether a
listener can be opened, what a read or a write returns, how much room a grown slice gets) is part of
the events or a parameter, and all of it is unconstrained unless a `requires` says so. The rate
limiter is taken by its specification: with burst 1 the first call is allowed and later ones once a
period has passed, and a non-positive period imposes no limit.

Where the code and its description differ, the model follows the code:

- An entry with neither configuration nor error can be returned by `cachedCfg`, although its
  callers test only the error (`ReturnsNeitherIffInvalidated`, `NeitherCanBeReturned`).
- A returned configuration can have expired at the instant of return, since validity ignores expiry
  (`ExpiredConfigCanBeReturned`). Without a wait this happens exactly when the entry at hand is valid
  and expired and, before the lock is taken, no new refresh is due (`ReturnsExpiredIff`); its renewal
  is then in flight or throttled (`NearExpiryIsBeingRenewed`). After a wait it can only be a
  certificate that was committed during the wait (`WaiterGetsNewConfig`).
- With a user-supplied dialer that ignores the address, a caller that was handed neither can fail a
  handshake; `invalidateCfg` is then called with a nil configuration and can clear an error cached
  meanwhile (`ErrorCanBeWipedOut`). With the default dialer it cannot
  (`DefaultDialerDropsOnlyConfigs`): the address is empty and the dial fails before the handshake
  (proxy/proxy/client.go:411-414).
- A list that names an instance twice makes the loop lose a listener (`LosesIffDisplaced` gives the
  exact condition).
- The planned wake-up is wrong for certificates about 292 years away from the present, in the two
  ways that `WakeUpMeetsDeadline` and `WakeUpNeverTooEarly` delimit exactly.
- With 2^64 handlers alive at once the connection limit fails (`AdmissionBoundIsSharp`); as long as
  fewer are alive it holds, however many there have been (`AdmissionBound`).
- A static listener that fails to open leaves the earlier ones open for good (`Watch`).

## Model

| member | source | states |
|---|---|---|
| `RefreshInvariant.StepInv` | proxy/proxy/client.go:262-389 | every step of every goroutine keeps the joint invariant of cache, channels, limiters, lock, log and callers |
| `RefreshInvariant.RunInv` | proxy/proxy/client.go:262-480 | so does every run, and along it refreshes, their settled outcomes and the log only grow |
| `RefreshInvariant.StoredChannelIsOwn` | proxy/proxy/client.go:363-367 | every channel ever stored for an instance was made by a refresh of that instance |
| `RefreshTheorems.SingleFlight` | proxy/proxy/client.go:314-372 | two refreshes of one instance between start and close are the same one, and its channel is the cached one |
| `RefreshTheorems.OpenChannelStaysCached` | proxy/proxy/client.go:268-284 | no step, commit and invalidation included, replaces an open channel in the cache |
| `RefreshTheorems.NeverWaitsOnNil` | proxy/proxy/client.go:345-381 | a waiting caller waits on a non-nil channel made for its own instance, and only because the entry it saw was unusable |
| `RefreshTheorems.ThrottledMeansStarted` | proxy/proxy/client.go:356-370 | a limiter without a token implies that the entry has a channel |
| `RefreshTheorems.NilMapNeverWritten` | proxy/proxy/client.go:269-283 | the commit and the invalidation never assign to a nil map |
| `RefreshTheorems.NoNeedlessRefresh` | proxy/proxy/client.go:314-366 | a refresh starts only when none was started before, or the last one has committed and closed and the entry is unusable or expires within the buffer |
| `RefreshTheorems.WaiterFreshness` | proxy/proxy/client.go:375-388 | a caller that waited on a channel returns the cache as of the commit of that channel's refresh or a later write |
| `RefreshTheorems.ReceiverIsHanded` | proxy/proxy/client.go:377-388 | in every run, whoever receives from the channel it waits on goes on to read the cache again and to return that |
| `RefreshTheorems.EntryShape` | proxy/proxy/client.go:271-283 | after a commit exactly one of configuration and error is set until an invalidation, after which neither is |
| `RefreshTheorems.ReturnsNeitherIffInvalidated` | proxy/proxy/client.go:375-388 | `cachedCfg` returns neither exactly when an invalidation hit the entry after its last commit, and never both |
| `RefreshTheorems.NoFailedHandshakeNoSurprise` | proxy/proxy/client.go:394-402 | in every run in which no handshake for the instance fails, a nil error comes with a configuration, and only then |
| `RefreshTheorems.CachedProvenance` | proxy/proxy/client.go:266-283 | a cached (address, configuration, version) is the unmixed output of one successful, committed refresh of that instance, with a nil error |
| `RefreshTheorems.ReturnedProvenance` | proxy/proxy/client.go:388-388 | so is every returned triple |
| `RefreshTheorems.ReturnedErrorProvenance` | proxy/proxy/client.go:183-196 | a returned error is the one the instance's last committed refresh failed with |
| `RefreshTheorems.InvalidationIsExact` | proxy/proxy/client.go:462-480 | an invalidation drops the configuration it was asked to drop, never a newer one, and keeps the channel; a dialing caller of that instance had been handed this configuration before, without an error |
| `RefreshTheorems.DefaultDialerDropsOnlyConfigs` | proxy/proxy/client.go:410-434 | with a dialer that refuses the empty address every invalidation drops a configuration, so none clears an error |
| `RefreshTheorems.NoResurrection` | proxy/proxy/client.go:269-283 | an invalidated configuration is never cached again, for any instance, whatever pending refreshes do |
| `RefreshTheorems.FailureStoredIffNothingUsable` | proxy/proxy/client.go:270-283 | a refresh error is stored exactly when no unexpired configuration was cached; otherwise the payload stays |
| `RefreshTheorems.FailedRefreshesAreHarmless` | proxy/proxy/client.go:270-284 | any number of failures over live configurations leaves address, configuration, version and error unchanged |
| `RefreshTheorems.LastRefreshedNeverGoesBack` | proxy/proxy/client.go:275-277 | every start and commit stamps the entry with its time and no later entry of the instance has an older stamp |
| `RefreshTheorems.CancelledStays` | proxy/proxy/client.go:377-381 | a caller whose context ends during the wait is gone in every later state |
| `RefreshTheorems.CanGiveUpIff` | proxy/proxy/client.go:377-381 | in every run a caller keeps its instance and can give up exactly while it waits, unless its context never ends |
| `Renewal.SuccessIsStored` | proxy/proxy/client.go:266-283 | the commit of a successful refresh stores exactly the address, configuration and version it obtained, without an error, whatever was cached before |
| `Renewal.AnswerIsCommitted` | proxy/proxy/client.go:183-283 | in every run the answer to a fetch decides what its refresh commits: the obtained triple, or the error over a missing or expired configuration, or the payload from before |
| `Renewal.UsableCommitWantsTimer` | proxy/proxy/client.go:286-304 | after a commit the refresh goes on to plan a timer exactly when the stored entry is usable |
| `Renewal.TimerIsPlanned` | proxy/proxy/client.go:293-304 | it does not go on without planning one, for the committed configuration of its instance, which can wake up from a buffer (or else five seconds) before expiry on and not earlier, when no 64-bit subtraction saturates or wraps |
| `Renewal.TimerFindsWork` | proxy/proxy/client.go:219-225 | a timer that wakes while the entry still holds its configuration and no refresh runs finds a refresh needed |
| `Renewal.TimerRenews` | proxy/proxy/client.go:219-225 | its goroutine then runs through `cachedCfg` and starts a refresh of its instance, exactly when none started less than a throttle period ago |
| `Invalidation.FailedConfigIsGone` | proxy/proxy/client.go:429-480 | once `invalidateCfg` has returned, the configuration whose handshake failed is cached for no instance, in every reachable state |
| `Invalidation.DropClearsIffSame` | proxy/proxy/client.go:471-479 | the locked part leaves neither configuration, address nor error if the handed configuration is still cached, and otherwise changes nothing; the channel and the time stamp stay |
| `RefreshProgress.RefreshStepDecreases` | proxy/proxy/client.go:264-304 | every step of a refresh goroutine lowers the number of steps left |
| `RefreshProgress.SomeRefreshCanStep` | proxy/proxy/client.go:184-185 | a refresh in flight can step itself, or it queues for the API lock and the holder can, with any answer to its fetch |
| `RefreshProgress.AwaitedRefreshAdvances` | proxy/proxy/client.go:264-304 | in every run, whatever else happens in between, each step of a refresh brings it closer to closing its channel and nothing sets it back |
| `RefreshProgress.DrainIsBounded` | proxy/proxy/client.go:264-304 | in any schedule the refreshes alone take no more than the steps left |
| `RefreshProgress.StuckMeansQuiescent` | proxy/proxy/client.go:264-304 | where refreshes can go no further, every channel is closed |
| `RefreshProgress.WaiterIsReleased` | proxy/proxy/client.go:377-381 | after every run of refresh steps alone that can go no further, whatever its order and the fetched answers, a waiting caller can receive; and such a run is bounded |
| `RefreshProgress.CanDrain` | proxy/proxy/client.go:264-304 | from every reachable state there is such a run |
| `Throttle.StartsAreSpaced` | proxy/proxy/client.go:356-366 | starts of one instance are at least the throttle period apart |
| `Throttle.ThrottleBound` | proxy/proxy/client.go:334-366 | in any window of length W at most 1 + W / throttle refreshes of one instance start |
| `Throttle.ThrottledIffRecentStart` | proxy/proxy/client.go:356-362 | the limiter refuses exactly while some refresh of the instance started less than a throttle period ago |
| `Throttle.StartsIff` | proxy/proxy/client.go:361-370 | the locked section starts a refresh exactly when none of the instance is in flight or started less than a throttle period ago and the instance has no usable configuration or one that expires within the buffer |
| `Scheduler.WakeUpMeetsDeadline` | proxy/proxy/client.go:293-303 | the wake-up is no later than max(now, NotAfter - min(buffer, 5s)) exactly when no 64-bit subtraction wraps |
| `Scheduler.WakeUpNeverTooEarly` | proxy/proxy/client.go:293-303 | from the wake-up on a refresh is always needed, exactly when the lifetime fits a 64-bit duration or the buffer is maximal |
| `Scheduler.WakeUpIsExact` | proxy/proxy/client.go:293-303 | without saturation or wrap-around the wake-up is a buffer before expiry if that lies ahead, else five seconds before expiry if that does, else at once |
| `Scheduler.HourlyCertificate` | proxy/proxy/client.go:43-46 | with the default settings a certificate of one hour is renewed after 55 minutes |
| `Expiry.ReturnsExpiredIff` | proxy/proxy/client.go:309-375 | without a wait, a step returns a configuration expired at that instant exactly when the entry at hand is valid and expired and, if the lock is not taken, a refresh is pending or the buffer is negative enough to put it off |
| `Expiry.NearExpiryIsBeingRenewed` | proxy/proxy/client.go:314-375 | whoever gets, without a wait, a configuration that expires within the buffer gets it while the cached channel's refresh is in flight, or because the limiter has no token |
| `Expiry.WaiterGetsNewConfig` | proxy/proxy/client.go:375-388 | a configuration returned after a wait is the output of a refresh that committed between the start of the wait and the re-read |
| `RefreshWitnesses.ExpiredConfigCanBeReturned` | proxy/proxy/client.go:309-388 | each of the three returns can hand out a configuration that is expired at that instant: under a pending refresh, under a throttled one, and after a wait |
| `RefreshWitnesses.NeitherCanBeReturned` | proxy/proxy/client.go:367-388 | a run that returns neither configuration nor error |
| `RefreshWitnesses.ErrorCanBeWipedOut` | proxy/proxy/client.go:430-479 | with a dialer that ignores the address, a run in which an invalidation of no configuration clears a cached error |
| `CacheClient.Client.Read` | proxy/proxy/client.go:332-344 | the first section of `cachedCfg` takes the protocol's read step |
| `CacheClient.Client.Check` | proxy/proxy/client.go:345-345 | the unlocked check takes the protocol's step: to the lock if a refresh is needed, else on with the entry read |
| `CacheClient.Client.Reread` | proxy/proxy/client.go:383-388 | the read after the wait takes the protocol's step and is what is returned |
| `CacheClient.Client.NeedsRefreshNow` | proxy/proxy/client.go:314-329 | the code of `needsRefresh` decides what the protocol's predicate says, closed channel included |
| `CacheClient.Client.EnsureLimiter` | proxy/proxy/client.go:348-360 | both maps exist afterwards with all their entries and the instance has its old limiter or a fresh one |
| `CacheClient.Client.Recheck` | proxy/proxy/client.go:347-372 | the locked section takes the protocol's step, starting a refresh exactly when that step does |
| `CacheClient.Client.Commit` | proxy/proxy/client.go:268-284 | the locked section of a refresh takes the protocol's commit step and logs exactly the entry it stored |
| `CacheClient.Client.Plan` | proxy/proxy/client.go:293-303 | the duration arithmetic of the code puts a timer for the instance and configuration at the protocol's wake-up time |
| `CacheClient.Client.CloseDone` | proxy/proxy/client.go:265-265 | the deferred close finds the channel open and takes the closing step |
| `CacheClient.Client.Compare` | proxy/proxy/client.go:463-468 | the unlocked comparison of `invalidateCfg` takes the protocol's step |
| `CacheClient.Client.Drop` | proxy/proxy/client.go:469-479 | the locked part clears the entry exactly when it still holds the configuration |
| `ConnSets.AddedRefinesBags` | proxy/proxy/common.go:131-138 | adding puts one occurrence into the multiset of the id, behind the others, and touches no other id |
| `ConnSets.RemovedRefinesBags` | proxy/proxy/common.go:174-201 | removing takes out exactly one occurrence, touches no other id and leaves no empty slice |
| `ConnSets.RemoveUndoesAdd` | proxy/proxy/common.go:172-174 | `Remove` after `Add` restores every multiset and the set of ids, and the whole set if the connection was new to the id |
| `ConnSets.FlattenJoins` | proxy/proxy/common.go:157-170 | the connections of two lists of ids are those of the one followed by those of the other, and of a single id its slice |
| `ConnSets.ShiftDown` | proxy/proxy/common.go:197-197 | moving the tail down in place leaves the array with the element cut out and keeps what lies behind |
| `ConnSets.ConnSet.Add` | proxy/proxy/common.go:131-138 | appends the connection to the slice of the id, within the capacity of its array or in a new array, and the slices keep separate arrays |
| `ConnSets.ConnSet.Remove` | proxy/proxy/common.go:174-201 | cuts the first occurrence out of the array of the id in place, or deletes the id with its last connection, and fails exactly when it is absent; no other slice changes |
| `ConnSets.ConnSet.IDs` | proxy/proxy/common.go:141-154 | lists each id with an active connection once, and no other |
| `ConnSets.ConnSet.Conns` | proxy/proxy/common.go:157-170 | concatenates the slices of the given ids |
| `ConnSets.ConnSet.Close` | proxy/proxy/common.go:204-225 | closes every tracked connection once per occurrence, keeps the set, and fails exactly when some close fails |
| `Admission.CounterExact` | proxy/proxy/client.go:152-156 | the counter is the number of handlers between increment and deferred decrement modulo 2^64, and equal to it exactly while that is below 2^64 |
| `Admission.Decrements` | proxy/proxy/client.go:156-156 | adding `^uint64(0)` subtracts one, modulo 2^64 |
| `Admission.IncrementCountsLive` | proxy/proxy/client.go:153-158 | the value that decides on admission is the number of handlers alive right after the increment exactly while these are fewer than 2^64 |
| `Admission.AdmissionBound` | proxy/proxy/client.go:158-162 | in every run along which fewer than 2^64 handlers are alive at a time, the handlers past the check and not finished never outnumber the limit |
| `Admission.AdmissionBoundIsSharp` | proxy/proxy/client.go:153-158 | for every limit there is such a run after which one more live handler, the 2^64th, takes the admitted ones past the limit |
| `Admission.AdmittedIffWithinLimit` | proxy/proxy/client.go:153-164 | whatever happens before it decides, a handler is refused if there is a limit and the handlers alive right after its increment, modulo 2^64, outnumber it, and admitted otherwise |
| `Admission.NoLimitNoRefusal` | proxy/proxy/client.go:158-162 | without a limit nobody is ever refused |
| `Admission.TrackedIffDialed` | proxy/proxy/client.go:164-171 | in every run exactly the handlers whose dial succeeded come to be tracked |
| `Admission.AvailableConnIsExact` | proxy/proxy/client.go:544-546 | `AvailableConn` tells whether there is no limit or fewer live handlers than it, exactly while these are fewer than 2^64 or the wrapped count is no less than the limit |
| `Admission.ShutdownIsHonest` | proxy/proxy/client.go:565-569 | `Shutdown` returns nil exactly when at the instant of its last look no handler is live, or a positive multiple of 2^64 are, and otherwise reports the number of live handlers modulo 2^64 |
| `Admission.PollingEndsIff` | proxy/proxy/client.go:554-563 | polling ends exactly at the timeout or at a poll that finds no live handler, modulo 2^64 |
| `Admission.ShutdownWaits` | proxy/proxy/client.go:554-565 | in every run without a timeout the last look comes after a poll that saw a zero counter |
| `Admission.ConnSetIsExact` | proxy/proxy/client.go:171-176 | the set holds exactly the connections of handlers between `Add` and `Remove`, and its ids are theirs |
| `Admission.RemoveNeverFails` | proxy/proxy/client.go:174-176 | a handler's `Remove` finds its connection |
| `Copier.MyCopy` | proxy/proxy/common.go:35-52 | delivers all chunks before the last in full and in order and of the last what its write let through; ends with the error of the last read, reported as one, if that failed, and else with that of the last write; goes on exactly while neither fails |
| `Copier.RaceIsSafe` | proxy/proxy/common.go:64-96 | in every interleaving no end is closed twice, and when both sides have finished exactly one of them has closed both ends |
| `Copier.ReturnDoesNotMeanClosed` | proxy/proxy/common.go:82-96 | at return both ends are closed exactly if the returning side won or the other has finished; the opposite case occurs |
| `Listeners.WatchInstances` | cmd/cloud_sql_proxy/proxy.go:47-59 | succeeds exactly when every static listener opens, the last listener of a name being kept |
| `Listeners.Reconcile` | cmd/cloud_sql_proxy/proxy.go:74-106 | the body of the loop does what the specification of an update says |
| `Listeners.WatchInstancesLoop` | cmd/cloud_sql_proxy/proxy.go:62-119 | each update is reconciled or, if unparsable, changes nothing; at exit all static and then all dynamic listeners are closed |
| `Listeners.DynamicNames` | cmd/cloud_sql_proxy/proxy.go:75-106 | the dynamic names are exactly the listed non-static names that were open or that a request opened |
| `Listeners.OpenNamesAreUnion` | cmd/cloud_sql_proxy/proxy.go:37-40 | after any updates the open names are the static ones and those of the most recent list that could be parsed, except listed names that were not open and could not be opened |
| `Listeners.ReconcileAccounts` | cmd/cloud_sql_proxy/proxy.go:74-106 | every opened listener is in exactly one place: static, dynamic, closed once, or lost |
| `Listeners.LosesIffDisplaced` | cmd/cloud_sql_proxy/proxy.go:84-95 | an update loses a listener exactly when a later request opens a name that an earlier one kept or opened; otherwise retained names keep their listener |
| `Listeners.RetainedIffNotDisplaced` | cmd/cloud_sql_proxy/proxy.go:84-95 | an instance open before and after an update keeps its listener exactly when no later request of the list opens it again |
| `Listeners.StaticsAccounted` | cmd/cloud_sql_proxy/proxy.go:47-54 | the loop starts with every static listener in exactly one place |
| `Listeners.StaticNames` | cmd/cloud_sql_proxy/proxy.go:47-54 | the static names are exactly the configured ones, each with the last listener opened for it |
| `Listeners.StaticLostIff` | cmd/cloud_sql_proxy/proxy.go:47-54 | a static listener is lost to a later one exactly when a configured name repeats |
| `Listeners.StaticsStayOpen` | cmd/cloud_sql_proxy/proxy.go:78-82 | no static listener is closed, made dynamic or lost before `updates` closes |
| `Listeners.EverythingClosedAtExit` | cmd/cloud_sql_proxy/proxy.go:98-119 | at exit every listener ever opened was closed exactly once or lost, and the loop loses none when no update repeats a name |
| `Listeners.Watch` | cmd/cloud_sql_proxy/proxy.go:41-119 | from the first static listener to exit no listener is closed twice, and all are closed exactly when no configured name repeats and no update opens a name twice; so they are when no update repeats a name |
| `FanIn.NeverPanics` | cmd/cloud_sql_proxy/cloud_sql_proxy.go:399-423 | no schedule sends on the closed channel or makes the wait group negative |
| `FanIn.CollectsWhatWasEmitted` | cmd/cloud_sql_proxy/cloud_sql_proxy.go:385-431 | the result is the multiset union of what the producers emitted, and the call fails exactly when that is empty although there are projects |
| `FanIn.CollectsEverything` | cmd/cloud_sql_proxy/cloud_sql_proxy.go:404-431 | if no listing failed, that is every second-generation instance of every project |
| `FanIn.NeverStuck` | cmd/cloud_sql_proxy/cloud_sql_proxy.go:399-427 | until the call returns some goroutine can go on without failing, and no schedule is longer than a bound |
| `FuseRoot.SendCloseSafety` | proxy/fuse/fuse.go:169-198 | in every interleaving nobody sends on or closes a closed channel, it is closed at most once and last, and the reader gets all connections in order |
| `FuseRoot.EveryConnIsSent` | proxy/fuse/fuse.go:169-180 | while the field is set every sender that is through has sent its connection; none is ever sent twice |
| `FuseRoot.SentIffFieldWasSet` | proxy/fuse/fuse.go:169-180 | in every run a sender that is through has sent its connection exactly when the field was still set at the time it got the reader lock |
| `FuseRoot.CloseTakesEffect` | proxy/fuse/fuse.go:188-198 | when a call of `Close` has given the lock back, the channel is closed, as the last action on it, and the field cleared |
| `FuseRoot.NeverStuck` | proxy/fuse/fuse.go:169-198 | until all senders and closers are done some step other than an arrival is possible |
| `FuseRoot.NeverEndless` | proxy/fuse/fuse.go:169-198 | without new arrivals no schedule is longer than a bound |
| `FuseRoot.NoSendAfterClear` | proxy/fuse/fuse.go:188-198 | once the field is cleared no run sends or closes any more |
| `Names.JoinUndoesSplit` | proxy/util/cloudsqlutil.go:29-29 | joining the parts of any string gives it back |
| `Names.SplitUndoesJoin` | proxy/util/cloudsqlutil.go:29-29 | splitting joined parts gives them back wherever no part holds the separator |
| `Names.SplitNameIff` | proxy/util/cloudsqlutil.go:28-45 | a string splits into a complete name exactly when it begins with that name up to a component boundary, domain included |
| `Names.TwoPartName` | proxy/util/cloudsqlutil.go:40-41 | project and name without a region come back with an empty region |
| `Names.BareName` | proxy/util/cloudsqlutil.go:30-39 | without a second component everything is the name |
| `Names.ParseIff` | proxy/proxy/client.go:529-540 | an argument parses into given parts exactly when it is their connection name with at most one set of options |
| `Names.ParsedIsComplete` | proxy/proxy/client.go:529-540 | every accepted argument is a complete name with optional options |
| `Names.TooManyIff` | proxy/proxy/client.go:530-533 | an argument is refused for its options exactly when it holds two equal signs |

## Left out

- CacheClient.Client.Recheck: reads the clock once per locked section, where the code reads it for the expiry check, the limiter and the time stamp; likewise for the commit.
- CacheClient.Client.NeedsRefreshNow: certificates are assumed to carry a parsed leaf, as the code assumes.
- Throttle.ThrottleBound: the limiter's floating-point token arithmetic is taken as exact.
- Scheduler.WakeUpMeetsDeadline: the overflow of the timer's own monotonic clock is not modelled.
- Admission.ShutdownIsHonest: the polling interval and the timeout are events that may happen at any time, not durations.
- Listeners.Reconcile: a listener that its accept loop closes after an error still counts as tracked.
- FuseRoot.SendCloseSafety: pending writers do not hold up new readers; more interleavings are allowed than the lock permits.
- TLS handshakes, peer verification, X.509 parsing and the SQL Admin API: foreign libraries, represented by their outcomes.
- Certificate retrieval with its retry backoff: API plumbing around floating-point delays.
- A nil `ConnSet`, on which every operation does nothing: it would only add easy members.
- The FUSE symbolic links and the cleanup of their listeners: file-system calls.
- Parsing of instance options, flags, logging, health checks, resource limits, database hooks and dialers: input and output or single-branch code.
- Fairness of locks and of the scheduler: progress is stated through enabled steps and decreasing measures.
