# Verification of the database allow-list controller

The controller watches Kubernetes nodes and keeps the allow lists of Linode managed databases in
step with them: for every watched nodepool the external IPs of its nodes belong on the lists of the
pool's databases. This project models three parts of it and proves what they promise together.

**The allow-list reconciler.** Node add, update and delete callbacks become operations "add this IP
to / remove it from this database". Each operation reads the database's list through a cache, edits
it as a set of normalised entries, writes the sorted result back and drops the cache entry only
after a successful write, all inside a retry loop. `AllowList.dfy` and `NodeWatch.dfy` give every
step as a function on a `World`: the remote lists, the cache, and a log of what crossed the API
boundary. The environment is an `Oracle` that decides every grant of the limiter and every reply, so statements for all oracles
cover every pattern of failures, including a PUT that takes effect and still reports an error.
`LinodeClient.dfy` and `NodeWatcher.dfy` are the objects of the Go code; each method is proved to
take the world exactly where the function says. The theorems are in `UpdateProofs.dfy` (one
operation), `Agreement.dfy` (error containment), `Reconcile.dfy` (whole runs against the
specification), `WholeRuns.dfy` (exactness over runs), `Attempts.dfy` (every state of a run),
`LatestFailures.dfy` (when failed PUTs have no effect), `Liveness.dfy` (success from the environment alone), `Determinism.dfy` (successful calls, list by
list), `Invariants.dfy` (what every run keeps), `FanOutProofs.dfy` (completeness) and
`Counterexamples.dfy` (concrete inputs for what is not promised).

**The circuit breaker and the restart loop.** `Reliability.dfy` is the tracker with its sliding
window of failures and its jittered backoff; `Election.dfy` is the loop of `Start` that it drives.
Times are integer nanoseconds and jitter is a real factor in [0.8, 1.2); both are inputs.

**The retry loop.** `Retry.dfy` is the bounded loop with capped exponential backoff that the
reconciler's operations go through.

`Base.dfy`, `Config.dfy`, `Ordering.dfy` and `Addresses.dfy` hold the errors, the configuration,
the order of strings and the text form of addresses. Verify everything with
`dafny verify dfyconfig.toml`.

## Reading the results

- The specification of a database is its *foreign* entries (those found at the start) and the
  normalised selected IPs of the live nodes whose watched pool maps to it (`Reconcile.Wanted`).
  `Failed(log, db)` is the set of normalised IPs that ever had an operation on `db` return an error.
- The source promises agreement without saying what it needs from the cluster. `Reconcile.Keeps` is
  the exact need, shown exact for a callback by `Reconcile.AgreementIff` and for runs by
  `WholeRuns.RunAgreementIff`: a removal must not hit an entry that is
  foreign or belongs to another live node on the same database (unless the node's own move adds it
  back), and an update that stays inside one watched pool, which the code ignores, must not change
  what the node alone contributes. A same-pool change of address therefore
  goes unnoticed (`Counterexamples.AddressChangeGoesUnnoticed`), and a deletion can take an entry
  that someone else needs (`Counterexamples.DeletionTakesNeededEntry`). `WholeRuns.SeparateEntriesKeep` gives
  conditions on the cluster that suffice.
- A nil return of one operation means the set edit only if cache and remote list agree where it
  matters (`Determinism.RefinesIff`; `NodeEventRefinesIff` and `PoolMove` for node events and moves). After an ambiguous PUT they may not: a later removal can find
  nothing to remove in the cache and return nil while the entry stays in the remote list
  (`Counterexamples.NilRemovalLeavesEntry`).
- `Validate` accepts a zero maximum backoff beside a positive initial one, and exactly then the
  waits shrink (`Retry.ScheduleGrowsIff`). The loop also sleeps after its last attempt
  (`Retry.SleepsAfterEveryFailure`).
- A breaker that is asked later than its cooldown after it tripped is half-open, so the restart loop
  goes on although the process exit has already been set off (`Election.ExitsIff`).
- The repository's own README.md (line 12) says existing IPs are never removed from allow lists. The
  code removes the IPs of deleted and moved nodes, and the model follows the code.

## Assumptions

This client is the only writer of the lists, and callbacks arrive one at a time. `Reconcile.Follows`
says that they agree with the informer's store, which starts empty. Strings are compared by code
point, which for valid UTF-8 is the byte order of Go's sort.Strings. The `Done` entry of the log
stands for the deferred metric observation of an operation, with the IP and the result added so that
theorems can speak of them.

## Model

| member | source | states |
|---|---|---|
| Reconcile.WholeRunAgreement | pkg/kubernetes/client.go:370-480 | after initialisation and any orderly callbacks, with any failures and ambiguous PUTs, every remote list is the foreign entries and the entries of the live watched nodes, except on IPs that had a failed operation on that database; with none it is exactly that |
| Reconcile.AgreementIff | pkg/kubernetes/client.go:390-461 | from an agreeing world a callback without failures leaves the lists at the specification if and only if the condition `Keeps` holds before it |
| WholeRuns.RunAgreementIff | pkg/kubernetes/client.go:370-480 | in a run without failures the remote lists meet the specification after every callback iff every callback meets `Keeps` |
| WholeRuns.SeparateEntriesKeep | pkg/kubernetes/client.go:390-479 | if entries of distinct live nodes are disjoint on each database, none is foreign, and nodes that stay in their pool keep their IPs, every callback meets `Keeps` |
| LatestFailures.OnlyLatestFailuresDiffer | pkg/linode/client.go:392-475 | if failed PUTs have no effect, after any orderly run each remote list is the specification except on IPs whose latest operation on it failed |
| LatestFailures.FailureLeavesLists | pkg/linode/client.go:378-476 | then a failed operation leaves every remote list as it was |
| LatestFailures.SuccessEditsList | pkg/linode/client.go:378-476 | with an exact cache a successful operation is the set edit of its remote list and of no other |
| Attempts.EveryStateBounded | pkg/linode/client.go:237-281 | in every state of every run (each fetch of the initialisation, before and after each attempt of each retry loop, after each operation) a cached and its remote list differ only on IPs with a failed operation on that database and on the IP being attempted there |
| Attempts.RunEnd | pkg/kubernetes/client.go:370-480 | the last state of a run is one of those states, unless the run changed nothing |
| Reconcile.KeepsIff | pkg/kubernetes/client.go:390-479 | the same exactness for the sets: the edits the callbacks ask for produce the specification of the next store iff `Keeps` |
| Reconcile.CacheDivergenceBounded | pkg/linode/client.go:237-281 | after any callbacks whatever, a cached list and its remote list differ, as normalised sets, only on IPs with a failed operation on that database |
| Agreement.MidCallDivergence | pkg/linode/client.go:392-475 | the same bound between the failed attempts inside one call, widened by the IP of that call |
| Agreement.EffectAgrees | pkg/linode/client.go:378-476 | one operation carries agreement to the edited wanted set, and an error excepts only its own IP on its own database |
| Agreement.FanOutAgrees | pkg/linode/client.go:309-365 | a fan-out carries agreement to the wanted sets edited at every database of the pool, duplicates included |
| Agreement.CallbackAgrees | pkg/kubernetes/client.go:371-479 | every branch of the callbacks: old IPs out of the old pool's databases first, new IPs into the new pool's second |
| Agreement.RunAgrees | pkg/kubernetes/client.go:370-480 | agreement over whole runs, from any agreeing world |
| Reconcile.SpecificationByFields | pkg/kubernetes/client.go:631-722 | the specification in terms of the configuration and the fields of the nodes alone: an entry is wanted on a database iff it is foreign or it is the suffixed text of an external address, of an enabled family, of a live node whose label names a pool whose first entry lists the database |
| Liveness.FailedAttempt | pkg/linode/client.go:392-475 | an attempt on an existing database fails only if its last call was refused by the limiter or the API, and its error names that call, so that the entry is already as asked is never an error |
| Liveness.OperationSucceeds | pkg/linode/client.go:378-476 | an operation on an existing database returns nil if the limiter grants it, no pause interrupts it and fewer of the later calls are refused than there are attempts |
| Liveness.UpdateAllowListGoes | pkg/linode/client.go:284-306 | in an environment where nothing is cancelled and the API refuses fewer calls than there are attempts, UpdateAllowList on a configured pool with existing databases returns nil |
| Liveness.NodeEventGoes | cmd/nodewatcher/main.go:139-259 | in such an environment a node event of a watched node returns nil iff the node has a selected address, and no operation fails |
| Liveness.BearableRunMeetsSpecification | pkg/kubernetes/client.go:370-480 | in such an environment, with configured databases that exist, every orderly run of the controller ends with exactly the specified entries on every remote list |
| UpdateProofs.AttemptEffect | pkg/linode/client.go:392-475 | one pass of the retried closure after any failed ones: an error leaves the old list or the target and a cache that is still the basis; success leaves the target and no cache entry, or an untouched database |
| UpdateProofs.RetryEffect | pkg/linode/client.go:392-475 | the same of the whole retry loop, whatever attempts failed and whichever failed PUTs took effect |
| UpdateProofs.UpdateDbEffect | pkg/linode/client.go:378-476 | one operation: nil means the target is written and the cache entry dropped, or nothing was to change; an error leaves the old list or the target; other databases are untouched; its record ends the log |
| Determinism.RetriesWriteOneList | pkg/linode/client.go:458-475 | every PUT of one operation, over all retries, writes the identical list to its own database, strictly sorted and fully normalised |
| Determinism.RefinesIff | pkg/linode/client.go:405-456 | a nil return is the set insertion or deletion on the remote list if and only if the list worked from and the remote list agree off the IP (list written) or the IP was already right (none written) |
| Determinism.UpdateRefinesEdit | pkg/linode/client.go:378-476 | from any world a nil return is the edit of the list worked from, written only if it changes the set, with every other database identical |
| Determinism.CoherentEdit | pkg/linode/client.go:378-476 | at a coherent database that is the set edit of the remote list itself, down to the list, and the database stays coherent |
| Determinism.NodeEventRefines | cmd/nodewatcher/main.go:182-222 | from any world a node event that returns nil edits exactly the node's databases by exactly its normalised selected IPs |
| Determinism.NodeEventRefinesIff | cmd/nodewatcher/main.go:182-222 | at each database such an event is the set edit of the remote list iff basis and remote list agree off the node's entries (a list was written) or the remote list is already as asked (none was); a coherent database always meets this |
| Determinism.IterationOrderIrrelevant | pkg/kubernetes/client.go:700-706 | from any world, however stale its cache, two handlings of one node event that return nil leave identical remote lists for all orders of the IPs and all internal retries |
| Determinism.PoolMove | pkg/kubernetes/client.go:435-459 | after a move with both handlers returning nil each database has lost the old and gained the new IPs iff `MoveFits`; a coherent one always has: the new IPs in every database of the new pool, shared or not, none of the old ones where only the old pool has it |
| Determinism.OppositeOrderLosesSharedEntries | pkg/kubernetes/client.go:443-453 | handling the new node before the old one, both with nil, would leave the new IPs in the remote list of a shared database iff none of them was an old one and they were written or already there |
| Counterexamples.AddressChangeGoesUnnoticed | pkg/kubernetes/client.go:434-460 | a node that trades its address inside its pool: the callback does nothing in any environment, so a world that met the specification misses it |
| Counterexamples.DeletionBreaks | pkg/kubernetes/client.go:462-479 | deleting a node whose entry is also foreign, or also that of a live twin, fails the condition while the specification still wants the entry |
| Counterexamples.DeletionTakesNeededEntry | pkg/linode/client.go:430-451 | the successful deletion takes that entry off the remote list |
| Counterexamples.NilRemovalLeavesEntry | pkg/linode/client.go:430-456 | an addition whose PUT takes effect but reports an error, then a removal of the same IP: the removal returns nil and the entry stays in the remote list |
| Ordering.SortedUnique | pkg/linode/client.go:458-464 | strictly sorted lists with equal sets are equal |
| Ordering.LessByFirstDifference | pkg/linode/client.go:458-464 | the order is decided by the smaller character at the first difference, and a proper prefix comes first |
| Ordering.EnumerationOrderIsIrrelevant | pkg/linode/client.go:458-464 | sorting any enumeration of the map's keys gives the one strictly sorted list of the set |
| Addresses.NormalizeInjective | pkg/linode/client.go:481-495 | texts without '/' with the same normal form are equal |
| Addresses.NormalizeIdempotent | pkg/linode/client.go:481-495 | normalising twice is normalising once, and exactly the entries with '/' are left as they are |
| Addresses.NormalizeGivesHostEntry | pkg/linode/client.go:481-495 | a text without '/' becomes a host entry, "/32" without and "/128" with a ':', and what stands before its first '/' is the given text |
| Invariants.TrafficConserved | pkg/linode/client.go:167-281 | in every run with one initialisation of the empty cache, successful GETs of a database equal successful PUTs to it plus one if it is cached |
| Invariants.EveryGetGranted | pkg/linode/client.go:195-206 | in every run each GET comes directly after a wait that the limiter granted |
| Invariants.OperationTraffic | pkg/linode/client.go:378-476 | an operation asks the limiter first and, refused, ends at once with that error; it issues at most MaxAttempts PUTs; its record comes last |
| Invariants.CacheExactWhenFailuresInert | pkg/linode/client.go:237-281 | if failed PUTs have no effect, every cached list equals the remote list after every run |
| Invariants.CacheStabilises | pkg/linode/client.go:466-473 | from arbitrarily stale caches, after the first successful PUT to a database its cached list, whenever present, equals the remote one, if failed PUTs have no effect |
| Invariants.EveryWriteCanonical | pkg/linode/client.go:458-467 | every list ever written is strictly sorted, free of duplicates and fully normalised |
| Invariants.UnremovedEntriesSurvive | pkg/linode/client.go:430-451 | no run, whatever fails, removes an entry that is not the normal form of an IP a callback removed; updates inside a pool and callbacks of unwatched nodes remove nothing |
| Invariants.SubnetsPersist | pkg/linode/client.go:481-495 | with raw node addresses, entries that are not an address with "/32" or "/128" persist verbatim |
| Invariants.OpenAccessPersists | pkg/linode/client.go:20-21 | in particular 0.0.0.0/0 is never removed |
| FanOutProofs.UpdateAllowListComplete | pkg/linode/client.go:284-365 | one operation on each database of the first matching pool, in order and whatever fails, an addition iff the operation is named "add"; nil iff all returned nil, else the last error; no other database touched; under Validate never the "no databases" error |
| FanOutProofs.UnknownPoolTouchesNothing | pkg/linode/client.go:294-296 | for an unconfigured pool nothing is attempted and the "no databases" error returned |
| FanOutProofs.WatchedNodeHasDatabases | pkg/kubernetes/client.go:631-645 | under Validate a node that passes the watched filter has databases |
| FanOutProofs.EveryAddressHandled | cmd/nodewatcher/main.go:139-259 | UpdateAllowList runs for every address, in order, with the pool of the node's label and whatever the earlier calls returned; nil iff all returned nil, else the last error; without an address only the error that says so |
| FanOutProofs.EveryDatabaseFetched | pkg/linode/client.go:167-192 | initialisation fetches every database whatever the earlier fetches returned; nil iff all returned nil, else the last error |
| FanOutProofs.InitializeOutcome | pkg/linode/client.go:167-192 | initialising an empty cache leaves the remote lists alone, caches exact lists of the given databases only, and returns nil iff all of them are then cached |
| Config.FirstPoolWins | pkg/linode/client.go:285-292 | a pool's databases are those of the first entry with its name, and none if there is no such entry |
| Config.AllIdsByIndex | pkg/linode/client.go:167-180 | the databases to initialise are those at any index of any pool, and no others |
| LinodeClient.LinodeApi.UpdateDatabaseAllowList | pkg/linode/client.go:33-36 | a PUT to a known database takes effect when it succeeds and may when it does not |
| LinodeClient.Client.FetchAndCacheAllowList | pkg/linode/client.go:195-233 | limiter, GET, and the cache entry set only on success |
| LinodeClient.Client.GetCachedAllowList | pkg/linode/client.go:237-270 | the cached list, or a fetched one that is then cached |
| LinodeClient.Client.InvalidateCache | pkg/linode/client.go:273-281 | exactly the entry of the database is dropped |
| LinodeClient.Client.InitializeCache | pkg/linode/client.go:167-192 | every configured database fetched once, in the order the map iteration chose; the last error |
| LinodeClient.Client.EditAllowList | pkg/linode/client.go:392-475 | the closure on a map used as a set takes the world where `Attempt` does |
| LinodeClient.Client.UpdateDatabaseAllowList | pkg/linode/client.go:378-476 | limiter, retry loop and record take the world where `UpdateDb` does |
| LinodeClient.Client.HandleOperation | pkg/linode/client.go:309-365 | the loop over the databases is the fan-out, with its last error |
| LinodeClient.Client.UpdateAllowList | pkg/linode/client.go:284-306 | pool lookup and dispatch are those of the function that the completeness theorem is about |
| LinodeClient.SortedKeys | pkg/linode/client.go:458-464 | keys appended in any iteration order and sorted are the sorted list of the set |
| Base.LastErrorIsLast | pkg/linode/client.go:309-365 | the reported error is the one after which every call returned nil |
| NodeWatcher.Watcher.IsNodeInWatchedNodepool | pkg/kubernetes/client.go:631-645 | true iff the node carries the configured label with a non-empty value and some configured pool has that name |
| NodeWatcher.Watcher.GetExternalIPs | pkg/kubernetes/client.go:678-722 | a text is returned iff some address of type ExternalIP has it and its family, IPv6 iff it contains ':', is enabled; each once, IPv4 before IPv6; an error iff there is none |
| NodeWatcher.Watcher.HandleNodeEvent | cmd/nodewatcher/main.go:139-259 | every selected IP is handled in some iteration order, whatever fails; the last error |
| NodeWatcher.Watcher.AddFunc | pkg/kubernetes/client.go:371-389 | the callback takes the world where `Callback` does, for the order that was chosen |
| NodeWatcher.Watcher.UpdateFunc | pkg/kubernetes/client.go:390-461 | the four cases of an update, delete before add on a move |
| NodeWatcher.Watcher.DeleteFunc | pkg/kubernetes/client.go:462-479 | the callback takes the world where `Callback` does |
| Retry.RetryWithBackoff | pkg/utils/retry.go:21-99 | the loop returns the error, state, call results and waits of the recursive form the lemmas are about |
| Retry.Accounting | pkg/utils/retry.go:25-99 | between one and MaxAttempts calls, each on the state the earlier ones left, all but the last failed, nil iff the last returned nil |
| Retry.EndOfLoop | pkg/utils/retry.go:29-89 | the returned error follows from the last call: nil, non-retryable, cancelled, or exhausted; the loop goes on only past retryable errors and whole sleeps |
| Retry.StopsOnlyOnSuccess | pkg/utils/retry.go:25-99 | without cancellation and with everything retryable the number of calls is the smaller of the first success and MaxAttempts |
| Retry.SleepsAfterEveryFailure | pkg/utils/retry.go:76-89 | an uninterrupted loop sleeps after every failed call, the last one included |
| Retry.Sleeps | pkg/utils/retry.go:45-89 | the number of sleeps under any cancellations and any policy: one after each call but the last, and one more iff that failed retryably with the context alive |
| Retry.NoAttemptsSucceedSilently | pkg/utils/retry.go:25-98 | no call is made iff MaxAttempts is not positive, and then nil is returned |
| Retry.NextBackoffGrows | pkg/utils/retry.go:53-66 | a later wait is never shorter, whatever the two jitters |
| Retry.NextBackoffExactly | pkg/utils/retry.go:53-66 | a later wait is I·2^k stretched by half of the random number, cut to whole nanoseconds, and at most Max |
| Retry.BackoffSchedule | pkg/utils/retry.go:53-66 | waits are nondecreasing, each in [min(I·2^k, Max), Max] and exactly Max once I·2^k reaches it, and total at most I + (MaxAttempts − 1)·Max |
| Retry.ScheduleGrowsIff | pkg/config/config.go:235-249 | for validated settings and two or more waits, the waits are nondecreasing iff the initial backoff is at most the maximum |
| Reliability.ReliabilityTracker.RecordFailure | pkg/kubernetes/reliability.go:78-120 | the loop that rebuilds the failure slice prunes to the window; a closed tracker with ten failures opens and sets off the exit |
| Reliability.ReliabilityTracker.RecordSuccess | pkg/kubernetes/reliability.go:123-135 | resets the retry count in every state, and closes a half-open breaker with its failures cleared |
| Reliability.ReliabilityTracker.IsCircuitOpen | pkg/kubernetes/reliability.go:138-152 | half-opens an open breaker past its cooldown and says whether it is open |
| Reliability.ReliabilityTracker.GetBackoffDuration | pkg/kubernetes/reliability.go:155-171 | the jittered capped power of two of the retry count |
| Reliability.BackoffBounds | pkg/kubernetes/reliability.go:160-170 | the backoff is within 20% of the capped power of two, which lies between 1 s and 30 s |
| Reliability.BackoffSecondsDouble | pkg/kubernetes/reliability.go:160-165 | the seconds are 1, 2, 4, 8, 16 and then 30 |
| Reliability.BackoffExactly | pkg/kubernetes/reliability.go:155-171 | the backoff is those seconds times the jitter, cut to whole nanoseconds |
| Reliability.RetryCountIsFailuresSinceSuccess | pkg/kubernetes/reliability.go:78-135 | in every run the retry count is the number of failures recorded while the breaker was closed since the last success |
| Reliability.SlidingWindow | pkg/kubernetes/reliability.go:89-100 | for any nondecreasing clock and interleaving, the pruned list is the full history since the last reset cut to the window |
| Reliability.TripsIffTight | pkg/kubernetes/reliability.go:82-119 | a failure trips a closed breaker iff it and the ninth before it are less than 300 s apart |
| Reliability.TripsAtFirstTight | pkg/kubernetes/reliability.go:82-119 | over every run the breaker is closed iff no failure since the last reset was such a one, and otherwise tripped, and set off the exit, at the first |
| Reliability.ClosedStoresFew | pkg/kubernetes/reliability.go:100-109 | a closed breaker stores at most nine failures |
| Reliability.Transitions | pkg/kubernetes/reliability.go:85-152 | in every run: Closed opens only at a failure that stores the tenth, and only then is the exit set off; Open becomes HalfOpen iff asked more than 60 s after the trip; HalfOpen closes, with its failures cleared, iff a success is recorded |
| Reliability.ClosedSuccessesIrrelevant | pkg/kubernetes/reliability.go:123-135 | deleting the successes recorded while closed changes neither state, failures nor trip times |
| Election.Elector.Start | pkg/kubernetes/client.go:122-195 | the loop's clock, failures, waits and end are those of the function that the timing theorems are about; without handlers nothing happens |
| Election.EndsAtFirstStop | pkg/kubernetes/client.go:136-193 | for any tracker and any rounds the loop ends with the context's error, or with the breaker error, exactly at the first round in which the context is done or a check finds the breaker open, and records nothing of later rounds; otherwise it runs on with one failure and one backoff for each round |
| Election.Timeline | pkg/kubernetes/client.go:136-193 | for any tracker and any rounds each failure is recorded when its election's error arrives, counted from the launch or from the end of the backoff before it |
| Election.BackoffsFollowStreaks | pkg/kubernetes/client.go:136-193 | with checks within the cooldown, from a closed tracker without retries, each backoff is within a fifth of 2, 4, 8, 16, 30, 30, ... seconds for that many failures in a row since an election led |
| Election.LedRoundWaitsTwoSeconds | pkg/kubernetes/client.go:136-193 | unless the loop ends with the breaker open, a round that led and whose tracker is not open is followed by a backoff between 1.6 s and 2.4 s, whatever retries came before |
| Election.ExitsAtFirstTight | pkg/kubernetes/client.go:136-193 | from a fresh tracker, breaker asked within its cooldown, one failure is recorded for each round at the time its error arrives, the loop exits at exactly the first of them that completes ten in less than five minutes and goes on while there is none, with any successes in between |
| Election.GivesUp | pkg/kubernetes/client.go:136-193 | from any closed tracker with retry count zero and whatever successes in between, if relaunched elections report failure in under 28/3 s and the breaker is asked within its cooldown, the loop exits by the tenth failure |
| Election.ExactlyTenFailures | pkg/kubernetes/client.go:136-193 | from a fresh tracker with no success that takes exactly ten failures, the tenth at least 144 s after the first |
| Election.SlowElectionsNeverExit | pkg/kubernetes/client.go:136-193 | with the breaker asked within its cooldown, if relaunched elections each last a ninth of the window or more, the loop never exits |

## Left out

- RetryWithBackoff: the Go closure changes its client; here the function passed is pure on a threaded state, and the client carries the loop around its own closure, proved against the same recursive form.
- BackoffSchedule: floats are exact reals; the out-of-range conversion to Duration is an arbitrary value of the environment, so the schedule is stated for settings whose largest backoff fits.
- BackoffBounds: the product of seconds and jitter is exact, without float rounding.
- RefinesIff: speaks of databases that exist remotely; an operation on an unknown one always returns an error, as `UpdateDbEffect` covers.
- Start: the election itself, its goroutine and its channels are the input rounds; a success is recorded at most once per election, which changes nothing against several.
- The exit function started 500 ms after a trip is a recorded time, not a process exit.
- Data races and lock modes, for example the state write under a read lock in IsCircuitOpen: everything is sequential.
- The API adapter, OAuth and the token bucket: the API and the limiter are the oracle.
- Informer machinery, watch verification and Kubernetes events; lost delete tombstones, informers left over after a re-election and a standby replica's stale cache fall outside the assumptions.
- Fetch times in cache entries, metrics, logging, the open-access warning and HTTP serving: no effect on lists or control flow.
- Configuration loading, token, log level and rate limit: only the other facts of Validate are used.
- The classification of leader-election errors: it feeds a metric only.
- A nil node and a failed type assertion in a callback: nodes are values.
