# SessionProxy: the enforcement path, modelled and proved

SessionProxy lets the owner of a web session share it through a capability link. Each link is held
to request, traffic, time and violation limits and to a blacklist. The limits are enforced by many
guest requests that run at the same time against Redis counters and a Postgres database, while a
sync worker copies the counters to Postgres and the owner may terminate the link. There is no lock
and no transaction: every guarantee is about interleavings.

## How it is modelled

`Protocol.dfy` is the core. A link has shared stores (its Redis keys, its flag in the dirty set,
its `usage_counters` row, its status, its `link_terminations` rows), any number of processes (guest
requests, owner clicks) and the sync worker. Every Redis or Postgres command, each command of a
pipeline included, is one step of a program counter. What the environment decides (a command
fails, a rule matches, a deadline has passed, how many bytes were sent) is a `Choice` carried by
the step, and a Redis restart is an event like any other. A run is any sequence of events; an event
that is not possible changes nothing. Theorems about runs quantify over all sequences and name the
hypotheses they need: no restart (`NoWipe`), no failing command (`NoFailure`), every SADD
in time (`Orderly`).

| file | contents |
|---|---|
| `Protocol.dfy`, `Sums.dfy` | the step machine of one link; sums over its processes |
| `WriteBehind.dfy` | what every run without a restart keeps, whatever fails |
| `Conservation.dfy` | counters against answers sent, bytes sent and requests blocked |
| `Overshoot.dfy`, `Tightness.dfy` | how far a limit can be overrun, and that the bound is reached |
| `Termination.dfy`, `Causes.dfy`, `Progress.dfy`, `Finality.dfy` | no termination missed, none spurious, each reached, each final |
| `Ledger.dfy` | `link_terminations` under racing terminators |
| `Restart.dfy`, `WipeSafety.dfy` | Redis restarts: what they cost, and exactly which of them can damage the durable row |
| `DirtyFlag.dfy`, `Lag.dfy` | when a clean link may be trusted, and how far behind a flush leaves it |
| `AllLinks.dfy`, `WholeSystem.dfy` | all links on one Redis with one walking worker, and the lifted theorems |
| `CounterStore.dfy`, `SyncWorker.dfy`, `LinkService.dfy`, `Enforcement.dfy`, `Handler.dfy` | the Go types as classes and methods that change state, proved against the protocol |
| `Drive.dfy`, `Admission.dfy` | one process running alone: the bridge from methods to runs, and the admission rule |
| `PolicyResolver.dfy`, `Blacklist.dfy` | policy folding and rule matching |
| `AccessLogger.dfy`, `Hub.dfy` | the two bounded in-memory machines |
| `Credentials.dfy`, `Paths.dfy`, `BodyCounter.dfy` | credential round trip, URL paths, byte counting |

The Go methods are sequential programs inside concurrent requests. They are modelled twice, on
purpose: as steps (for interleavings) and as imperative methods (for the code's own order and
branches). Each method's postcondition equates its effect with the protocol's process run without
interruption (`Driven`), and `Admission.AloneRunIsDriven` shows that this is one of the runs the
theorems quantify over.

`Current` is the live Redis value of a counter or, while the key is missing, the durable value that
the next warm load will put there.

## Where code and comments disagree

The model follows the code.

- app/internal/limiter/counter_store.go:97 says requests are counted before proxying. They are
  counted after it (app/internal/service/enforcement_service.go:140), which is why a limit can be
  overrun: `Tightness.BoundsAreReached`.
- app/internal/proxy/director.go:74-76 says the join leaves exactly one slash however many either
  side has. It removes at most one: `Paths.JoinSeam` gives the exact condition.
- app/internal/proxy/logwriter.go:60-62 says whatever is left is flushed on shutdown. Only the
  current batch is: `AccessLogger.ShutdownLeavesTheChannel`.
- app/internal/service/policy_resolver.go:21-23 calls 3 a default. It takes part in the minimum, so
  a policy cannot raise it: `PolicyResolver.FoldDecidesAsEachPolicy`.
- app/internal/limiter/sync_worker.go:11-17 describes the durable copy as at most one interval
  behind. A SADD that lands between the worker's read and its clear, for an increment made after
  that read, leaves it behind with a clean flag until the next increment: `DirtyFlag.LostDirtyFlag`,
  `DirtyFlag.CleanLinkInStepExactlyIfInTime` for the exact condition, and
  `Lag.LagIsWhatWasAddedMeanwhile` for how far.

## Model

| member | source | states |
|---|---|---|
| WriteBehind.RunStaysSound | app/internal/limiter/counter_store.go:42-125 | in every run without a restart, with any failures and any interleaving of the worker's three GETs: a dirty link has all three keys, durable never exceeds live and never decreases, nothing the worker writes is a phantom zero, a missing key means the durable row is untouched, live counters and ledger only grow |
| Conservation.BalanceRun | app/internal/service/enforcement_service.go:108-145 | counted plus owed minus observed never grows in any restart-free run, and is constant if nothing fails |
| Conservation.CountersConserved | app/internal/service/enforcement_service.go:122-145 | between two moments at rest each counter grows by exactly the answers sent, the bytes sent, the requests blocked |
| Conservation.CountersNeverOvercount | app/internal/service/enforcement_service.go:139-145 | with failures allowed the counters can only fall behind what was observed, never run ahead |
| Conservation.NewLinkCountsWhatHappened | app/internal/service/enforcement_service.go:122-176 | from a link just created, without key or row, the live counters at rest equal the number of answers, their bytes, and the blocked requests |
| Overshoot.QuotaOvershoot | app/internal/service/enforcement_service.go:80-142 | every interleaving with at most n admitted uncounted requests keeps counter plus those requests within max - 1 + n (or the start value) |
| Overshoot.QuotaFromRest | app/internal/service/enforcement_service.go:80-142 | the same bound for the live counter plus answers still to be counted, from a moment at rest |
| Overshoot.SerialQuota | app/internal/service/enforcement_service.go:80-88 | one admitted request at a time never exceeds the limit |
| Overshoot.TrafficOvershoot | app/internal/service/enforcement_service.go:89-145 | bytes counted plus all bytes admitted requests may still add stay within max - 1 + n * cap (or the start value) |
| Overshoot.TrafficFromRest | app/internal/service/enforcement_service.go:89-145 | live bytes plus bytes sent but not yet counted stay within max - 1 + n * cap, from a moment at rest |
| Tightness.BoundsAreReached | app/internal/service/enforcement_service.go:80-145 | for all limits, every answer length and every n, one failure-free run within the hypotheses of QuotaFromRest and TrafficFromRest reaches max - 1 + n requests and maxBytes - 1 + n * cap bytes: both bounds are exact |
| Termination.CoveredRun | app/internal/service/enforcement_service.go:122-164 | over a limit and still active means some process is bound for the status write |
| Termination.NoMissedTermination | app/internal/service/enforcement_service.go:139-164 | started below a limit, without restart or failure, at rest a counter at its limit means the link is terminated |
| Causes.LedgerTellsTheTruth | app/internal/service/enforcement_service.go:72-96 | whatever fails, every ledger row and every terminator that names a limit does so after that counter has reached it |
| Causes.RowsAreCalledFor | app/internal/service/link_service.go:115-169 | in every run, failures and restarts included, a "manual" row means that the owner clicked, a "ttl expired" row that an unblocked request met its policy's passed deadline |
| Causes.TerminatedExactlyIfOver | app/internal/service/enforcement_service.go:52-164 | with no owner click, no expired TTL and no failure, at rest the link is terminated if and only if some counter is at its limit |
| Progress.ProcessFinishes | app/internal/proxy/handler.go:100-174 | every process is done after at most 20 turns of its own, whatever the others, failures and restarts do |
| Progress.OverLimitEndsTerminated | app/internal/service/link_service.go:154-169 | a link that went over a limit is terminated once the present processes have had their turns, in any order |
| Finality.TerminationIsFinal | app/internal/proxy/handler.go:110-166 | after the status write, through any failures and restarts: terminated for good, no later request is answered, each request in flight at most once |
| Finality.ExhaustedLimitRefuses | app/internal/service/enforcement_service.go:80-96 | once a counter is at its limit no request that has not read it yet is ever answered, even if every termination attempt fails |
| Finality.NextRequestTerminates | app/internal/service/enforcement_service.go:80-96 | an over-limit link left active by failures is terminated by the next request that runs through |
| Finality.OwnerClickTerminates | app/internal/service/link_service.go:115-144 | an owner's click whose own commands succeed ends with the link terminated, with a row of its own if accepted, whatever the others, failures and restarts do |
| Ledger.LedgerAgrees | app/internal/service/link_service.go:154-169 | in every run, failures and restarts included, a row implies terminated; without failures terminated implies a row or a process about to write one |
| Ledger.RowsComeFromEarlyReaders | app/internal/service/link_service.go:124-167 | from any state, over every run, rows written or claimed grow by at most one for each process that reads "active", reason by reason, and by exactly that without failures |
| Ledger.ReadersComeBeforeTheWrite | app/internal/service/link_service.go:124-167 | nobody reads "active" once the status is written |
| Ledger.ReadersAreDistinct | app/internal/service/link_service.go:124-167 | each terminator reads the status at most once |
| Ledger.SettledLedger | app/internal/service/link_service.go:124-167 | between two moments at rest the ledger gains at most one row for each terminator that read "active" before the first status write, with that terminator's reason, and exactly those rows without failures |
| Ledger.SoleTerminatorWritesOneRow | app/internal/service/link_service.go:154-169 | a terminator that races with nobody leaves exactly one row, its own |
| WipeSafety.SparesDurableExactlyIfSafe | app/internal/limiter/counter_store.go:35-51 | no run after a Redis restart lowers a durable counter below its value at the restart if and only if, at the restart, the worker has only zeros left to read and no process can mark the link with counters short of the durable ones; the condition is read off the program counters, the seeds, the policy and the durable row, and every calm moment (`WipeSafety.CalmIsSafe`) meets it |
| WipeSafety.SeedsStayBehind | app/internal/service/enforcement_service.go:166-176 | what that theorem asks of the moment of the restart, no negative counter and no seed ahead of its row, holds throughout every restart-free run |
| Restart.BalanceAcrossRestarts | app/internal/limiter/counter_store.go:35-51 | in a run whose restarts are calm, counted plus owed minus observed falls by exactly live minus durable at each restart, and by nothing else if nothing fails |
| Restart.QuotaAcrossRestarts | app/internal/service/enforcement_service.go:80-142 | over a whole life with calm restarts the answers given exceed max - 1 + n by no more than the sum of live minus durable over the restarts |
| Restart.WarmLoadRestores | app/internal/service/enforcement_service.go:166-176 | after a calm restart the keys come back with exactly the durable values |
| Drive.FirstWarmLoad | app/internal/service/enforcement_service.go:166-176 | without keys the first request finds (0, 0, 0) if there is no usage_counters row, and the row's three values if there is one |
| Restart.RestartStillRefuses | app/internal/service/enforcement_service.go:53-96 | a limit reached in the durable row refuses every request after a calm restart |
| Restart.PhantomZeros | app/internal/limiter/sync_worker.go:50-63 | witness: a restart in mid-request makes a failure-free flush overwrite durable (5, 50, 1) by (1, 0, 0) |
| DirtyFlag.CleanMeansEqual | app/internal/limiter/sync_worker.go:44-70 | a clean link with no SADD outstanding is in step, under every failure of the worker's commands and increments at any moment, provided every SADD comes in time: it does not land in a flush that has read its counter before the INCRBY, and fails only if the flag is up or the increment is durable already |
| DirtyFlag.CleanLinkInStepExactlyIfInTime | app/internal/limiter/sync_worker.go:50-68 | that hypothesis is exact: when the last outstanding SADD lands in a flush and the flush ends without failure, the link is clean, and in step if and only if the SADD was in time |
| DirtyFlag.LostDirtyFlag | app/internal/limiter/sync_worker.go:50-68 | witness: four successful commands leave a link clean with a durable row that is behind |
| Lag.CurrentGrowsByAdded | app/internal/limiter/counter_store.go:117-125 | in every restart-free run, whatever fails, a counter grows by exactly its INCRBYs that went through |
| Lag.LagIsWhatWasAddedMeanwhile | app/internal/limiter/sync_worker.go:50-69 | after a flush in which no worker command failed, a durable counter is behind the live one by exactly what was counted since the worker's GET of it; they agree if and only if that is nothing |
| AllLinks.RunViewed | app/internal/limiter/sync_worker.go:50-69 | every run of the whole system, seen from any link, is a run of that link's own protocol |
| AllLinks.LocalRunAsCalm | app/internal/limiter/sync_worker.go:50-69 | the link's run has a restart or a failure only if the whole run has one |
| AllLinks.TasksAreIsolated | app/internal/limiter/counter_store.go:31-33 | a step for one link leaves every other link's keys, row, status and ledger unchanged |
| WholeSystem.EveryLinkConserves | app/internal/service/enforcement_service.go:108-145 | counter conservation for each link of the whole system |
| WholeSystem.EveryLinkKeepsItsQuota | app/internal/service/enforcement_service.go:80-142 | the quota bound for each link of the whole system |
| WholeSystem.EveryTerminationIsFinal | app/internal/service/link_service.go:115-169 | finality for each link, whatever happens on any link |
| WholeSystem.EveryCleanLinkIsInStep | app/internal/limiter/sync_worker.go:44-70 | "clean means in step" for each link while one worker walks all of them |
| WholeSystem.QuietLinkStarts | app/internal/service/link_service.go:84-87 | a new or restarted quiet link meets the starting conditions of the run theorems |
| CounterStores.CounterStore.WarmLoad | app/internal/limiter/counter_store.go:42-51 | present keys win, a broken pipeline leaves a prefix seeded, other links untouched |
| CounterStores.CounterStore.Get | app/internal/limiter/counter_store.go:63-84 | a snapshot of the link's keys, missing ones as 0 |
| CounterStores.CounterStore.IncrAndMarkDirty | app/internal/limiter/counter_store.go:117-125 | new value and mark together on success; a break after INCRBY changes the key, leaves the flag and reports an error |
| CounterStores.CounterStore.DirtyLinkIDs | app/internal/limiter/counter_store.go:136-150 | each dirty link exactly once |
| CounterStores.UsageTable.Upsert | app/internal/repository/pgx/guests.go:170-181 | the row becomes the given counters, other rows stay |
| SyncWorkers.SyncWorker.FlushOnce | app/internal/limiter/sync_worker.go:44-70 | for every pattern of failures each dirty link gets its own pass and nothing else changes |
| SyncWorkers.PassKeepsCleanInStep | app/internal/limiter/sync_worker.go:50-68 | a pass keeps "clean means in step" for every fault, never lowers a durable counter, and without faults leaves the link clean and in step |
| SyncWorkers.FlushIsTheProtocolsWorker | app/internal/limiter/sync_worker.go:50-69 | a pass over a link does what the protocol's worker does when undisturbed |
| LinkServices.LinkService.AutoTerminate | app/internal/service/link_service.go:154-169 | idempotent; from active, terminated with one unnamed row, and what each failing command leaves behind |
| LinkServices.LinkService.TerminateLink | app/internal/service/link_service.go:115-144 | succeeds exactly for the owner of an active link, with a row naming the owner; anyone else changes nothing |
| LinkServices.LinkService.CreateLink | app/internal/service/link_service.go:58-101 | success attaches every listed policy and rule; a failure half-way leaves exactly those before it; a rejection names its cause and changes nothing |
| LinkServices.EveryListedPolicyTakesPart | app/internal/service/link_service.go:89-93 | the effective policy of a created link is that of the owner's list, in whatever order the database answers |
| LinkServices.EveryListedRuleTakesPart | app/internal/repository/pgx/links.go:278-311 | a request on a created link is blocked if and only if a rule the owner listed, or one of the site's, blocks it, in whatever order the database answers |
| Enforcement.EnforcementService.BeforeProxy | app/internal/service/enforcement_service.go:52-99 | decision and stores equal the protocol's process run alone; other links untouched; a request a rule blocks is recorded once, with link, verb and path, and no other request at all; a failing warm load, policy or rule lookup refuses with an error |
| Enforcement.EnforcementService.RecordViolation | app/internal/service/enforcement_service.go:108-132 | event recorded, violation counted, terminated at the limit, as the protocol does it |
| Enforcement.EnforcementService.AfterProxy | app/internal/service/enforcement_service.go:139-164 | stores equal the protocol's process run alone from its first increment |
| Enforcement.DecisionCodes | app/internal/service/enforcement_service.go:52-99 | 410 for an expired TTL, 403 for a limit or a blocked path, 500 for a failed store call, 200 to go on |
| Enforcement.LifetimeExact | migrations/00003_create_shared_links_policies.sql:18 | the nanosecond product fits int64 exactly in a stated range, which contains every 32-bit column value |
| Enforcement.LateMeans | app/internal/service/enforcement_service.go:72-75 | a limit of t seconds has passed if and only if more than t * 10^9 nanoseconds have, for every 32-bit t; no limit is never late |
| Enforcement.LateAsEachPolicy | app/internal/service/enforcement_service.go:72-78 | the folded TTL has passed if and only if, for some attached policy, more than its seconds times 10^9 nanoseconds have |
| Handler.ServeHTTP | app/internal/proxy/handler.go:100-174 | unknown link, status, then enforcer, then target, then count: the reply and the stores of a whole request |
| Handler.OwnerTerminate | app/internal/service/link_service.go:115-144 | an owner's click leaves the stores the protocol's manual terminator leaves, failures included |
| Handler.AnswerIsCountedAndChecked | app/internal/service/enforcement_service.go:139-164 | an answered request counts one request and its bytes, marks the link, and terminates it with exactly one row exactly if a limit is now reached |
| Handler.RefusalNamesTheFirstLimit | app/internal/service/enforcement_service.go:80-96 | a refusal names the first limit reached and terminates with that one reason |
| Admission.AloneRunIsDriven | app/internal/service/enforcement_service.go:52-164 | the serial methods' effect is reached by a run of the protocol in which nothing else moves |
| Admission.AdmitsExactlyTheAdmissible | app/internal/service/enforcement_service.go:52-99 | let in if and only if no rule blocks, no attached policy's seconds have passed and no attached policy's limit is reached by the live counters (the stored ones where a key is missing, zero where there is no row); letting in leaves exactly those counters in Redis and changes nothing else |
| Admission.CreatedLinkAdmits | app/internal/service/link_service.go:89-100 | admissibility of a created link in terms of the policies and rules the owner listed and the site's rules |
| PolicyResolver.Resolve | app/internal/service/policy_resolver.go:32-48 | each effective limit is the least one any attached policy sets, 3 taking part for violations; errors are passed on |
| PolicyResolver.OrderAndRepetitionIrrelevant | app/internal/service/policy_resolver.go:38-47 | policies with the same members resolve alike, whatever order and repetition |
| PolicyResolver.ResolvedConcat | app/internal/service/policy_resolver.go:38-63 | resolving two lists together is the field-wise meet of resolving each |
| PolicyResolver.AttachingTightens | app/internal/service/policy_resolver.go:12-19 | attaching policies never loosens a limit |
| PolicyResolver.FoldDecidesAsEachPolicy | app/internal/service/policy_resolver.go:38-70 | counters hit the effective limits exactly if they hit some attached policy's limit or violations reach 3 |
| Blacklist.MatchRules | app/internal/service/blacklist_service.go:56-68 | nil exactly if no rule blocks, else the first rule that does |
| Blacklist.BlocksMeans | app/internal/service/blacklist_service.go:62-82 | a rule blocks if and only if its method list is empty or folds to the verb, and a "regex" pattern matches or does not compile, or any other pattern starts the path |
| Blacklist.ContainsMethod | app/internal/service/blacklist_service.go:84-91 | found exactly if some listed method folds to the verb |
| Blacklist.MoreRulesBlockMore | app/internal/service/blacklist_service.go:56-68 | the verdict depends on the set of rules, and more rules never unblock |
| Blacklist.ExtensionStaysBlocked | app/internal/service/blacklist_service.go:79-80 | a path blocked by a prefix rule stays blocked under every extension |
| Blacklist.EmptyListBlocksMost | app/internal/service/blacklist_service.go:62-64 | emptying a rule's method list never unblocks |
| Blacklist.MalformedFailsClosed | app/internal/service/blacklist_service.go:72-77 | breaking a rule's pattern makes it block every path for the methods it covers, and never unblocks anything |
| AccessLogger.LoggerConserves | app/internal/proxy/logwriter.go:37-96 | in every run offered entries split, in order, into dropped ones and handed-off ++ batch ++ channel; batches have 1 to batchSize entries; fewer than 21 batches are pending |
| AccessLogger.SoundNext | app/internal/proxy/logwriter.go:52-58 | a drop happens only with 20 * batchSize entries queued |
| AccessLogger.EveryEntryIsOffered | app/internal/proxy/logwriter.go:52-58 | the entries accounted for are exactly those `Log` was called with, in order |
| AccessLogger.TickHandsOff | app/internal/proxy/logwriter.go:92-93 | a tick hands off the whole batch, however short, or nothing if it is empty |
| AccessLogger.ReceiveTakesTheOldest | app/internal/proxy/logwriter.go:87-91 | a receive moves the oldest channel entry to the batch, and hands the batch off at batchSize |
| AccessLogger.ReceivedBeforeATickIsHandedOff | app/internal/proxy/logwriter.go:82-95 | whatever was received before a tick is handed off from then on, in order, in every run |
| AccessLogger.ShortBatchesComeFromTicks | app/internal/proxy/logwriter.go:82-95 | in every run a batch shorter than batchSize was handed off by a tick or the cancellation |
| AccessLogger.StartsEmpty | app/internal/proxy/logwriter.go:37-47 | the configured size is used, anything below one becomes one |
| AccessLogger.ShutdownLeavesTheChannel | app/internal/proxy/logwriter.go:82-95 | after shutdown without drops, everything was handed off except what is in the channel |
| AccessLogger.AfterStopNothingIsHandedOff | app/internal/proxy/logwriter.go:84-86 | what is in the channel at shutdown stays there |
| AccessLogger.AsyncAccessLogger.Run | app/internal/proxy/logwriter.go:63-96 | the loop follows the state machine up to and including the first cancellation, and stops exactly then |
| AccessLogger.AsyncAccessLogger.Log | app/internal/proxy/logwriter.go:52-58 | never blocks; a full channel drops the entry |
| Hubs.FeedIsInOrder | app/internal/pubsub/hub.go:49-75 | received ++ buffered is an ordered part of what the events list publishes before the first cancel; at most 32 buffered |
| Hubs.MissesNothingExactlyIfItKeepsUp | app/internal/pubsub/hub.go:66-75 | a subscriber gets all of that if and only if no publish finds 32 events buffered |
| Hubs.CancelEndsTheSubscription | app/internal/pubsub/hub.go:55-62 | after a cancel, in every run, nothing is delivered any more; what was buffered can still be drained |
| Hubs.EachSubscriberGetsItsOwn | app/internal/pubsub/hub.go:49-75 | over every run of the hub, the newest subscriber's events are, in order, part of what is published until its own cancel, and all of it if and only if it keeps up |
| Hubs.FeedsAreIndependent | app/internal/pubsub/hub.go:66-75 | a subscriber's feed depends on the publishes and its own actions only |
| Hubs.Hub.Subscribe | app/internal/pubsub/hub.go:49-54 | the class, with channels as objects, takes the run theorems' subscribe step |
| Hubs.Hub.Publish | app/internal/pubsub/hub.go:66-75 | the event is appended to every registered channel with fewer than 32 buffered, and to no other; exactly the run theorems' publish step; no send on a closed channel |
| Hubs.Hub.Cancel | app/internal/pubsub/hub.go:55-62 | afterwards the channel is deleted and closed, its buffer and all other registrations as before; repeated cancels change nothing |
| Hubs.Hub.Receive | app/internal/pubsub/hub.go:49-50 | a subscriber takes its oldest event and no other subscriber's feed changes |
| Credentials.SessionImportService.Import | app/internal/service/session_import.go:62-110 | stored rows open to the imported values, with the default token type; how many rows each failure leaves, and success if and only if nothing failed |
| Credentials.BuildInjectionPlan | app/internal/proxy/injector.go:39-76 | fails exactly if a row cannot be decrypted; cookies in row order, token values by header in row order |
| Credentials.TokenValuesGrow | app/internal/proxy/injector.go:63-73 | each row adds its value last under its own header, or under "Authorization" if it names none |
| Credentials.ImportedCookiesComeBack | app/internal/proxy/injector.go:46-57 | from a table that holds other sessions' rows too, listed in any order, the plan's cookies are the imported ones as a multiset |
| Credentials.ImportedTokensComeBack | app/internal/proxy/injector.go:63-73 | likewise, for each header, the values are the imported tokens as a multiset |
| Credentials.ImportThenPlan | app/internal/proxy/injector.go:39-76 | import, listing and plan in one: there is a plan if and only if no encryption and no insert fails, and it holds exactly what was imported, whatever other sessions stored |
| Credentials.OutgoingRequest.Apply | app/internal/proxy/injector.go:83-94 | guest's Cookie and Authorization are gone; every other header is the guest's values then the owner's, whatever the map order |
| Paths.ParseInvertsBuild | app/internal/proxy/handler.go:229-242 | a URL parses to a token and path exactly if it was built from them, or is the bare token and the path is "/" |
| Paths.ParsedShape | app/internal/proxy/handler.go:229-242 | a parse gives a slash-free token and a slash-led path, and fails exactly on a missing prefix or an empty rest |
| Paths.JoinSeam | app/internal/proxy/director.go:77-88 | joining removes at most one slash; exactly one remains if and only if neither side has two |
| Paths.TargetSeesCheckedPath | app/internal/proxy/director.go:54-56 | the target gets the path the blacklist checked if and only if the base path is empty or "/" |
| BodyCounter.CountingResponseWriter.Write | app/internal/proxy/bodycounter.go:30-34 | the count is the sum of what the wrapped writer accepted |

## Left out

- Redis, pgx, SQL text, connection pools and net/http: each call is one step on maps, with failures as choices.
- A policy or rule set changed during a run: the protocol's policy is fixed; `Handler.ServeHTTP` alone reads it twice.
- Counter overflow: counters are unbounded integers, int64 and the 32-bit columns of `usage_counters` are not modelled.
- Two application instances: there is one sync worker, as in one process.
- Cancelled requests and aborted responses, which can skip the increments after the answer.
- Wall-clock time: `now` is an argument, and in the protocol a deadline may have passed or not at every request.
- Status values other than "active" and "terminated", which the application never writes.
- Hub publications from the enforcer and log lines: they change no store.
- Guest and guest-session lookup, `TouchLastRequest` and the access-log entry of a request: bookkeeping around the protocol.
- Link tokens, labels and `expires_at` in `CreateLink`: an unusable link is a choice of the environment.
- Cookie attributes other than name and value, which are stored and never used for injection.
- The regexp engine, `strings.EqualFold`, the cipher, cookie text and header canonicalisation: parameters; a plan's header names are taken as canonical already.
- `StripIdentityHeaders`, the REST, gRPC and dashboard layers, migrations, replication, backup and analytics.
