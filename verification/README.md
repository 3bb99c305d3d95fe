# Procurement parser: a verified model

The procurement parser crawls two procurement portals. Discovery pages through a portal's catalogs
and puts the entities it finds on a durable frontier; workers claim frontier rows under leases,
extract an entity, persist it and enqueue what it refers to. Around this stand the network layers
that keep requests going through blocked proxies, and the stores and jobs that keep data and work
consistent. This project models these parts in Dafny and proves what they are built for.

Every repository method is one atomic step on a value of the tables, time is an integer number of
seconds, and protocols are state machines whose events interleave freely. Code that changes things
step by step is imperative here too: classes with the source's fields, whose methods are proved
against functions on values, about which the lemmas then speak.

| part | modules |
|---|---|
| shared by all | `Types`, `Arithmetic` |
| frontier, leases, enqueue order | `Frontier`, `EnqueueOrder`, `FrontierRepository` |
| workers draining the frontier | `Extraction`, `Workers`, `Fencing`, `DrainSoundness`, `WriteOrder`, `DrainTermination`, `LateErrors`, `WriteFence`, `WorkerService` |
| windowed discovery with checkpoints | `Discovery`, `DiscoveryResume` |
| circuit breakers, proxies, lanes | `Breakers`, `StrategyStack`, `ProxyPool`, `LanePool`, `EepLanes` |
| entity store and bulk replay | `EntityStore`, `BulkReplay` |
| lots of a notice, bundle download, job leases | `NoticeParser`, `NoticeLots`, `BundleCache`, `Scheduler` |

`dafny verify dfyconfig.toml` checks all of it.

## What the model says that the code's own documentation does not

- A worker's lease check does not fence the writes after it. They are in attempt order whatever
  everybody else does for exactly as long as the lease lasts (`WriteFence.WritesInOrderIff`); a second
  later a taken-over worker can persist an older extraction over a newer one.
- When complete raises, the entity is extracted again and its discoveries are enqueued again. The
  hand-outs of a drain stay bounded, but not by the bound that holds without such errors
  (`DrainTermination.DrainIsBounded`, `LateErrors.LateErrorsCostMore`).
- A job's completion does not say which run completes, so a run that finishes late frees the lease of
  its successor. The jobs safe from that are exactly those whose lease is shorter than their interval
  (`Scheduler.NeverOverlapsIff`).
- The two statements of a bulk replay select from the staging table separately; the stored hashes are
  sure to stay equal just when rows that tie for the latest of a lot have one hash
  (`BulkReplay.BulkAgreesIff`). A bulk replay leaves the store that replaying the rows singly leaves
  just when each lot's last run of equal hashes begins at the time bulk leaves
  (`BulkReplay.StoresEqualIff`).
- A page of a notice's lots that repeats an id on itself makes the batch discover it twice; across
  pages repeats are removed (`NoticeLots.CollectsOnceIff`).
- A source breaker whose probe gets no verdict refuses every request until a result is recorded by a
  request it had let through before (`StrategyStack.LostProbeBlocks`, `StrategyStack.ResultFreesProbe`).
- Persisting a batch again adds no revision just when the batch has one hash for each entity
  (`EntityStore.RepeatAddsNothing`).
- A lane without a proxy whose time to live is up, with a rotation URL configured, stays up: nothing
  sets its clock (`LanePool.OutlivedLaneRenewsIff`).

## Model

| member | source | states |
|---|---|---|
| `Frontier.ClaimSelectsPrefix` | src/procurement_parser/infrastructure/persistence/postgres/repositories.py:156-192 | a claim leases exactly the first min(limit, eligible) rows under priority descending, available_at, id; no other set of rows fits that |
| `Frontier.ClaimTakesMostUrgent` | src/procurement_parser/infrastructure/persistence/postgres/repositories.py:156-192 | a row may be claimed when it is available and free, of the source and, for backfill, without priority; one left behind is there only because the limit is reached, by rows of higher priority, or of the same and available earlier, or then of lower id |
| `Frontier.EligibleAgain` | src/procurement_parser/infrastructure/persistence/postgres/repositories.py:156-192 | a retried row can be claimed from exactly the end of its delay on, an extended one from exactly the end of its lease |
| `Frontier.BackfillFirst` | src/procurement_parser/application/pipeline.py:513-530 | the claim of a backfill worker comes away empty just when every eligible row has priority above 0 |
| `EnqueueOrder.OrderDoesNotMatter` | src/procurement_parser/infrastructure/persistence/postgres/repositories.py:98-145 | two orders of the same items leave the same frontier, so sorting by identity changes nothing but lock order |
| `EnqueueOrder.EnqueueView` | src/procurement_parser/infrastructure/persistence/postgres/repositories.py:98-145 | enqueue keeps one row an entity and merges items by greatest priority and least available_at |
| `EnqueueOrder.EnqueueAbsorbs` | src/procurement_parser/infrastructure/persistence/postgres/repositories.py:119-144 | after an enqueue, each of its items, also at a later available_at, has a row at least as urgent or is skipped |
| `EnqueueOrder.RepeatedEnqueueIsNoOp` | src/procurement_parser/infrastructure/persistence/postgres/repositories.py:119-144 | enqueueing items again, refetched later, leaves the whole table as it is |
| `EnqueueOrder.SortedInOrder` | src/procurement_parser/infrastructure/persistence/postgres/repositories.py:98-104 | a batch is enqueued, and its new rows get their ids, in the order of its identities |
| `EnqueueOrder.KeysOrderedByName` | src/procurement_parser/infrastructure/persistence/postgres/repositories.py:49-54 | identities are ordered by the names of source and type, then by id |
| `FrontierRepository.Repository.Enqueue` | src/procurement_parser/infrastructure/persistence/postgres/repositories.py:98-145 | the loop over the sorted items leaves the table of Frontier.Upserts and counts the items not skipped |
| `FrontierRepository.Repository.Claim` | src/procurement_parser/infrastructure/persistence/postgres/repositories.py:147-209 | leases the rows it returns tasks for, each once and with its next attempt, and changes no other; an eligible row is left only when the limit is reached, by rows that come before it by priority, available_at and id |
| `FrontierRepository.Repository.Complete` | src/procurement_parser/infrastructure/persistence/postgres/repositories.py:211-232 | a current task's row goes and one success row copies its attempt and notes the content hash; an outdated task changes nothing |
| `FrontierRepository.Repository.Fail` | src/procurement_parser/infrastructure/persistence/postgres/repositories.py:443-479 | the same with a failed row |
| `FrontierRepository.Repository.Retry` | src/procurement_parser/infrastructure/persistence/postgres/repositories.py:406-441 | a current task's row loses its lease and becomes available after the delay |
| `FrontierRepository.Repository.ExtendLease` | src/procurement_parser/infrastructure/persistence/postgres/repositories.py:269-291 | extends, and says so, just when the row has the task's attempt and the worker as owner |
| `FrontierRepository.Repository.Release` | src/procurement_parser/infrastructure/persistence/postgres/repositories.py:234-255 | gives back and counts exactly the listed rows the worker owns |
| `FrontierRepository.Repository.ReleaseByOwner` | src/procurement_parser/infrastructure/persistence/postgres/repositories.py:257-267 | gives back and counts every row the worker owns |
| `FrontierRepository.Repository.ReleaseStaleLeases` | src/procurement_parser/infrastructure/persistence/postgres/maintenance.py:416-434 | gives back and counts exactly the rows whose lease has run out, of one source or of all |
| `FrontierRepository.Repository.CountActivity` | src/procurement_parser/infrastructure/persistence/postgres/repositories.py:293-321 | counts the rows of a source in one pass: depth 0 just when it has no row left, leased 0 just when no lease of it runs, and a claim for it takes as many rows as are ready, up to its limit |
| `FrontierRepository.ActivityTells` | src/procurement_parser/infrastructure/persistence/postgres/repositories.py:293-321 | what those counts tell of the table: which are 0 when, what a claim of any limit takes, and that the rows not ready are delayed or leased |
| `Extraction.AcceptedIffWellFormed` | src/procurement_parser/application/pipeline.py:739-782 | a batch passes the checks just when it has every entity once, the task's own with raw payload, and nothing of another source |
| `Extraction.TaskHashIsOwn` | src/procurement_parser/application/pipeline.py:784-792 | the content hash noted for a task is that of the task's own entity |
| `Fencing.TokensAreUnique` | src/procurement_parser/infrastructure/persistence/postgres/repositories.py:172-182 | over any run of the protocol no (row id, attempt) pair is handed out twice |
| `Fencing.Conservation` | src/procurement_parser/infrastructure/persistence/postgres/repositories.py:211-232 | over any run rows inserted are rows live plus completed plus failed; a removed row left exactly one history row; attempts 1..n of a row were handed out, n being its attempt |
| `Fencing.OutdatedTaskIsInert` | src/procurement_parser/infrastructure/persistence/postgres/repositories.py:269-291 | once a later attempt is out, extending, completing, failing and retrying an earlier one change nothing |
| `Fencing.LeavingFrees` | src/procurement_parser/infrastructure/persistence/postgres/repositories.py:257-267 | a worker that leaves owns nothing any more: its rows can be claimed as if they had never been leased, no other row changes |
| `Fencing.ReleasingFrees` | src/procurement_parser/application/pipeline.py:547-558 | a worker that gives back its unfinished tasks frees exactly their rows, as far as it owns them |
| `Fencing.OwnersAreAlive` | src/procurement_parser/application/pipeline.py:566-570 | in every run in which workers end by releasing what they own, each lease has an owner that is still at work |
| `DrainSoundness.DrainSound` | src/procurement_parser/application/pipeline.py:621-643 | whenever a source has no row left, in any run with any crashes, everything of it that was seeded or listed by a completed extraction is stored or has a failed history row; and its success rows note the hash of what was extracted |
| `DrainSoundness.EnqueuedIsSettled` | src/procurement_parser/infrastructure/persistence/postgres/repositories.py:119-144 | whatever is enqueued has a live row afterwards or had been settled before |
| `WriteOrder.PersistsInAttemptOrder` | src/procurement_parser/application/pipeline.py:624-637 | if writes finish within the checked lease, persists of one row come in increasing attempt order, and meanwhile nobody else is handed the row |
| `WriteOrder.OneWriterForEachEntity` | src/procurement_parser/application/pipeline.py:624-637 | under that condition no two workers are between lease check and end of enqueue for one entity |
| `WriteOrder.PersistsOfEntityRise` | src/procurement_parser/application/pipeline.py:624-637 | under that condition the persists of one entity rise in row id and attempt, over all rows it ever has |
| `WriteFence.WritesInOrderIff` | src/procurement_parser/application/pipeline.py:624-637 | in any reachable state, the persist of a worker past its lease check is in order whatever the others do in the next d seconds, exactly when the lease it checked has d seconds left |
| `WriteFence.LateWriteComesSecond` | src/procurement_parser/application/pipeline.py:624-637 | one second after the lease, others can have persisted a later attempt of the row first |
| `WriteFence.OrderCanBreak` | src/procurement_parser/application/pipeline.py:624-637 | so there are runs whose persists of a row are out of order |
| `WriteOrder.EmptyStaysEmpty` | src/procurement_parser/application/pipeline.py:572-588 | in a timely run an empty frontier of a source stays empty until the source is seeded again |
| `DrainTermination.DrainIsBounded` | src/procurement_parser/application/pipeline.py:675-705 | over a finite graph, without crashes and lost leases: no row is claimed more than max_attempts times, no entity completes twice, its discoveries are enqueued at most max_attempts times, and claims are at most max_attempts times seeds plus max_attempts times discovered lengths; without errors after enqueue, each is enqueued once and claims are at most max_attempts times seeds plus discovered lengths |
| `DrainTermination.DrainTerminates` | src/procurement_parser/application/pipeline.py:675-705 | the events that do some work are at most five for each of those claims, however ticks, heartbeats, idle polls and errors are mixed in |
| `DrainTermination.DrainCannotStall` | src/procurement_parser/application/pipeline.py:503-571 | every row left is in a worker's queue, or free and claimed by its source as soon as it is available; and time can always pass |
| `LateErrors.LateErrorsCostMore` | src/procurement_parser/application/pipeline.py:636-705 | when complete raises, the bound without the second max_attempts fails: a drain of two entities that hands out five tasks in place of four |
| `WorkerService.Service.ProcessTask` | src/procurement_parser/application/pipeline.py:590-720 | what handling a task leaves in the tables is what its protocol events leave, for every end of extract and every call that raises |
| `WorkerService.Service.HandleGenericError` | src/procurement_parser/application/pipeline.py:675-705 | fails a permanent error or a last attempt, else retries with the backoff delay |
| `WorkerService.DelayDoubles` | src/procurement_parser/application/pipeline.py:698 | the delay is 5 seconds at first, doubles, and is 300 exactly from the seventh attempt on |
| `WorkerService.Service.ClaimTasks` | src/procurement_parser/application/pipeline.py:513-530 | a worker comes away empty just when nothing is eligible; a backfill worker gets a row of positive priority only when nothing else is eligible |
| `WorkerService.Service.DrainComplete` | src/procurement_parser/application/pipeline.py:572-588 | a drain is complete just when the source is empty and has been found so for the grace period |
| `Discovery.ClassifyWindow` | src/procurement_parser/application/pipeline.py:94-129 | everything hangs on the first result that ends a sequential walk: the pages before it count, it is the failed or the terminal page, the rest is only counted |
| `Discovery.WindowsRefineWalk` | src/procurement_parser/application/pipeline.py:240-333 | the windowed run ends where the page-by-page walk ends and for the same reason; a failing page gives up its whole window |
| `Discovery.Service.Run` | src/procurement_parser/application/pipeline.py:214-423 | a resumed run starts from the page its checkpoint names, or 1 without one, any other from the page asked for, or 1; for every catalog, window size and budget exactly the items of the pages up to where the run ends are enqueued, in order; the checkpoint stands there, and a resumed run never moves it back; and the count is that of the items not skipped |
| `Discovery.Service.RunFrom` | src/procurement_parser/application/pipeline.py:237-423 | the loop over windows, from any page |
| `Discovery.Service.Round` | src/procurement_parser/application/pipeline.py:240-361 | one window: given up whole when it fails, else enqueued and then checkpointed |
| `Discovery.FetchWindow` | src/procurement_parser/application/pipeline.py:176-212 | a window fails as a whole, or yields the items up to the end of the walk or of the window |
| `Discovery.RunsCompose` | src/procurement_parser/application/pipeline.py:225-236 | failure-free runs of a pages and then b pages end like one run of a + b pages, with the same pages enqueued |
| `DiscoveryResume.StepIsRun` | src/procurement_parser/application/pipeline.py:240-333 | one window of the crash-and-resume model ends where a run with that budget ends, when its windows are at least as large |
| `DiscoveryResume.ResumedRun` | src/procurement_parser/application/pipeline.py:214-333 | a resumed run of the service with a budget within its window is one step of that model, in the checkpoint and in the frontier |
| `DiscoveryResume.ResumeIsSound` | src/procurement_parser/application/pipeline.py:318-333 | after any mix of failed windows, crashes and budgets every page below the checkpoint has been enqueued and none past the catalog's end |
| `DiscoveryResume.CompletedMeansAll` | src/procurement_parser/infrastructure/persistence/postgres/repositories.py:481-526 | with a completed checkpoint, the entities asked for are exactly those listed before the first empty page |
| `DiscoveryResume.GoodWindowAdvances` | src/procurement_parser/application/pipeline.py:240-333 | a window without failure or crash completes discovery or moves the checkpoint on |
| `Breakers.CircuitBreaker.Allow` | src/procurement_parser/infrastructure/network/circuit_breaker.py:56-66 | the transition and the answer of the breaker's function Ask |
| `Breakers.CircuitBreaker.RecordStatus` | src/procurement_parser/infrastructure/network/circuit_breaker.py:84-98 | a blocked status counts as a failure, any other resets |
| `Breakers.CircuitBreaker.RecordTransportFailure` | src/procurement_parser/infrastructure/network/circuit_breaker.py:100-111 | one more block; opens at the threshold or when half-open |
| `Breakers.CircuitBreaker.Restore` | src/procurement_parser/infrastructure/network/circuit_breaker.py:33-48 | the breaker of a snapshot |
| `Breakers.BreakerTellsHistory` | src/procurement_parser/infrastructure/network/circuit_breaker.py:56-111 | from a fresh breaker the state is a function of the history: blocks is the run of failures since the last success, closed exactly below the threshold, half-open exactly when a probe is out |
| `Breakers.AllowTellsHistory` | src/procurement_parser/infrastructure/network/circuit_breaker.py:56-66 | a request goes ahead just when the run of failures is below the threshold, or the cooldown is over and no probe is out |
| `Breakers.AvailableTellsHistory` | src/procurement_parser/infrastructure/network/circuit_breaker.py:56-75 | a lane is unavailable just while its breaker is open and cools down; asked, an available breaker lets the request through unless a probe is out |
| `Breakers.OneProbe` | src/procurement_parser/infrastructure/network/circuit_breaker.py:56-66 | between two results an opened breaker lets one request through at most |
| `Breakers.RestoreIsFaithful` | src/procurement_parser/infrastructure/network/circuit_breaker.py:33-54 | any reachable breaker, saved and restored, answers every later sequence of calls like the original with no probe out, and saves to the same snapshot |
| `StrategyStack.Stack.RecordVerdict` | src/procurement_parser/infrastructure/sources/zakup_sk/strategies.py:354-394 | one verdict, of the same status, on the lane's and the source's breaker |
| `StrategyStack.Stack.Request` | src/procurement_parser/infrastructure/sources/zakup_sk/strategies.py:266-352 | a request that passes both breakers climbs the ladder of strategies that what is remembered of it, or else captured, sets out, answers with the first unblocked one or the last, and remembers the profile seen last; one that returns records its status once on each breaker, whatever other lanes do to the shared one meanwhile, one that raises records nothing |
| `StrategyStack.ClimbsOneWay` | src/procurement_parser/infrastructure/sources/zakup_sk/strategies.py:289-394 | a ladder leaves no choice: how its calls end fixes the strategies tried and the answer |
| `StrategyStack.LadderTells` | src/procurement_parser/infrastructure/sources/zakup_sk/strategies.py:289-394 | a request known to need a browser is answered by the intercept alone, any other by the direct client unless that is blocked; a blocked answer means that the fallbacks were used up |
| `StrategyStack.Stack.FallBack` | src/procurement_parser/infrastructure/sources/zakup_sk/strategies.py:318-352 | after a blocked direct call: direct again with a captured profile that allows it, an intercept when none was captured, and then the browser; the captured profile is remembered |
| `StrategyStack.Stack.BrowserRequest` | src/procurement_parser/infrastructure/sources/zakup_sk/strategies.py:354-394 | fetch, then intercept, and for catalog pages the DOM, each tried only when the one before was blocked; a return records its status on both breakers |
| `StrategyStack.LostProbeBlocks` | src/procurement_parser/infrastructure/sources/zakup_sk/strategies.py:266-285 | an allowed request without a verdict makes the source breaker refuse every later request, however many and whenever, as long as no result is recorded, just when that breaker was not closed |
| `StrategyStack.ResultFreesProbe` | src/procurement_parser/infrastructure/network/circuit_breaker.py:77-111 | the first request after a result, recorded by one let through before, goes ahead just when it was no failure or the cooldown is over anew |
| `ProxyPool.ProxyPoolCursor.Next` | src/procurement_parser/infrastructure/network/proxy_pool.py:39-49 | gives the first URL from the cursor on that is neither excluded nor cooling, with the cursor behind it, or nothing when there is none |
| `ProxyPool.ProxyPoolCursor.MarkFailed` | src/procurement_parser/infrastructure/network/proxy_pool.py:36-37 | the URL cools down from now |
| `ProxyPool.FailedStaysOut` | src/procurement_parser/infrastructure/network/proxy_pool.py:20-37 | a failed proxy is not given out before its cooldown is over; no other proxy is touched |
| `ProxyPool.FirstProxiesDistinct` | src/procurement_parser/infrastructure/sources/zakup_sk/adapter.py:107-118 | lanes start on pairwise distinct proxies |
| `ProxyPool.RotationKeepsDistinct` | src/procurement_parser/infrastructure/sources/zakup_sk/adapter.py:246-268 | a rotation keeps the proxies in use distinct and puts in one that was not in use and does not cool; it finds none only if every proxy is in use or cooling |
| `LanePool.Adapter.constructor` | src/procurement_parser/infrastructure/sources/zakup_sk/adapter.py:81-121 | the lanes, their clocks and the cursor of a new adapter, on a proxy pool, on one proxy or on none |
| `LanePool.Adapter.TryAcquire` | src/procurement_parser/infrastructure/sources/zakup_sk/adapter.py:166-189 | takes the first untried, free, available lane from the cursor on; with none, waits just when an untried lane is in use |
| `LanePool.Adapter.ReleaseStack` | src/procurement_parser/infrastructure/sources/zakup_sk/adapter.py:193-306 | gives the lane back: as it is; replaced by one on the pool's next proxy, or on its own after the provider's rotation, when exhausted; with its clock set as the code sets it |
| `LanePool.LanesAreShared` | src/procurement_parser/infrastructure/sources/zakup_sk/adapter.py:330-409 | however the lanes are connected, in every interleaving a lane has one holder at most and none that sleeps or has returned; a request tries no stack twice, at most max_attempts; a sleeper always has another request to wake it |
| `LanePool.FoundTells` | src/procurement_parser/infrastructure/sources/zakup_sk/adapter.py:322-329 | a lane that is found is called, and counts as tried, unless it has been up for its time to live and could be exchanged |
| `LanePool.ReturnsIff` | src/procurement_parser/infrastructure/sources/zakup_sk/adapter.py:344-407 | a request ends just when a call brings its answer, when its attempts are used up, or when every lane it has not tried is free and refused by its breaker |
| `LanePool.ProxiesStayDistinct` | src/procurement_parser/infrastructure/sources/zakup_sk/adapter.py:210-268 | on a pool, in every interleaving of rotations the lanes' proxies are distinct, and a replacement is not cooling |
| `LanePool.OutlivedLaneRenewsIff` | src/procurement_parser/infrastructure/sources/zakup_sk/adapter.py:193-240 | a lane given back because its time is up is up no longer just when it has a proxy |
| `EepLanes.Client.constructor` | src/procurement_parser/infrastructure/sources/eep_mitwork/client.py:70-88 | the lanes and the cursor of a new client, on a pool, on one proxy or without lanes |
| `EepLanes.Client.AcquireLane` | src/procurement_parser/infrastructure/sources/eep_mitwork/client.py:287-304 | one scan, lane by lane: takes the first unlocked available lane; else gives up, or sleeps if it met a locked one |
| `EepLanes.Client.ReplaceLane` | src/procurement_parser/infrastructure/sources/eep_mitwork/client.py:306-345 | leaves a lane that is no longer the current one; else rotates it to the pool's next proxy, or asks the provider and keeps the proxy; true just when that replaced it |
| `EepLanes.AcquireIsRun` | src/procurement_parser/infrastructure/sources/eep_mitwork/client.py:287-304 | an uninterrupted scan is one of the runs of the interleaved machine |
| `EepLanes.HeldLaneIsCurrent` | src/procurement_parser/infrastructure/sources/eep_mitwork/client.py:306-317 | in every interleaving of scans, breaker answers and replacements, a request that holds a lane it has not replaced holds the current one of its position, alone |
| `EepLanes.ProxiesStayDistinct` | src/procurement_parser/infrastructure/sources/eep_mitwork/client.py:319-345 | in every interleaving the lanes' proxies are distinct; a swap changes one lane, to a proxy neither in use nor cooling; attempts stay within max_attempts |
| `EepLanes.RefusedByAll` | src/procurement_parser/infrastructure/sources/eep_mitwork/client.py:287-304 | a scan that raises CircuitOpenError was refused by the breaker of every lane; one that sleeps met a locked lane |
| `EepLanes.AnswerTells` | src/procurement_parser/infrastructure/sources/eep_mitwork/client.py:297-302 | when its breaker answers yes, the request holds that lane, still the current one, alone, has made one more attempt and lets others scan; else it scans on |
| `EepLanes.ReturnsIff` | src/procurement_parser/infrastructure/sources/eep_mitwork/client.py:180-226 | a request ends just when it has its answer or exception, when its attempts are used up, or when its scan met no locked lane and no available one |
| `EepLanes.ProviderRenewsOne` | src/procurement_parser/infrastructure/sources/eep_mitwork/client.py:331-352 | with a provider in place of a pool, the lane of a failed request is rebuilt on its proxy just when the provider agrees; no other lane is touched |
| `EntityStore.EntityRepository.PersistEnvelope` | src/procurement_parser/infrastructure/persistence/postgres/repositories.py:603-690 | one envelope against the stored hashes: touch, or revision, upsert and new hash |
| `EntityStore.EntityRepository.ReconcileRelations` | src/procurement_parser/infrastructure/persistence/postgres/repositories.py:567-601 | removes exactly the stored relations of the batch's entities that the batch does not name |
| `EntityStore.EntityRepository.Persist` | src/procurement_parser/infrastructure/persistence/postgres/repositories.py:534-565 | the whole transaction; after it a relation is stored just when the batch has one of that kind, parent and child, or it was stored before and its parent is no entity of the batch |
| `EntityStore.RelationsAreTheBatchs` | src/procurement_parser/infrastructure/persistence/postgres/repositories.py:567-601 | the same of the transaction as a function: a batch entity has exactly the batch's relations, by kind, parent and child; other parents keep theirs and gain the batch's |
| `EntityStore.KnownAfterwards` | src/procurement_parser/infrastructure/persistence/postgres/repositories.py:539-553 | the transaction makes known exactly the batch's entities and the parents and children of its relations |
| `EntityStore.HashesAlwaysAgree` | src/procurement_parser/infrastructure/persistence/postgres/repositories.py:603-690 | over any sequence of persists the entity's hash and its table row's hash agree |
| `EntityStore.RevisionsTellHistory` | src/procurement_parser/infrastructure/persistence/postgres/repositories.py:603-690 | in changes mode the revisions of an entity and its current version are all versions ever persisted, in order, without immediate repeats |
| `EntityStore.RepeatAddsNothing` | src/procurement_parser/infrastructure/persistence/postgres/repositories.py:603-690 | persisting a batch again leaves every log as it is just when the batch has one hash for each entity |
| `EntityStore.SucceededGrows` | src/procurement_parser/infrastructure/persistence/postgres/repositories.py:603-690 | persist marks as succeeded exactly the batch's entities, as the frontier model assumes |
| `EntityStore.ModesDifferInRevisionsOnly` | src/procurement_parser/infrastructure/persistence/postgres/repositories.py:529-532 | the revision mode has no other effect |
| `BulkReplay.BulkReplayer.Stage` | src/procurement_parser/infrastructure/persistence/postgres/bulk_replay.py:52-74 | every row is staged once, in order, and counted, in chunks of the configured size but for the last |
| `BulkReplay.BulkReplayer.Replay` | src/procurement_parser/infrastructure/persistence/postgres/bulk_replay.py:33-133 | upserts entities and lots, each from some latest row of every lot |
| `BulkReplay.BulkIsOneByOne` | src/procurement_parser/infrastructure/persistence/postgres/bulk_replay.py:76-133 | for any order and chunk size, one replay says of every lot what replaying its rows singly, oldest first, says: hashes, content, last success; lots without rows stay as they were both ways |
| `BulkReplay.BulkAgreesIff` | src/procurement_parser/infrastructure/persistence/postgres/bulk_replay.py:76-133 | both stored hashes are sure to agree after a replay just when rows tying for the latest of a lot have one hash |
| `BulkReplay.TableTimesAgreeIff` | src/procurement_parser/infrastructure/persistence/postgres/bulk_replay.py:100-133 | the table row of a lot has the same fetched_at both ways just when the last run of equal hashes of the lot begins at the time bulk leaves |
| `BulkReplay.StoresEqualIff` | src/procurement_parser/infrastructure/persistence/postgres/bulk_replay.py:76-133 | both ways leave the same store altogether just when that is so for every lot |
| `BulkReplay.TableTimesDiffer` | src/procurement_parser/infrastructure/persistence/postgres/bulk_replay.py:100-133 | it is not so for any hash that comes at two times |
| `NoticeParser.TotalFoundIff` | src/procurement_parser/infrastructure/sources/zakup_sk/adapter.py:592-605 | the total found is that of the first object that reports one, an object before its fields and the fields in turn, however deep; none is found just when no object reports one |
| `NoticeParser.OwnTotalIff` | src/procurement_parser/infrastructure/sources/zakup_sk/adapter.py:592-601 | the total an object reports itself is that of the first of three fields that holds a number, a truth value or text of digits |
| `NoticeParser.NumeralIsRead` | src/procurement_parser/infrastructure/sources/zakup_sk/adapter.py:597-600 | the decimal numeral of a number is read back as that number |
| `NoticeParser.ItemsComeFromOneList` | src/procurement_parser/infrastructure/sources/zakup_sk/parser.py:128-141 | the items of a response are the objects of one list in it, reached through item fields only |
| `NoticeParser.ItemsOfFirstOffer` | src/procurement_parser/infrastructure/sources/zakup_sk/parser.py:128-141 | which list that is: the first item field with a list, or with an object that has items, decides |
| `NoticeParser.LotIdIff` | src/procurement_parser/infrastructure/sources/zakup_sk/parser.py:143-153 | the id of a lot is that of the first of four fields whose value is not null, empty text or an empty list |
| `NoticeLots.NoticeBatch.AttachNoticeLots` | src/procurement_parser/infrastructure/sources/zakup_sk/parser.py:670-695 | appends one discovered lot and one relation for each item with an id, in the response's order |
| `NoticeLots.NoticeBatch.DropDuplicates` | src/procurement_parser/infrastructure/sources/zakup_sk/adapter.py:668-685 | drops from the new part of both lists exactly the ids of earlier pages |
| `NoticeLots.NoticeBatch.AttachAllLots` | src/procurement_parser/infrastructure/sources/zakup_sk/adapter.py:644-706 | ends for every server with finitely many ids; discovered lots and relations gain the same ids in the same order; and how it ends tells what the pages showed, and the other way round |
| `NoticeLots.CollectsEveryId` | src/procurement_parser/infrastructure/sources/zakup_sk/adapter.py:664-687 | the ids attached are exactly those on the fetched pages |
| `NoticeLots.CollectsFromOnePage` | src/procurement_parser/infrastructure/sources/zakup_sk/adapter.py:668-687 | each id is taken from the first page that shows it and from no other |
| `NoticeLots.CollectsOnceIff` | src/procurement_parser/infrastructure/sources/zakup_sk/adapter.py:668-687 | no lot is attached twice just when no page repeats an id that is new on it |
| `NoticeLots.RoundTells` | src/procurement_parser/infrastructure/sources/zakup_sk/adapter.py:688-706 | it returns just when the pages have shown as many ids as the last response reports in total, or that reports none and its page is not empty, not full and shows a new id; each of the three errors, and going on, has its condition likewise |
| `NoticeLots.AllGoOnIff` | src/procurement_parser/infrastructure/sources/zakup_sk/adapter.py:688-706 | the pages before the last are those that each show a new id, and are full or report a total not yet reached |
| `BundleCache.RangedIsRight` | src/procurement_parser/infrastructure/sources/zakup_sk/bundle_cache.py:168-201 | what a range request returns after at most five tries is the asked bytes of the bundle |
| `BundleCache.RangedTries` | src/procurement_parser/infrastructure/sources/zakup_sk/bundle_cache.py:168-201 | requests are made until one is answered with the range or with a status outside 2xx, at most as many as there may be tries; everything else is tried again |
| `BundleCache.Cache.GetRange` | src/procurement_parser/infrastructure/sources/zakup_sk/bundle_cache.py:168-201 | the first good answer, network and protocol errors retried, other statuses raised |
| `BundleCache.Cache.NextRange` | src/procurement_parser/infrastructure/sources/zakup_sk/bundle_cache.py:149-152 | a round appends the next 1 MiB, or what is left, or leaves a prefix no shorter than before |
| `BundleCache.Cache.Download` | src/procurement_parser/infrastructure/sources/zakup_sk/bundle_cache.py:135-166 | publishes the whole bundle, or leaves a prefix no shorter than before; it publishes when ranges are answered within five tries and writes are whole; chunks and requests are bounded |
| `BundleCache.PublishedIsWhole` | src/procurement_parser/infrastructure/sources/zakup_sk/bundle_cache.py:135-166 | over any number of interrupted downloads the partial file stays a prefix, loses nothing, and what is published is the bundle |
| `Scheduler.Maintenance.ClaimSchedulerJob` | src/procurement_parser/infrastructure/persistence/postgres/maintenance.py:286-353 | creates the row if need be and claims it just when it is due |
| `Scheduler.Maintenance.CompleteSchedulerJob` | src/procurement_parser/infrastructure/persistence/postgres/maintenance.py:355-383 | ends the lease, whoever holds it, and records success or the error |
| `Scheduler.Process.Poll` | src/procurement_parser/entrypoints/scheduler.py:73-102 | each job this process does not run is claimed if due; no other job is touched |
| `Scheduler.ClaimsAreSpaced` | src/procurement_parser/infrastructure/persistence/postgres/maintenance.py:317-340 | across all processes claims i and j of a job are at least j - i intervals apart |
| `Scheduler.ClaimsInSpan` | src/procurement_parser/infrastructure/persistence/postgres/maintenance.py:317-340 | a span of L seconds has at most 1 + floor(L / interval) claims |
| `Scheduler.ClaimedIff` | src/procurement_parser/infrastructure/persistence/postgres/maintenance.py:286-353 | over any run, when exactly a request to start the job succeeds: the interval since the last start is over, and a run has completed since or that start's lease is over |
| `Scheduler.SecondStartIff` | src/procurement_parser/infrastructure/persistence/postgres/maintenance.py:286-383 | the job is started while a run is at work within its lease just when the interval since the last start is over and some run has completed since |
| `Scheduler.NeverOverlapsIff` | src/procurement_parser/infrastructure/persistence/postgres/maintenance.py:286-383 | the jobs that are never started while a run is at work within its lease, whatever runs do, are exactly those whose lease is shorter than their interval |
| `Scheduler.DeferredWaits` | src/procurement_parser/infrastructure/persistence/postgres/maintenance.py:295-316 | a deferred job never starts before its first interval is over |
| `Scheduler.RunsDoNotOverlap` | src/procurement_parser/entrypoints/scheduler.py:210-220 | if runs that complete do so within their leases, no run starts while another is within its lease, whatever crashes |
| `Scheduler.LateFinishOpensTheDoor` | src/procurement_parser/infrastructure/persistence/postgres/maintenance.py:362-383 | for every job with a lease at least as long as its interval: a run in which a late completion lets a third run start while the second is at work within its lease |

## Left out

- Isolation inside one transaction (row locks, SKIP LOCKED, read committed races): every repository method is one atomic step.
- task_type: the code only ever uses "detail", so a row is known by its entity alone.
- Worker ids are natural numbers, and ids of rows are consecutive; gaps in the id sequence are not modelled.
- Payloads, business numbers and URLs beside the frontier and entity rows, fetch_failures, metrics, logging, CLI, forecasts, migrations, views.
- enqueue_refresh: it enqueues what a query selects; in the protocol it is a seeding with refreshExisting.
- History pruning and cascading deletes: the history stays whole, so that conservation can be said of whole runs.
- DrainTermination.DrainIsBounded: for generic failures, at any point up to and including complete, and without crashes and lost leases; retriable errors have no limit on attempts in the code, so there is no bound with them. Extractions of one entity find the same entities each time, at any priority and time.
- WorkerService.Service.ProcessTask: says what one task does when no other transaction comes in between; the interleaved steps are the events of Workers, about which the run lemmas speak.
- Discovery.Service.Run: a run without a page budget is modelled for catalogs whose walk ends, as an endless catalog has no end of the run.
- StrategyStack.Stack.Request: the ends of the direct, browser and DOM calls are given from outside; HTTP, Playwright, CAPTCHA solving and page parsing are not modelled.
- LanePool.LanesAreShared: a stack is known by an identity that is never used again, which Python's id does not promise; cancellation of a request while it gives its lane back is not modelled; the bound on attempts is a parameter.
- EepLanes.Client.constructor: the direct client, used when there are no lanes, and the last resort after all lanes failed are not modelled.
- EntityStore.EntityRepository.Persist: child tables (documents, delivery places, payment terms) are part of an entity's content; identities are ensured in the batch's order, where the code sorts them to order its locks.
- BulkReplay.BulkIsOneByOne: for rows of a lot with distinct timestamps and content determined by the hash; the table row's fetched_at is the subject of BulkReplay.TableTimesAgreeIff.
- NoticeParser.LotId: Python's str of an id is a parameter, and digits of a total are ASCII digits.
- NoticeLots.NoticeBatch.AttachAllLots: lots attached in one call share one available_at.
- BundleCache.Cache.Download: for one downloader, an honest server and a partial file that is a prefix or too long; the lock file, the choice of a cached bundle and the text form of Content-Range are not modelled.
- Saving and loading of breaker snapshots by the adapters beyond the snapshot's three values.
- Field mapping of the parsers, CSV export and proxy checking.
