# End Close relay: a model of its queue, its mapping and its configuration

The relay takes webhooks from payment processors, keeps them in a durable queue, maps each one to an End Close
record through a per-route allowlist, and forwards the records in bulk. This project models the parts of it whose
correctness is not visible in any one function, and proves what they promise.

**The queue.** `EventTable` is the events table and the statements the SQL store runs on it; `Statements` spells each
statement out column by column. `MemoryStore` is the
in-process store as a class over its rows and key index, each method proved to run exactly the statement of the same
name. `LeaseProtocol` and `LeaseExclusivity` are any number of dispatcher instances interleaved over that table one
store call at a time, with crashes, lost replies, failing calls, expiring leases, replay and pruning.
`Dispatcher` is one instance as a class, in the form of its source: claim, map, post, settle, release, cycle. Every
answer it does not control comes from a `World` (`Outside`), call by call. Its methods are proved against the trace of
statements and reports that those answers demand, whatever fails: `Batches` for a batch, `Cycles` for a visit and a
cycle. What the traces come to is proved about them: `Fates` follows each claimed row and its report through a batch,
`Cycles` through a cycle with a frame over the whole table, `Answers` says what each answer of End Close and each failing
store call makes of a row, `Turns` which due routes a cycle leaves alone, `Simulation` shows visits and cycles to be runs of
`LeaseProtocol`, and `Settlement` has the counts. On top of these are `Drain` (a route's backlog over cycles), `Relay`
(flush as a chain of cycles), `WakeChain`, `Backoff`, `Retention`, `BulkResults` and `Ingest`.

**The mapping.** `Paths` (dotted paths into JSON), `Mapper` (`mapEvent`), `Fields` (the fields of the record one by one),
`Report` (when its report of what stays local is right), `Denylist` (SSN and card redaction, with the regular expressions
as scans), `Redaction` (what those scans match and replace) and `Cents` (`toCents`).

**The configuration.** `ConfigStore` (versions, routes and pause flags) and `ConfigOwnership` (conditional checks
against End Close, interleaved with server edits, local applies and restarts).

## What does not hold as one might expect

Seven places where the obvious claim is false of the code. Each has a concrete witness and an exact condition.

- **Leases alone do not exclude.** `releaseDelivering` and the marks check no owner. Even when every batch ends within
  its lease, a row that one instance put back in the queue can come due, be claimed by a second instance, be freed by
  the first one's release, and be claimed again while the second is still at work (`LeasesAloneDoNotExclude`). An idle
  instance leaves the rows of another's batch alone, whatever it does next, exactly when no row of the batch is due and
  none is being delivered past the lease (`LeftAloneIff`). In runs that keep to this (`Punctual`) exclusivity is proved.
- **`not_forwarded` can list what was forwarded.** A source that stops at an object forwards everything below it, and
  the leaves below are listed as not forwarded (`ForwardedObjectIsListedAsLocal`). A listed scalar has no influence on
  the record, the pending enrichments or the success of the mapping exactly when no field that forwards what it reads
  stops above it: the external id, a metadata field, or a description that is hashed or enriched
  (`ReportIsReliableIff`).
- **A local edit can be passed off as End Close's.** A conditional check that starts while the editor is unlocked, and
  a local apply before its 304 arrives, end in `managed` over the edited text (`LocalEditPassedOff`). A 304 leaves the
  document active that it vouches for exactly when the editor was locked at the start, or no local apply was accepted
  during the check, or the last one put that very document back (`HonestUnlessAppliedIff`). The next check fetches in
  full.
- **Ownership can be lost at a restart.** A relay that End Close owns is still owned after a restart exactly when the
  document served last came with an ETag (`OwnershipSurvivesRestartIff`, with the run `OwnershipLostAtRestart`), since
  the hash that remembers the ownership is stored beside the ETag and only with it
  (`apps/relay/src/config/remote.ts:145-151`). The comment at `apps/relay/src/config/remote.ts:171-172` promises it
  always.
- **Bulk results can park the wrong row.** A result key is looked up as a suffix and as a position. The split is exact
  for every set of rejected rows exactly when each key means its own row only (`SplitIsExactIff`).
- **A repeated id counts twice in memory, once in SQL** (`FailEachIsInIff`).
- **Retention can delete a row that still has its payload**, exactly when the ledger window is the shorter one
  (`DeletesOnlyWipedIff`).

Another comment of the source says more than the code does: after a document that cannot be applied, the old ETag is kept
(`apps/relay/src/config/remote.ts:136-144`), so the next check is conditional on the old document rather than a fetch
in full. The proofs use the code's behaviour.

## Model

| member | source | states |
|---|---|---|
| EventTable.RowAfterFacts | packages/store-sqlite/src/repo/events.ts:96-156 | no statement changes which event a row is, only retention empties a payload, and a row becomes delivered or delivering only by being listed |
| EventTable.ExecKeepsKeyed | packages/store-sqlite/src/repo/events.ts:51-64 | every statement keeps one row per idempotency key |
| EventTable.ExecKeepsLeased | packages/store-sqlite/src/repo/events.ts:67-156 | every statement keeps a lease present exactly on rows being delivered |
| Statements.Claims | packages/store-sqlite/src/repo/events.ts:82-86 | a claim writes status, due time, owner and lease of the listed rows, and nothing else |
| Statements.Delivers | packages/store-sqlite/src/repo/events.ts:98-103 | marking delivered writes status, time, bulk id and lease of the listed rows and clears their error |
| Statements.Fails | packages/store-sqlite/src/repo/events.ts:110-115 | a failure queues the listed rows for the time given, with one attempt more, an error of at most 500 characters and no lease |
| Statements.Parks | packages/store-sqlite/src/repo/events.ts:121-125 | parking keeps the attempts, and the error is cut at 500 characters |
| Statements.Recovers | packages/store-sqlite/src/repo/events.ts:133-141 | exactly the rows in delivering without a lease, past it, or of the owner named go back, with no attempt counted |
| Statements.Releases | packages/store-sqlite/src/repo/events.ts:148-158 | exactly the listed rows in delivering go back, with one attempt more |
| Statements.Expires | packages/store-sqlite/src/repo/events.ts:183-191 | exactly the rows in retry received longer ago than the window park; a pending row never does |
| Statements.ReplaysOne | packages/store-sqlite/src/repo/events.ts:250-259 | the row starts over, due at once with no attempts, exactly if it is parked |
| Statements.ReplaysAll | packages/store-sqlite/src/repo/events.ts:261-269 | exactly the parked rows start over |
| Statements.Wipes | packages/store-sqlite/src/repo/events.ts:307-328 | wiping empties payload and headers of the listed rows; deleting removes exactly them |
| Statements.Admitted | packages/store-sqlite/src/repo/events.ts:70-73 | which rows are due, and which terminal rows retention may wipe or delete, in days of 24 hours |
| Statements.Inserts | packages/store-sqlite/src/repo/events.ts:51-65 | a new row has no attempts and is due when it was received; a taken key changes nothing |
| MemoryStore.MemoryEventStore.constructor | packages/core/src/engine/memory-store.ts:20-23 | an empty store |
| MemoryStore.MemoryEventStore.Insert | packages/core/src/engine/memory-store.ts:25-41 | inserts unless the key is taken, exactly as the conflict clause does; the key index stays the inverse of the rows' keys |
| MemoryStore.MemoryEventStore.RoutesWithDueEvents | packages/core/src/engine/memory-store.ts:43-47 | each route with a due row once, and no other |
| MemoryStore.MemoryEventStore.Oldest | packages/core/src/engine/memory-store.ts:50-53 | the filter and slice return what the ordered, limited query returns |
| MemoryStore.OldestIsUnique | packages/store-sqlite/src/repo/events.ts:69-75 | the ordered, limited query has one possible answer |
| MemoryStore.MemoryEventStore.ClaimDue | packages/core/src/engine/memory-store.ts:49-61 | leases the oldest due rows of the route, at most the limit, changes nothing else, and returns copies of them |
| MemoryStore.MemoryEventStore.MarkDelivered | packages/core/src/engine/memory-store.ts:63-71 | the loop over picked rows is the statement over the listed ids |
| MemoryStore.MemoryEventStore.MarkFailed | packages/core/src/engine/memory-store.ts:73-81 | the loop counts one attempt per listing of an id, and is the statement when no id repeats |
| MemoryStore.FailEachIsInIff | packages/store-sqlite/src/repo/events.ts:107-116 | the loop agrees with `IN` if and only if no id of the table is listed twice |
| MemoryStore.MemoryEventStore.MarkParked | packages/core/src/engine/memory-store.ts:83-89 | the loop over picked rows is the statement over the listed ids |
| MemoryStore.MemoryEventStore.ReleaseDelivering | packages/core/src/engine/memory-store.ts:91-103 | only listed rows still delivering go back, each counted once |
| MemoryStore.MemoryEventStore.RecoverDelivering | packages/core/src/engine/memory-store.ts:105-118 | expired, unleased and own rows go back, the rest stay, and the count is theirs |
| MemoryStore.MemoryEventStore.ParkExpired | packages/core/src/engine/memory-store.ts:120-131 | retry rows received before the cutoff park, the rest stay, and the count is theirs |
| MemoryStore.MemoryEventStore.Replay | packages/core/src/engine/memory-store.ts:192-197 | a parked row is requeued with no attempts; anything else is refused |
| MemoryStore.MemoryEventStore.ReplayAllParked | packages/core/src/engine/memory-store.ts:199-214 | every parked row is requeued, and counted |
| MemoryStore.MemoryEventStore.PruneBatch | packages/core/src/engine/memory-store.ts:133-152 | one bounded retention step on the oldest eligible rows, wiping before deleting |
| MemoryStore.StatementsKeepTable | packages/core/src/engine/memory-store.ts:20-228 | any sequence of statements keeps keys unique and leases on delivering rows only |
| Retention.StepTowardsRetained | packages/store-sqlite/src/repo/events.ts:290-331 | a step moves towards the one-shot result by exactly what it reports; one that reports nothing is there |
| Retention.BatchesAreOneShot | packages/store-sqlite/src/repo/events.ts:273-283 | batches of any size, picking rows in any order, end in the one-shot result with the same totals |
| Retention.DeletesOnlyWipedIff | packages/store-sqlite/src/repo/events.ts:296-330 | no step deletes a row with its payload if and only if the delivered window is no longer than the ledger window |
| LeaseProtocol.DeliveredOnlyIfAccepted | packages/core/src/forward/dispatcher.ts:224-302 | in every run, whatever fails, a delivered row stands for an accepted post of a record that the row's own route mapped from the payload it was ingested with |
| LeaseProtocol.AtMostOneRecord | packages/core/src/forward/endclose-client.ts:58-63 | in every run a server that skips conflicts holds one record per stream and external id |
| LeaseProtocol.StoreRecordsSkips | packages/core/src/forward/endclose-client.ts:58-63 | skipping conflicts keeps what was there, adds nothing twice, and holds every record posted |
| LeaseProtocol.ServerHoldsWhatWasPosted | packages/core/src/forward/endclose-client.ts:58-63 | the server changes only by a post it stored, whatever became of the reply, and then holds each record of the batch by stream and external id and no record of anything else |
| LeaseProtocol.NothingLeftWithoutFlag | packages/core/src/forward/dispatcher.ts:82-97 | in every run an idle instance without the reclaim flag owns no delivering row |
| LeaseProtocol.AnythingMayHappen | packages/core/src/forward/dispatcher.ts:206-302 | the runs quantified over include a crash at any point, a failure at any point of a batch, any reply to a post it may have stored, and a replay at any time |
| LeaseExclusivity.NoRowInTwoBatches | packages/core/src/engine/memory-store.ts:49-61 | in every punctual run no row is in two batches in flight |
| LeaseExclusivity.RecoveryTakesNoLiveRow | packages/core/src/engine/memory-store.ts:105-118 | in every punctual run recovery leaves the rows of live batches as they are |
| LeaseExclusivity.TerminalIsFinal | packages/core/src/engine/memory-store.ts:63-103 | in every punctual run a terminal row keeps its status until retention deletes it, and no other row leaves |
| LeaseExclusivity.NothingIsLost | packages/core/src/engine/memory-store.ts:25-41 | in every punctual run a stored event stays, with its payload until it is terminal, or was removed terminal and past the ledger window |
| LeaseExclusivity.LeavesByRetention | packages/core/src/engine/memory-store.ts:146-150 | a row leaves the table only by retention, terminal and past its window |
| LeaseExclusivity.StaysOrRetires | packages/core/src/engine/memory-store.ts:133-152 | in every run, punctual or not, a row stays the event it was, or retention removed it terminal and past the ledger window |
| LeaseExclusivity.LeftAloneIff | packages/core/src/engine/memory-store.ts:49-118 | whatever an idle instance may do next leaves the rows of another's batch alone if and only if no row of the batch is due and, while one is being delivered, the lease has not run out |
| LeaseExclusivity.PromptIsCareful | packages/core/src/engine/memory-store.ts:192-214 | a replay that takes a row of a batch in flight makes that row due at once, so a run that keeps to its times has none |
| LeaseExclusivity.LeasesAloneDoNotExclude | packages/core/src/forward/dispatcher.ts:210-219 | a run with distinct ids and every batch within its lease that has one row in two batches |
| Backoff.DelayBounds | packages/core/src/forward/backoff.ts:2-6 | with the batch's largest attempt count an event still waits its own shortest delay, and nobody more than 1.2 times the cap |
| Backoff.DelayDoubles | packages/core/src/forward/backoff.ts:2-6 | up to the thirtieth attempt and within the cap the delay is the base times two to the attempts, moved by at most a fifth either way |
| Backoff.Pow2Sum | packages/core/src/forward/backoff.ts:3-3 | the law of powers of two that the delay before jitter goes by |
| Backoff.RoundIsNearest | packages/core/src/forward/backoff.ts:5-5 | rounding gives the nearest millisecond, and the later one half way |
| Backoff.JitterCovers | packages/core/src/forward/backoff.ts:4-4 | the jitter takes every factor from 0.8 up to, but not including, 1.2 |
| Backoff.DelayIsCapped | packages/core/src/forward/backoff.ts:2-6 | where that reaches the cap the delay is the cap, moved by at most a fifth, and it no longer grows after the thirtieth attempt |
| Backoff.RetriesKeepTheirDistance | packages/core/src/forward/dispatcher.ts:284-290 | the k-th retry is claimed no earlier than the sum of the k shortest delays after receipt |
| BulkResults.Split | packages/core/src/forward/dispatcher.ts:409-414 | the two lists are the rows that are rejected and the rows that are not, in order |
| BulkResults.SuffixOfPrefixed | packages/core/src/forward/dispatcher.ts:498-504 | what follows the first ':' of an event id |
| BulkResults.SelectedAre | packages/core/src/forward/dispatcher.ts:409-414 | a row is parked by the split exactly when its suffix or position is among the rejected keys |
| BulkResults.SplitCovers | packages/core/src/forward/dispatcher.ts:409-414 | the split holds every row of the batch once |
| BulkResults.SplitIsExactIff | packages/core/src/forward/dispatcher.ts:403-414 | for every set of rejected rows the split parks exactly that set, if and only if each result key means its row and no other |
| BulkResults.ByPositionIsExactIff | packages/core/src/forward/dispatcher.ts:406-414 | results keyed by position are exact unless a suffix looks like another row's position |
| BulkResults.BySuffixIsExactIff | packages/core/src/forward/dispatcher.ts:406-414 | results keyed by suffix are exact unless a suffix repeats or looks like another row's position |
| Settlement.CountsCountRows | packages/core/src/forward/dispatcher.ts:426-443 | counts kept by notification are the numbers of rows with each status |
| Settlement.ExecKeepsScheduled | packages/core/src/engine/relay.ts:144-145 | a statement keeps every queued row scheduled before a far time, provided the time it schedules by is before it |
| Fates.BatchRowIs | packages/core/src/forward/dispatcher.ts:224-302 | whatever fails, each claimed row ends as its own mapping, the answer to the post, its own result and the store calls that were answered make it, wherever in the batch it stands |
| Fates.ReportsAre | packages/core/src/forward/dispatcher.ts:224-302 | an event is reported as parked, retried or delivered if and only if that is the verdict on its own row |
| Fates.UnreportedIs | packages/core/src/forward/dispatcher.ts:224-302 | an event goes unreported only if an exception left the batch, and then its row is as it was claimed, or parked because an accepted post came with a rejection of its result; it is never delivered |
| Fates.BatchConserves | packages/core/src/forward/dispatcher.ts:224-302 | when a batch comes through, every claimed row has left delivering and the counts are the numbers of its rows now delivered, queued and parked, and add up to the batch |
| Fates.DeliveredWasAccepted | packages/core/src/forward/dispatcher.ts:268-276 | whatever fails, a row of the batch is delivered if and only if a post was made that carried its own record and was accepted, its result is not among the rejected ones, and the results were settled; it is then reported, with the bulk request |
| Fates.RetriedRowsWait | packages/core/src/forward/dispatcher.ts:284-290 | a row reported as retried counts one attempt more and waits at least its own shortest delay, whichever batch it failed with |
| Fates.GoodBatchDelivers | packages/core/src/forward/dispatcher.ts:224-302 | if no store call of the batch failed, every event mapped or was refused by the map, and the post was accepted, then nothing is thrown and every claimed row is delivered and reported so, or parked and reported so exactly if it is unmappable or its result rejected |
| Answers.PostsAre | packages/core/src/forward/dispatcher.ts:371-383 | a batch is posted at most three times; every answer but the last is a transient error, and the last one counts |
| Answers.PollsAre | packages/core/src/forward/dispatcher.ts:390-408 | results are polled for at most five times, while they are unsettled; the rejected keys are those of the failed and rejected items of the last answer, and none if it brought no results |
| Answers.RejectedMeans | packages/core/src/forward/dispatcher.ts:409-414 | a posted event counts as rejected if and only if a rejected key is its suffix or its place among the records posted |
| Answers.PostedIff | packages/core/src/forward/dispatcher.ts:228-270 | records are posted exactly if mapping went through every event and some event has a record |
| Answers.MappingDecides | packages/core/src/forward/dispatcher.ts:230-265 | an event the map or an enrichment refuses parks, one whose enrichment fails is retried, one that does not decode stops the batch before anything is posted and stays as it was claimed |
| Answers.AnswerDecides | packages/core/src/forward/dispatcher.ts:268-301 | when no store call fails, a posted event parks with its attempts unchanged if the refusal has status 400 or 422, is retried with one attempt more on any other refusal, transient error or failure, and after an accepted post is delivered or parks by its own result |
| Answers.StoreCallsDecide | packages/core/src/forward/dispatcher.ts:268-301 | the same for every pattern of failing store calls: an accepted batch whose settling fails is retried as a whole, and if that fails too its rows stay as the calls before left them |
| Answers.VisitAsAnswered | packages/core/src/forward/dispatcher.ts:206-219 | the same through the release, with delivery times no earlier than the claim |
| Cycles.VisitRowIs | packages/core/src/forward/dispatcher.ts:206-219 | claim, batch and release together, row by row |
| Cycles.VisitSettles | packages/core/src/forward/dispatcher.ts:210-219 | whatever fails, every row a visit claimed is reported once and truly, or an exception left the batch and the row is back in retry with one attempt more, or still leased as it was with the reclaim flag raised, or parked for the rejected result of an accepted post |
| Cycles.GoodVisitDelivers | packages/core/src/forward/dispatcher.ts:210-219 | a visit whose calls go well throws nothing and leaves each claimed row delivered, or parked exactly if it is unmappable or rejected |
| Cycles.CycleAccounts | packages/core/src/forward/dispatcher.ts:164-222 | however a cycle ends, the table has the rows it had: those no visit claimed are as housekeeping left them, every other is as the one visit that claimed it left it |
| Cycles.CycleConserves | packages/core/src/forward/dispatcher.ts:164-222 | whatever fails, no row is reported twice in a cycle, every report is true of the table at its end, and the counts are the numbers of reported rows with each status |
| Cycles.GoodVisitInCycle | packages/core/src/forward/dispatcher.ts:192-220 | a visit whose own calls go well claims the oldest due rows of its route, and at the end of the cycle each of them is delivered, or parked exactly if it is unmappable or rejected, whatever became of the other routes and even if the cycle was cut short |
| Cycles.NoRouteIsPassedOver | packages/core/src/forward/dispatcher.ts:192-220 | a cycle that is not halted, cut short or left by an exception serves or skips exactly the routes that have due rows after housekeeping |
| Turns.PauseIsRespected | packages/core/src/forward/dispatcher.ts:192-208 | however a cycle ends, a due route it got to was read: if it is unknown or paused no visit is made to it, none of its rows changes, and it is listed once, as paused exactly if it is known; otherwise it is visited once and not listed |
| Turns.UnreachedIsLeft | packages/core/src/forward/dispatcher.ts:192-199 | a due route the cycle did not get to is left alone and not listed |
| Turns.KillswitchHalts | packages/core/src/forward/dispatcher.ts:187-190 | a cycle halts exactly if the killswitch was read and does not read none; then, or if it was not read, nothing is mapped, posted or claimed and the table is as housekeeping left it |
| Turns.HousekeepingIs | packages/core/src/forward/dispatcher.ts:168-185 | which rows housekeeping queues again and which it parks, by the reclaim flag, the sweep and its store calls; a recovered row past the retry window parks in the same sweep |
| Cycles.CycleMoves | packages/core/src/forward/dispatcher.ts:164-222 | in a cycle a row stays as it was, is queued, is reported, is left by an exception as above, or is parked by the sweep; a settled row stays as it was |
| Cycles.CycleOwnLeft | packages/core/src/forward/dispatcher.ts:164-222 | at the end of a cycle, however it ended, nothing of this instance's is in delivering unless its reclaim flag is up, if that was so before |
| Cycles.HouseKeeping | packages/core/src/forward/dispatcher.ts:168-185 | whatever fails, housekeeping gives up the reclaim flag only when nothing of this instance's is left in delivering |
| Dispatcher.Dispatcher.constructor | packages/core/src/forward/dispatcher.ts:93-97 | a new instance is flagged to reclaim its own rows |
| Dispatcher.Dispatcher.PostWithRetries | packages/core/src/forward/dispatcher.ts:371-383 | the outcome of up to three posts, repeated only after a transient error |
| Dispatcher.Dispatcher.PollRejections | packages/core/src/forward/dispatcher.ts:392-408 | the rejected keys that up to five polls come to, none if a poll fails or nothing settles |
| Dispatcher.Dispatcher.MapOne | packages/core/src/forward/dispatcher.ts:230-265 | an unmappable event parks, one whose enrichment fails is retried at the backoff of its own attempts, a mapped one joins the batch with its record, and an undecodable one, or a failed store call, is thrown on with the table and the report unchanged |
| Dispatcher.Dispatcher.MapEach | packages/core/src/forward/dispatcher.ts:228-266 | table, report, mapped events and records are those of the answers to the events met, in order; it stops exactly at the first event that throws, with the later ones untouched |
| Dispatcher.Dispatcher.SettleResults | packages/core/src/forward/dispatcher.ts:390-424 | rejected rows park and the others are delivered under the bulk request at the time polling began, all reported; if a store call fails nothing is reported, and the table is as it was, or has the rejected rows parked and no other changed |
| Dispatcher.Dispatcher.Fail | packages/core/src/forward/dispatcher.ts:357-359 | the rows are back in the queue at the backoff time for that attempt count, each no earlier than its own shortest delay; a failed call changes nothing |
| Dispatcher.Dispatcher.SettleFailure | packages/core/src/forward/dispatcher.ts:277-301 | a batch refused for good (400 or 422, see `AnswerDecides`) parks as a whole, any other failure retries it as a whole exactly at the backoff of its largest attempt count, also over rows a failed settling had parked; a failed call leaves the table as it was |
| Dispatcher.Dispatcher.SettlePosted | packages/core/src/forward/dispatcher.ts:268-301 | exactly the posts and polls that the answers demand are made, and table and report are those of the one end that these answers and the store calls allow; that end throws only if the call that should have written it failed |
| Dispatcher.Dispatcher.DeliverBatch | packages/core/src/forward/dispatcher.ts:224-302 | whatever fails, table, report and calls are those of one lawful trace of the batch; the `Fates` rows say what such a trace makes of each claimed row |
| Dispatcher.Dispatcher.ReleaseLeftover | packages/core/src/forward/dispatcher.ts:480-495 | listed rows still delivering go to retry, due at once and with one attempt more, and the rest of the table stays; if the call fails nothing changes and the reclaim flag is raised |
| Dispatcher.Dispatcher.ForwardRoute | packages/core/src/forward/dispatcher.ts:206-219 | claim, batch and release are one lawful trace of a visit to the oldest due rows of the route; `VisitRowIs` and `VisitSettles` say what it makes of each row |
| Dispatcher.Dispatcher.Recover | packages/core/src/forward/dispatcher.ts:168-185 | the housekeeping writes for each combination of failing calls; the flag falls only after the recovery that used it, and the sweep clock advances only after both writes |
| Dispatcher.Dispatcher.VisitRoute | packages/core/src/forward/dispatcher.ts:193-219 | a due route is skipped or visited as the read made for it demands (`PauseIsRespected` says what that comes to); table, flag, counts and report are those of the visits so far, and an exception is that of this visit |
| Dispatcher.Dispatcher.Cycle | packages/core/src/forward/dispatcher.ts:164-222 | whatever fails, the table after it is that of housekeeping and of its visits in turn, the routes listed are those with due rows, and each visit, skip, halt and exception is what the answers to the calls made for it demand; the `Cycles` rows say what that comes to |
| Dispatcher.Dispatcher.RunPrune | packages/core/src/forward/dispatcher.ts:451-478 | the loop ends, its totals are what it removed, and unless stopped or failed it reaches the one-shot result |
| Simulation.VisitIsRun | packages/core/src/forward/dispatcher.ts:206-219 | whatever fails, a visit is a sequence of steps of one instance of `LeaseProtocol`, from idle to idle, with the same table and reclaim flag |
| Simulation.CycleIsRun | packages/core/src/forward/dispatcher.ts:164-222 | a cycle, however it ends, is a sequence of steps of one instance of `LeaseProtocol`, with the same table and reclaim flag |
| Simulation.CycleDeliversOnlyAccepted | packages/core/src/forward/dispatcher.ts:164-222 | a cycle of an idle instance at any point of any run of any number of instances continues that run, and every row delivered at its end stands for an accepted post of a record that its own route mapped from its payload |
| Drain.DrainedAfter | packages/core/src/forward/dispatcher.ts:192-220 | the rows waited for are all settled if and only if the cycles, times the batch size, reach their number: the quotient rounded up is enough, and one fewer is not |
| Drain.DrainsByBatches | packages/core/src/engine/memory-store.ts:49-61 | each cycle takes a full batch off the rows waited for, until none is left |
| Drain.DrainsInOrder | packages/core/src/engine/memory-store.ts:49-61 | a row is still waited for while an earlier one is |
| Drain.DrainSettles | packages/core/src/forward/dispatcher.ts:224-302 | a row no longer waited for was claimed in one of the cycles and came out of it delivered, or parked exactly if its own payload does not map or its own result was rejected; rows that park keep no other from being delivered |
| Relay.Flush | packages/core/src/engine/relay.ts:224-253 | flush ends and is the chain of its cycles, each from the table, the flag and the calls the one before it left; no cycle but the last threw or halted, the totals are the sum of the cycles' counts and count all that was reported; every row that was queued is queued still or left the queue in one of the cycles, by a report, the sweep, or an exception that ended the flush; drained means that no row is pending or in retry, paused and unroutable mean what they say of the table and the last cycle |
| Relay.ChainAccounts | packages/core/src/engine/relay.ts:224-253 | over any chain of cycles no row is added or removed, and a queued row leaves the queue only by a report, the sweep or an exception in one of them |
| Relay.FlushDeliversOnlyAccepted | packages/core/src/engine/relay.ts:224-253 | a flush of an idle instance at any point of any run of any number of instances continues that run, and every row delivered at its end stands for an accepted post of a record that its own route mapped from its payload |
| Relay.DrainedMeansEmpty | packages/core/src/engine/relay.ts:240-241 | no route with rows before the far future means no row pending or in retry, as long as every queued row is scheduled before it |
| Relay.StopsBecause | packages/core/src/engine/relay.ts:243-249 | a flush that stops as paused, not halted, leaves queued rows only to routes its last cycle read as known and paused; as unroutable, only to such routes and to unknown ones, of which there is one |
| WakeChain.OneCycleAtATime | packages/core/src/forward/dispatcher.ts:117-156 | in every run at most one cycle is under way |
| WakeChain.NoLostWakeup | packages/core/src/forward/dispatcher.ts:143-156 | a request made while running starts a cycle after exactly as many turns as stand before it, unless stop intervenes; later calls do not delay it |
| WakeChain.WakeIsFollowedByACycle | packages/core/src/forward/dispatcher.ts:143-156 | from any reachable state a wake is followed by a cycle that starts after it within a bounded number of turns |
| WakeChain.RequestHasATurn | packages/core/src/forward/dispatcher.ts:117-124 | a pending request always finds a job that can go on |
| WakeChain.StoppedStartsNoCycle | packages/core/src/forward/dispatcher.ts:134-141 | after stop no wake job starts a cycle until the next start |
| WakeChain.NoCycleWithoutARequest | packages/core/src/forward/dispatcher.ts:143-156 | in every run wake jobs start no more cycles than wakes and starts asked for; requests made before a cycle begins share it |
| WakeChain.CycleStartsWhen | packages/core/src/forward/dispatcher.ts:113-156 | a wake job starts a cycle exactly when it finds a request while running, and takes it; a single run starts its cycle regardless |
| WakeChain.RunningIs | packages/core/src/forward/dispatcher.ts:99-144 | only start and stop decide whether the dispatcher runs, and a wake of a stopped one does nothing |
| Ingest.SameKeyIff | packages/core/src/engine/ingest.ts:62-64 | two events share a key if and only if they have the same source and event id |
| Ingest.IngestWebhook | packages/core/src/engine/ingest.ts:88-194 | the outcome of every branch, the row that is stored, that a 200 is answered exactly to admissible requests the store takes, and that the dispatcher is signalled exactly for accepted events |
| Ingest.AcknowledgedIff | packages/core/src/engine/ingest.ts:158-193 | a 200 means a row with the event's key is stored; any other answer leaves the table as it was |
| Ingest.AnsweredIff | packages/core/src/engine/ingest.ts:102-193 | a 200 is answered if and only if the route is known, the killswitch is not panic, the body is present and within the limit, adapter and secret exist, the request is verified, the JSON parses and the store took it; nothing is stored otherwise |
| Ingest.RefusalCodes | packages/core/src/engine/ingest.ts:82-194 | the status code of every request, by the first field that fails |
| Ingest.StoredIs | packages/core/src/engine/ingest.ts:158-193 | the row a request stores, column by column; it is dropped by the filter exactly if the route lists patterns and its type matches none of them |
| Ingest.RedeliveriesLeaveOneRow | packages/core/src/engine/ingest.ts:165-182 | after an acknowledged event and any further requests exactly one row has its key |
| Ingest.AcknowledgedEventIsOneRow | packages/core/src/engine/ingest.ts:158-193 | in every run of any number of dispatchers an acknowledged event is exactly one row from then on, unless retention removed that row terminal and past the ledger window |
| Ingest.FilteredElsewhereIsDuplicate | packages/core/src/engine/ingest.ts:165-182 | an event filtered on one route is a duplicate on another route of its source |
| Paths.SplitJoin | packages/core/src/mask/paths.ts:7-9 | splitting undoes joining for non-empty, dot-free keys |
| Paths.LeafIsListedIff | packages/core/src/mask/paths.ts:29-36 | every leaf below the root is listed under its dotted name, and nothing else is |
| Paths.LeavesAreListedOnce | packages/core/src/mask/paths.ts:29-36 | no leaf is listed twice |
| Paths.ListedPathsRead | packages/core/src/mask/paths.ts:7-26 | reading a listed path gives the leaf it was listed for |
| Paths.ArrayKeysArePlain | packages/core/src/mask/paths.ts:31-33 | printed array indices need no assumption to be readable, distinct names |
| Paths.CoveringReads | packages/core/src/mask/paths.ts:11-26 | a source that covers a node of the document reads something |
| Paths.SeenIffCovered | packages/core/src/mask/paths.ts:11-26 | changing one scalar changes what a source reads if and only if the source covers it |
| Paths.StoppingAboveIsNotFlat | packages/core/src/mask/paths.ts:11-26 | a source that stops above a leaf reads more than scalars and wildcard arrays of scalars |
| Paths.PutKeepsLeaves | packages/core/src/mask/paths.ts:29-36 | replacing one scalar leaves the list of leaves as it was |
| Mapper.Resolve | packages/core/src/forward/mapper.ts:90-95 | the transforms are applied in the configured order to what the source reads |
| Mapper.Use | packages/core/src/forward/mapper.ts:125-141 | the value forwarded and what is noted, with enriched fields left to the host |
| Mapper.MapEvent | packages/core/src/forward/mapper.ts:114-190 | record, report, pending enrichments and error are a function of the resolved fields and the leaf names alone; the record has the map's direction, stream and currency, the day of receipt or the parsed date, and, for fields neither transformed nor enriched, the text at the id's source and exactly 100 times the decimal number at the amount's |
| Fields.MapsIff | packages/core/src/forward/mapper.ts:143-159 | an event maps if and only if it has a text or number as id, an amount of the grammar and a date, and is refused for the first of them that it lacks |
| Fields.MetadataFieldIs | packages/core/src/forward/mapper.ts:161-165 | a metadata field is forwarded if and only if its source reads something and no enrichment is to fill it, as what it reads after its transforms, masked |
| Fields.DescriptionIs | packages/core/src/forward/mapper.ts:176-179 | there is a description if and only if one is configured, not enriched and reads a text, and it is that text after its transforms, masked |
| Fields.NotesAreOf | packages/core/src/forward/mapper.ts:125-141 | left to the host are exactly the fields with an enrichment whose source reads something, with the transformed value as input; listed as hashed are exactly those forwarded with a hash |
| Fields.OriginsAre | packages/core/src/forward/mapper.ts:125-158 | the report names the source, and the enrichment if there is one, of exactly the fields that read something, and of the date |
| Fields.TransformReaches | packages/core/src/forward/mapper.ts:83-88 | trimming and lower-casing reach every text in nested lists and keep it in its place |
| Fields.TransformKeeps | packages/core/src/forward/mapper.ts:77-88 | they leave every other value alone; a hash takes any value |
| Fields.FirstComesFirst | packages/core/src/forward/mapper.ts:90-95 | transforms run in the configured order |
| Mapper.MapIsTheAllowlist | packages/core/src/forward/mapper.ts:108-113 | payloads that read alike at the configured sources and have the same leaves map alike |
| Mapper.UsedIff | packages/core/src/forward/mapper.ts:123-155 | a path counts as used if and only if it is the date's or a configured source that reads something |
| Mapper.UsedCovers | packages/core/src/forward/mapper.ts:182-187 | a used path takes a leaf off the report if and only if it covers the leaf at full length |
| Mapper.LocalLeavesStayLocalIff | packages/core/src/forward/mapper.ts:181-187 | a leaf reported as not forwarded can change without any configured source reading differently if and only if no source stops above it |
| Mapper.FlatSourcesDoNotStopAbove | packages/core/src/forward/mapper.ts:181-187 | sources that read scalars or wildcard arrays of scalars stop above no leaf |
| Mapper.ForwardedObjectIsListedAsLocal | packages/core/src/forward/mapper.ts:161-187 | a map and payload whose report lists as not forwarded a text that the record carries |
| Mapper.RecordIsMasked | packages/core/src/forward/mapper.ts:161-179 | every string of the metadata and the description has no SSN left and no card candidate that passes Luhn |
| Report.HashedFieldIsForwarded | packages/core/src/forward/mapper.ts:77-95 | a value with a hash anywhere among its transforms is a hash in the end, and leaves the masking as it entered |
| Report.ReportIsReliableIff | packages/core/src/forward/mapper.ts:114-190 | a scalar reported as not forwarded has no influence on the outcome, whatever it is changed to, if and only if no field that forwards what it reads stops above it |
| Denylist.CheckLuhn | packages/core/src/mask/defaults.ts:20-33 | the loop computes the Luhn sum from the right |
| Denylist.LuhnCatchesOneWrongDigit | packages/core/src/mask/defaults.ts:20-33 | changing one digit of a valid number makes it invalid |
| Denylist.SsnPassFixesIff | packages/core/src/mask/defaults.ts:16-37 | the SSN pass changes a text if and only if the pattern matches somewhere in it |
| Denylist.NoSsnIsLeft | packages/core/src/mask/defaults.ts:36-44 | no match of the SSN pattern is left, also after the card pass |
| Denylist.HardDenyIdempotent | packages/core/src/mask/defaults.ts:36-44 | masking a masked value changes nothing |
| Redaction.KeptIffClean | packages/core/src/mask/defaults.ts:35-44 | a text is left as it is if and only if no SSN matches in it and every card candidate fails Luhn |
| Redaction.HardDenyReplaces | packages/core/src/mask/defaults.ts:36-44 | the result is the text with exactly the SSN matches replaced, and then exactly the card matches, longest from the left, whose Luhn total is a multiple of ten; everything else is kept |
| Redaction.MatchIsLongest | packages/core/src/mask/defaults.ts:18-18 | the scan finds the longest candidate of 13 to 19 digits, single separators and word boundaries that starts here, and misses none |
| Redaction.SsnIs | packages/core/src/mask/defaults.ts:16-16 | the SSN scan matches exactly the pattern |
| Redaction.WordCodes | packages/core/src/mask/defaults.ts:16-18 | the characters that digits and word boundaries are about |
| Redaction.LuhnIff | packages/core/src/mask/defaults.ts:20-33 | the check passes if and only if the digits, every second one from the right counting as the digit sum of its double, add up to a multiple of ten |
| Denylist.CandidatesLeftFailLuhn | packages/core/src/mask/defaults.ts:38-42 | every card candidate the pattern still finds fails Luhn (`KeptIffClean` says that no other text is touched) |
| Denylist.CandidateHasCardLength | packages/core/src/mask/defaults.ts:17-40 | the pattern alone guarantees 13 to 19 digits |
| Denylist.HashesSurvive | packages/core/src/mask/defaults.ts:36-44 | `hmac256:` and 64 hex digits is left alone whatever the digits are |
| Denylist.HardDenyDeepMasks | packages/core/src/mask/defaults.ts:47-56 | every string of a value is masked, its shape, keys and other scalars are kept, and doing it twice changes nothing |
| Cents.CentsAreHundredths | packages/core/src/forward/mapper.ts:49-60 | every amount of the grammar becomes exactly 100 times its decimal value, up to 2^53 cents |
| Cents.ConvertsExactlyTheGrammar | packages/core/src/forward/mapper.ts:52-54 | a string converts if and only if it is of the grammar once the noise is stripped |
| Cents.NoiseIsIgnored | packages/core/src/forward/mapper.ts:52-52 | inserting '$', ',' or white space anywhere changes nothing |
| Cents.SpaceCodes | packages/core/src/forward/mapper.ts:52-52 | the white space that is stripped is that of ECMAScript |
| Cents.PrintThenRead | packages/core/src/forward/mapper.ts:49-60 | printing any amount of cents and reading it back gives it again |
| ConfigStore.ConfigDb.SaveConfig | apps/relay/src/config/store.ts:75-107 | a rejected text or missing secret changes nothing; an accepted one is appended unless it is the latest, with its routes and without stale pauses |
| ConfigStore.ConfigDb.DropStalePauses | apps/relay/src/config/store.ts:93-96 | exactly the pause flags of routes in the config remain |
| ConfigStore.SaveActivates | apps/relay/src/config/store.ts:80-106 | the saved text is active, its routes in force, history only grows, and saving the latest text again is a no-op |
| ConfigStore.RemovedRouteForgetsItsPause | apps/relay/src/config/store.ts:93-96 | a route that was removed and comes back does not come back paused |
| ConfigOwnership.ServedIsActive | apps/relay/src/config/remote.ts:130-159 | a 200 leaves a document active that the server held during the check, whatever was applied meanwhile |
| ConfigOwnership.CheckDecides | apps/relay/src/config/remote.ts:102-160 | how every check ends: a 404 gives up ownership and what was remembered, a 304 changes nothing else, a 200 that can be applied makes the document active and remembers its tag, and anything else, or a failing store, changes nothing |
| ConfigOwnership.AsksConditionallyIff | apps/relay/src/config/remote.ts:104-109 | a check is conditional if and only if the active text is the one the remembered tag was served with |
| ConfigOwnership.ServerAnswers | packages/core/src/forward/endclose-client.ts:70-97 | the server answers 304 exactly to the tag of the document it holds, 404 if it holds none, and the document otherwise |
| ConfigOwnership.ServerHolds | packages/core/src/forward/endclose-client.ts:70-97 | nothing the relay does changes what the server holds |
| ConfigOwnership.LocalApplyIff | apps/relay/src/admin/server.ts:305-310 | a local text becomes active if and only if the editor is not locked, its secrets are set and the schema accepts it; otherwise nothing changes |
| ConfigOwnership.NotModifiedMeansStored | apps/relay/src/config/remote.ts:103-128 | a 304 vouches for the document stored when the check started |
| ConfigOwnership.NotModifiedIsHonestIff | apps/relay/src/config/remote.ts:125-128 | a 304 is honest if and only if the active document is still the one the check started from |
| ConfigOwnership.HonestUnlessAppliedIff | apps/relay/src/config/remote.ts:103-128 | in every run a 304 leaves the document active that it vouches for if and only if the editor was locked at the start, no local apply was accepted during the check, or the last one put that document back |
| ConfigOwnership.OwnedCheckIsHonest | apps/relay/src/config/remote.ts:103-160 | in every run a check that starts under End Close's ownership and answers managed leaves a document active that the server held during it |
| ConfigOwnership.LockedMeansServed | apps/relay/src/admin/server.ts:305-310 | in every run without a local apply during a check, a locked editor means a served document is active, across restarts and failures |
| ConfigOwnership.OwnershipSurvivesRestartIff | apps/relay/src/config/remote.ts:145-178 | in every run without a local apply during a check, an owned relay is still owned after a restart if and only if the document served last came with an ETag |
| ConfigOwnership.OwnershipLostAtRestart | apps/relay/src/config/remote.ts:145-178 | a run that ends in managed, and no longer after a restart |
| ConfigOwnership.LocalEditPassedOff | apps/relay/src/config/remote.ts:107-128 | a run that ends in managed over a text that is not End Close's |
| ConfigOwnership.RunsStaySound | apps/relay/src/config/remote.ts:145-152 | in every run the stored tag and hash belong to one served document, and the routes in force are those of the latest version |
| ConfigOwnership.FailureChangesNothing | apps/relay/src/config/remote.ts:286-296 | a failed check changes neither the owner nor the database |
| ConfigOwnership.MismatchFetchesInFull | apps/relay/src/config/remote.ts:105-108 | once the active text differs from the remembered one, the next check cannot be answered 304 |

## Assumptions

- A store call is one statement or transaction: a failed one has no effect. Instance ids are distinct. The host's
  logger does not throw.
- SHA-256 has no collisions where keys are compared, a text stands for its hash, an ETag belongs to one document, and one
  check's writes to the configuration database happen together.
- A drain is a sequence of dispatch cycles that are not halted, cut short or left by an exception, do not skip the
  route, and in which for the route's batch the world answers every store call, decodes every payload, completes every
  enrichment and accepts the post; payloads may not map and results may be rejected, and other routes may fare as they
  will. From one cycle to when the next has done its housekeeping the rows still waited for stay as they are, and
  nothing older becomes due.
- `Simulation` asks that what the world maps has a payload, and that some version of the row's own route gives its
  record, which is what the protocol's mapping stands for.
- `Flush` is proved to end when every outside call takes at least a millisecond. Its `drained` is about tables whose
  queued rows are scheduled before the end of the year 9999, and a clock that is the longest delay before it.
- The theorems on the report ask that digests do not collide, which a digest of fixed length cannot promise: 64 digits
  are a lower bound there. Only texts parse as dates, and trimming and lower-casing leave a hash as it is.
- `Number(...)` on a path segment is a parameter that reads printed indices back; the mapper's theorems ask that the
  configured sources spell array indices that way. Double arithmetic is a parameter that is exact up to 2^53.

## Left out

- Dispatcher: steps of other instances do not fall between the calls of one cycle; those interleavings, stale marks included, are the subject of `LeaseProtocol`, of which its visits, cycles and flushes are proved to be runs (`Simulation`).
- RunPrune: its steps are not part of that refinement; retention is a step of `LeaseProtocol` of its own.
- LeaseProtocol.DeliveredOnlyIfAccepted: the route's document may be replaced while the relay runs, so the record is one that some version of the row's own route gives; what the host's enrichments returned is part of that version, not traced to a payload.
- MapEvent: an object's own properties only; a source that names an inherited property such as `constructor` reads nothing here.
- MapEvent: `-0` cents, and the JSON numbers that `String(...)` prints with an exponent, are as their printed text.
- RecordIsMasked: `external_id` and `date` are not masked by the source, and numbers never are, so nothing is stated about them.
- NoSsnIsLeft: says nothing about card numbers inside a longer run of digits, where the greedy pattern may take trailing digits.
- ConfigOwnership: a change of schema between builds, which can make a stored text unreadable, and the seed file of a first boot, which is a local apply here. The manager's `status` and `inFlight` are modelled on values.
- PruneBatch: the SQL store writes an empty `payload_iv` where the memory store writes none.
- MemoryEventStore: `getById`, `list`, `countByStatus`, `perRouteStats` only read. SQLite may give a deleted newest row's id out again; ids here are never reused.
- Insert and the other operations compare times as numbers; the fixed-format ISO texts order the same way.
- Bulk request idempotency keys: the server is assumed to skip conflicts whether or not it recognises a repeated post.
- Enrichment functions and their timeouts are an outcome: applied, parked, or retried.
- AES-GCM, HMAC, YAML, zod schemas, date parsing, glob matching, adapters and secrets are parameters.
- HTTP servers, the admin UI, the CLI, metrics, logging, manifests, migrations and deployment.
