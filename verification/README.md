# StockPilot: models and proofs

StockPilot is a store and inventory backend. This project models its hand-written protocols and calculations in Dafny 4.11 and proves what they keep over every run. `dafny verify dfyconfig.toml` checks all of it.

## What is modelled

| modules | what they are about |
|---|---|
| RecomputeQueue, RecomputeRuns, RecomputeData | the coalescing post-commit recompute queue |
| Idempotency, IdempotencyRuns, IdempotencyResults | the idempotency-key protocol under concurrent requests and crashes |
| CanonicalJson, CanonicalJsonProofs | the canonical JSON printer behind the request hash |
| Alerts, AlertRuns, AlertOutcomes, AlertRaces | the alert lifecycle of a SKU, and requests that overlap on one alert |
| ImportCommit, ImportRuns, ImportCatalogue, ImportRaces | the resumable commit of a bulk import, what it writes, and overlapping commits |
| SuggestionRanking, SuggestionScores, SuggestionProofs | the assistant's next best actions |
| BusinessDate, BusinessCalendar | business-day keys and their UTC ranges |
| DailySales, DailySalesRuns, DailySalesRecords | the rebuilt daily sales summary |
| Sessions, SessionOutcomes, SessionRuns | refresh-token rotation, logout and password reset |
| NightlyJob, NightlyWork, WorkerPool | the database lease, the nightly job and its loops, bounded concurrency |
| Base32, Base32Text, TwoFactor, TwoFactorRaces, LoginGuard | one-time codes, two-factor state, second factors that overlap, login lockout |
| Risk, RiskRules, Pricing, PricingRules | risk scores, reorder quantity and price recommendations |
| HistoricalSales, HttpMetrics, Cosine | historical import, request metrics, vector similarity |

A protocol is a state, one function per step, and runs that are arbitrary lists of steps; a step is what happens between two `await`s, or one statement or transaction of the database. The classes have the fields the source updates, and each of their methods is proved to do what the step function says; the properties are then lemmas about every run of those functions. Where the code and what it says about itself disagree, the code is modelled and the difference is a result:

- Flushing an idle, empty recompute queue stores a promise that nothing clears. From then on no promise of `enqueue` resolves (`WedgedIffIdleFlush`, `FlushThenEnqueueIsNeverServed`). In every other run the promise of its comment holds.
- After a crash recovery finds the committed effect in every case for order create, return create and inventory operations alone. All others but two refuse a second execution by a unique key or a status guard of their own; creating a stock take and entering its counts have neither, and a retry executes them again (`IdempotencyRuns.AtMostOnceIff`, `RetryExecutesAgain`).
- Recovery of an inventory operation matches movement keys by their start, so it can answer with the movements of a longer key and complete a FAILED row with them. It answers with its own alone exactly when no other movement key starts with the effect key (`OwnRecoveryRunsIff`, `StatusIsFinalIff`, `FailedRowCompleted`). Recovery of a confirmation or a cancellation goes by the order's status and answers for another key exactly when the order has, or is given, that status without this key (`OwnStatusRunsIff`).
- A stored response can be replaced by another one while retries overlap (`CompletedResponseReplaced`); `OverwrittenIff` gives the exact condition, over all continuations and over those in which no handler outlives its lease.
- A sync or an acknowledgement that read an alert before its owner resolved it writes what it read, and the alert comes back though no sync has seen its condition clear. The resolution stands exactly when no such request is in flight (`ResolutionStaysIff`, `OverlapReopens`).
- Second factors that overlap can accept one recovery code twice, or one step twice, against the comment. They keep both promises exactly when every save would pass a guard on the stored row, which the code does not have (`GuardedIffPromised`, `RecoveryCodeTwice`).
- The nightly job compares the last date for equality only, so an instance held up until the next night repeats a finished date (`StalledCallerRepeatsDate`). Every date completes at most once exactly if the second check comes on the business day of the call (`NightlyJob.AtMostOnceIff`).
- A request that finds an import job expired writes EXPIRED without looking again and can overwrite COMPLETED; a process that stops at work leaves the job COMMITTING for ever (`CompletedStaysIff`, `CommittingForeverIff`).
- `Date.UTC` reads the years 0 to 99 as 1900 to 1999, so adding business days is an identity and additive exactly from year 100 on (`AddZeroIff`, `AddIsAdditiveIff`). Formatting does not pad the year, so keys and ranges match exactly from year 1000 on.
- A recommendation keeps the minimum margin exactly if that margin is below 1, for items with a cost. An item without a cost is marked down to zero exactly when its discounted price is below 500 (`FreeItemPositiveIff`, `FreeItemMarkedToZero`).
- More stock can lower the overstock score, since the cover is rounded to a tenth of a day and the demand implied by it can fall below the 5 units a week from which a fall in sales counts (`RoundedCoverMonotoneIff`, `SixthUnitLowersScore`).
- The suggestion comment says a reorder supersedes the SKU's stock-out and low-stock alerts. The code drops every alert of that SKU (`DocumentedIff`, `UnusualDemandDropped`).
- The metrics snapshot is labelled with 24 hours back from now and counts from the start of an hour up to an hour later (`LabelledWindowIff`).
- Two overlapping commits of one historical import insert once, and the second stores a count of 0 (`SecondCommitResetsCount`, `CountStaysRightIff`).
- A rebuild turns its keys into dates at midnight UTC and back into keys of the local zone; they come back unchanged exactly in zones from 0 to under 24 hours ahead of UTC (`StoredDateRoundTripIff`).

What the models take as given:

- Rows, keys, hashes, tokens and identifiers are numbers, equal exactly when the originals are; hashes do not collide. Clocks are integers in milliseconds.
- Map and Set iteration order in the recompute queue is left open, so its results hold for insertion order as well.
- Nothing is assumed about how long a handler or an instance takes: `OnTime` and `NoLapse` name the runs in which no idempotent handler acts past its lease, `Timely` those in which no nightly instance does.
- A handler of an idempotent operation answers below 400 exactly when its transaction has gone through, and an import also when its job is done or its rows are there already. A POS sale finds its store and a warehouse, and writes its payment and its stock movement with the order (src/modules/pos/pos.service.ts:22-237).
- The guards of the idempotent operations: unique keys for order create and POS sale (prisma/schema.prisma:431, src/modules/pos/pos.service.ts:128), return create (prisma/schema.prisma:508), inventory movements (prisma/schema.prisma:386, src/modules/inventory/stock-ledger.service.ts:57) and the row hashes of a historical import, whose second insertion is skipped; status guards for confirming and canceling an order (src/modules/orders/order.service.ts:198 and 360), committing an import (src/modules/import-export/import-export.service.ts:387) and starting, completing and canceling a stock take (src/modules/stock-takes/stock-take.service.ts:117, 193 and 320); none for creating a stock take and entering counts (src/modules/stock-takes/stock-take.service.ts:59 and 156).
- The stock ledger and the price history of an import are its abstract contracts: an atomic add, a deduction that fails on shortage, a replacement by count, each with a unique movement key. Nothing else writes the store between the attempts of one job.
- The syncs of a SKU wait for each other, on the lock of its row (src/modules/decision-engine/decision-engine.service.ts:208); an acknowledgement or a resolution takes no lock when it reads the alert.
- The set of active SKUs of a store may change between any two queries of the nightly loop, finitely often.
- Scores, prices and vectors are exact reals, and the square root is any function with its meaning; money in imports and sales is whole in the smallest unit.
- A fixed UTC offset stands for the configured time zone; the default zone, Asia/Ho_Chi_Minh, has kept one since 1975.
- The history fields named in the modules (`log`, `completed`, `issued`, `root` and the like) record what happened and influence nothing.

## Model

| member | source | states |
|---|---|---|
| RecomputeQueue.DecisionRecomputeQueue.constructor | src/modules/decision-engine/recompute-queue.ts:28-38 | a new queue has no pending work, no waiter, no timer and no stored promise |
| RecomputeQueue.DecisionRecomputeQueue.Enqueue | src/modules/decision-engine/recompute-queue.ts:41-56 | the pending ids and days of the store grow by exactly the positive ids and the keys of the call, other stores are unchanged, and a promise is handed out unless there is no positive id and no key |
| RecomputeQueue.EnqueuedPending | src/modules/decision-engine/recompute-queue.ts:42-51 | the same of the step that the runs take: a positive id that is passed is pending, and nothing else is added |
| RecomputeQueue.DecisionRecomputeQueue.Schedule | src/modules/decision-engine/recompute-queue.ts:74-83 | starts a timer unless there is one or a promise is stored |
| RecomputeQueue.DecisionRecomputeQueue.RunDrain | src/modules/decision-engine/recompute-queue.ts:85-112 | the synchronous part of drain(): on an empty queue the body and its finally run first and the promise is stored after them |
| RecomputeQueue.DecisionRecomputeQueue.OnTimer | src/modules/decision-engine/recompute-queue.ts:78-81 | the timer callback: forget the timer, drain |
| RecomputeQueue.DecisionRecomputeQueue.Flush | src/modules/decision-engine/recompute-queue.ts:66-72 | cancels the timer and drains |
| RecomputeQueue.DecisionRecomputeQueue.RebuildRange | src/modules/decision-engine/recompute-queue.ts:115-122 | a rebuild covers exactly the days from the least to the greatest of the collected date keys, both included |
| RecomputeQueue.DecisionRecomputeQueue.OnRebuildReturned | src/modules/decision-engine/recompute-queue.ts:117-128 | after the rebuild, failed or not, the SKUs of the store follow |
| RecomputeQueue.DecisionRecomputeQueue.OnSkuReturned | src/modules/decision-engine/recompute-queue.ts:129-139 | after a recomputation, failed or not, the next SKU follows |
| RecomputeQueue.DecisionRecomputeQueue.OnStoreReturned | src/modules/decision-engine/recompute-queue.ts:92-108 | after the last store the waiters of the batch resolve, new work starts the next cycle, and an empty queue clears the promise |
| RecomputeRuns.RunShape | src/modules/decision-engine/recompute-queue.ts:28-112 | in every run at most one drain is active, a live drain has a stored promise, and every promise is in exactly one of resolved, batch and waiting, in the order of the calls: none dropped, none resolved twice |
| RecomputeRuns.WedgedIffIdleFlush | src/modules/decision-engine/recompute-queue.ts:66-111 | a stored promise without a running drain occurs in exactly the runs that flush an idle, empty queue |
| RecomputeRuns.PendingIsServedIff | src/modules/decision-engine/recompute-queue.ts:74-112 | pending work has a timer or a running drain if and only if the queue is not wedged |
| RecomputeRuns.WedgedForever | src/modules/decision-engine/recompute-queue.ts:74-91 | after an idle flush no later event of any kind resolves a promise or takes pending work |
| RecomputeRuns.FlushThenEnqueueIsNeverServed | src/modules/decision-engine/recompute-queue.ts:66-111 | counterexample: flush a new queue, enqueue one SKU, and its promise never resolves |
| RecomputeRuns.DrainFinishes | src/modules/decision-engine/recompute-queue.ts:90-108 | a running drain, left to start and return from its transactions, ends with nothing pending and nobody waiting |
| RecomputeRuns.AllCanResolveIff | src/modules/decision-engine/recompute-queue.ts:41-112 | the process on its own can resolve every promise handed out, except exactly when an idle flush wedged it and somebody waits |
| RecomputeRuns.RunCovered | src/modules/decision-engine/recompute-queue.ts:41-56 | in every run, commits and calls between the reading and the writing of a rebuild or a recomputation included: whatever is out of date is still to be announced, pending, in the unprocessed part of the batch, or its last attempt failed; and what has changed since the transaction in flight read it is queued again |
| RecomputeRuns.QuietIsFresh | src/modules/decision-engine/recompute-queue.ts:85-147 | once quiet, a SKU whose last recomputation did not fail is up to date, and so are the summaries whose rebuilds did not fail |
| RecomputeRuns.QuietEqualsDirect | src/modules/decision-engine/recompute-queue.ts:20-24 | coalescing is sound: with no failure, a quiet queue has left exactly the data of handling every event by itself at once |
| RecomputeRuns.ResolvedMeansAttempted | src/modules/decision-engine/recompute-queue.ts:40-55 | a resolved promise means that for every SKU and date key of its call an attempt was begun after the call |
| RecomputeData.RebuildStarts | src/modules/decision-engine/recompute-queue.ts:114-123 | a rebuild reads the sales of the store the drain is at, for its days, and writes nothing yet |
| RecomputeData.RebuildWrites | src/modules/daily-sales-summary/daily-sales-summary.service.ts:61-320 | a rebuild replaces the summaries from the first to the last of its days by what it has read, and nothing else; a failed one writes nothing |
| RecomputeData.RecomputeStarts | src/modules/decision-engine/decision-engine.service.ts:200-212 | a recomputation reads the stock and the summaries of its SKU, beside no other transaction |
| RecomputeData.RecomputeWrites | src/modules/decision-engine/decision-engine.service.ts:200-230 | and writes what it derived from them, for that SKU alone |
| Idempotency.IdempotencyRow.Find | src/common/middleware/idempotency.ts:69-128 | every branch after the first lookup: reuse conflict, replay, lease running, recovery, failed, no row |
| Idempotency.IdempotencyRow.Create | src/common/middleware/idempotency.ts:130-143 | inserts the row or, on the unique key, looks again |
| Idempotency.IdempotencyRow.Look | src/common/middleware/idempotency.ts:144-178 | every branch after the second lookup; this path never reclaims |
| Idempotency.IdempotencyRow.TryRecover | src/common/middleware/idempotency.ts:220-350 | asks for a committed outcome, for inventory by the prefix of the movement key, and goes on to complete, reclaim or reject; RecoveryAnswersIff says when there is one |
| Idempotency.IdempotencyRow.Complete | src/common/middleware/idempotency.ts:96-105 | stores the recovered outcome and replays it, whatever the row holds by then |
| Idempotency.IdempotencyRow.Reclaim | src/common/middleware/idempotency.ts:108-122 | the compare-and-set on status, identity and lease; the winner runs the handler |
| Idempotency.IdempotencyRow.Handle | src/modules/orders/order.service.ts:198-236 | the business transaction under the guard of its operation: unique keys, a status it moves on, or none; a refusal leaves nothing behind |
| Idempotency.IdempotencyRow.Answer | src/common/middleware/idempotency.ts:189-214 | an answer below 400 completes the row with its response, any other fails it; whoever has committed answers below 400 |
| IdempotencyRuns.RunSafe | src/common/middleware/idempotency.ts:68-218 | at most one handler is inside its lease, and none can commit after a commit, as long as no handler acts past its lease and no recovery misses a committed effect |
| IdempotencyRuns.AtMostOnce | src/common/middleware/idempotency.ts:68-218 | whatever guards the handlers have, the business effect commits at most once in every run in which no handler acts past its lease and no recovery misses a committed effect |
| IdempotencyRuns.RecoveredOperations | src/common/middleware/idempotency.ts:220-350 | recovery finds a committed effect whatever else the database holds for order create, return create and inventory operations, and for no others; all three insert under unique keys |
| IdempotencyRuns.AtMostOnceIff | src/common/middleware/idempotency.ts:220-350 | over all runs the effect of an operation commits at most once, exactly but for creating a stock take and entering its counts |
| IdempotencyRuns.GuardedAtMostOnce | prisma/schema.prisma:386-508 | an effect under unique keys or a status guard commits at most once in every run, handlers past their lease and missed recoveries included |
| IdempotencyRuns.RetryExecutesAgain | src/modules/stock-takes/stock-take.service.ts:59-74 | counterexample for the operations without a guard, such as creating a stock take: a retry after a crash executes it a second time, though no handler outlives its lease |
| IdempotencyRuns.NoHandlerStartsAfterCommit | src/common/middleware/idempotency.ts:108-141 | after a commit no further request gets to run the handler, unless its recovery missed the effect or a handler acts past its lease |
| IdempotencyRuns.RetryRecovers | src/common/middleware/idempotency.ts:89-106 | after a crash between commit and answer, a retry past the lease that takes its turns is answered from the committed effect and nothing more commits, whatever other requests do between its turns |
| IdempotencyRuns.OwnRecoveryIff | src/common/middleware/idempotency.ts:315-319 | at every point recovery by effect key speaks of the effect of this key alone if and only if no other key committed to the ledger starts with the effect key |
| IdempotencyRuns.OwnRecoveryRunsIff | src/common/middleware/idempotency.ts:315-319 | over all runs in which others commit keys of a given kind, an inventory recovery never answers with the movements of another key if and only if none of those keys starts with the effect key |
| IdempotencyRuns.ForeignRecovered | src/common/middleware/idempotency.ts:63-65 | counterexample: a movement under a longer key is recovered for this one although nothing of this key has committed |
| IdempotencyRuns.OwnStatusRunsIff | src/common/middleware/idempotency.ts:336-347 | over all runs in which others change the order in given ways, recovery of a confirmation or a cancellation never answers for another key if and only if the order neither has the status recovery asks for nor is given it |
| IdempotencyRuns.AnsweredAlike | src/common/middleware/idempotency.ts:80-87 | any two requests that are answered by a handler or a replay have the same identity hash |
| IdempotencyRuns.StatusIsFinal | src/common/middleware/idempotency.ts:84-127 | for the recovered operations a row that is COMPLETED or FAILED keeps that status through every run in which no handler acts past its lease and no other movement key starts with the effect key |
| IdempotencyRuns.StatusIsFinalIff | src/common/middleware/idempotency.ts:315-319 | over all runs in time in which others commit keys of a given kind, the status of a finished inventory row never changes if and only if none of those keys starts with the effect key |
| IdempotencyRuns.FailedRowCompleted | src/common/middleware/idempotency.ts:94-106 | counterexample: a movement under a longer key turns a FAILED row into a COMPLETED one with the data of another request |
| IdempotencyRuns.OverwrittenIff | src/common/middleware/idempotency.ts:94-106 | some continuation, or some continuation in time, changes a stored response if and only if a handler is in flight, inside its lease where only continuations in time are asked for, or a request is about to ask for an outcome that can be there, or one is about to store another outcome |
| IdempotencyRuns.CompletedResponseReplaced | src/common/middleware/idempotency.ts:96-104 | counterexample: a stored response is replaced by a different one, the lookup of one retry and the reclaim of another overlapping |
| IdempotencyRuns.SettledForever | src/common/middleware/idempotency.ts:84-87 | once nobody is in flight that could write, the response and the effects never change and every later request gets the replay or a conflict |
| IdempotencyResults.RecoveryAnswersIff | src/common/middleware/idempotency.ts:220-350 | recovery answers if and only if the operation has a query and its result is there, on the rows: the order, its payment, store, movement and warehouse for a POS sale, CONFIRMED or FULFILLED for a confirmation, CANCELED for a cancellation; with the code of the operation and the row found |
| IdempotencyResults.CommitLeavesResult | src/modules/orders/order.service.ts:198-236 | a transaction that goes through leaves that result, with the status of its operation, and one under a status guard finds none before |
| IdempotencyResults.AnsweredHasResult | src/common/middleware/idempotency.ts:68-214 | in every run, lapses and crashes included, a request answered below 400 has the code of its operation, its result was there, and what lasts of it is there still |
| IdempotencyResults.RetryExecutes | src/common/middleware/idempotency.ts:89-124 | after a crash before the commit, a retry past the lease that takes its turns runs the handler, if no result appears and nobody else writes the row, whatever else other requests do between its turns |
| IdempotencyResults.NextAfterAnswer | src/common/middleware/idempotency.ts:84-127 | after a handler has answered, the next request of the same identity gets that answer if its code is below 400, and a refusal from 400 on |
| IdempotencyResults.FoundIs | src/common/middleware/idempotency.ts:69-128 | what every request is told or does next after the first look at the row, on its fields |
| IdempotencyResults.LookedIs | src/common/middleware/idempotency.ts:144-178 | the same after the second look |
| IdempotencyResults.RowWrites | src/common/middleware/idempotency.ts:94-143 | what creating, reclaiming and completing write to the row, and from when the lease runs |
| CanonicalJsonProofs.ParseInvertsStringify | src/common/middleware/idempotency.ts:18-27 | a parser undoes the printer up to the order of object keys |
| CanonicalJsonProofs.SameIffNormal | src/common/middleware/idempotency.ts:25 | two values are equal up to key order exactly when sorting all keys makes them equal |
| CanonicalJsonProofs.StringifyInjective | src/common/middleware/idempotency.ts:18-27 | two values print the same if and only if they are equal up to key order |
| Alerts.AlertService.SyncAlertsForSku | src/modules/alerts/alert.service.ts:251-355 | one sync: upsert or reopen every trigger, resolve every other type, hand user-resolved alerts of cleared types back to the engine |
| Alerts.AlertService.ActiveTypes | src/modules/alerts/alert.service.ts:255 | the set of types with a trigger |
| Alerts.AlertService.RaiseTriggers | src/modules/alerts/alert.service.ts:258-313 | the upsert loop with its notifications |
| Alerts.AlertService.ResolveInactive | src/modules/alerts/alert.service.ts:324-339 | the resolve loop over all six types |
| Alerts.AlertService.HandBack | src/modules/alerts/alert.service.ts:343-354 | the bulk update of resolvedBy |
| Alerts.AlertService.AcknowledgeAlert | src/modules/alerts/alert.service.ts:480-535 | OPEN becomes ACKNOWLEDGED; repeating is a no-op unless a note comes with it; a resolved alert is a conflict |
| Alerts.AlertService.ResolveAlert | src/modules/alerts/alert.service.ts:541-585 | resolves by hand, remembering the user; repeating is a no-op |
| AlertRuns.ActiveIff | src/modules/alerts/alert.service.ts:130-255 | which of the six types a sync sees as active, on the fields of the evaluation: LOW_STOCK, for one, is active if and only if there is stock, and it is at or below the reorder point or the stock-out score is high |
| AlertRuns.SyncedAt | src/modules/alerts/alert.service.ts:257-355 | a sync acts on each type separately: its row is raised if its condition is active and cleared otherwise, and notified exactly on create and reopen |
| AlertRuns.StepAt | src/modules/alerts/alert.service.ts:480-585 | syncs, acknowledgements and resolutions change the row of each type as described and no other row |
| AlertRuns.RunInvariants | src/modules/alerts/alert.service.ts:142-255 | in every run live alerts carry no resolvedBy, and STOCKOUT with LOW_STOCK, DEAD_STOCK with OVERSTOCK and DEAD_STOCK with SLOW_MOVING are never live together |
| AlertRuns.UserResolvedStays | src/modules/alerts/alert.service.ts:285-289 | a user-resolved alert keeps its whole row through every run in which no sync sees its condition inactive |
| AlertRuns.ReopenNeedsClear | src/modules/alerts/alert.service.ts:285-289 | a user-resolved alert is live again only after some sync saw its condition inactive |
| AlertRuns.ClearedThenReopened | src/modules/alerts/alert.service.ts:341-354 | the sync that sees the condition clear hands the alert back without notice, and the next active sync reopens and announces it once |
| AlertRuns.NotificationsAreOpenings | src/modules/alerts/alert.service.ts:283-311 | over a run the store is notified of a type exactly as often as its alert was created or reopened |
| AlertRuns.SyncIdempotent | src/modules/alerts/alert.service.ts:257-355 | repeating a sync changes no row and notifies nobody |
| AlertRuns.AckSurvives | src/modules/alerts/alert.service.ts:291-306 | while its condition persists an alert keeps its status, acknowledgement and opening time through every sync |
| AlertOutcomes.TriggerCarries | src/modules/alerts/alert.service.ts:150-248 | the severity and the risk score of every trigger, on the fields of the evaluation |
| AlertOutcomes.SyncOutcome | src/modules/alerts/alert.service.ts:257-355 | the whole row of every type after a sync, on the fields of the evaluation, and whether it is announced |
| AlertOutcomes.RunSyncOutcome | src/modules/alerts/alert.service.ts:257-355 | the same at every sync of every run from the start |
| AlertOutcomes.OwnerOutcome | src/modules/alerts/alert.service.ts:480-575 | when acknowledging or resolving is refused, when it changes nothing, and the row it leaves |
| AlertOutcomes.CleanNoteIs | src/modules/alerts/alert.service.ts:497 | the stored note is the typed one without the white space around it, or none |
| AlertRaces.AtOnce | src/modules/alerts/alert.service.ts:258-313 | a read and the write that follows it at once do what the whole sync, acknowledgement or resolution does |
| AlertRaces.ResolutionStaysIff | src/modules/alerts/alert.service.ts:285-313 | at every point of every run in which requests overlap: a resolution by the owner stands, and the alert stays away, until a sync sees the condition clear, if and only if no sync and no acknowledgement that read the row before is in flight |
| AlertRaces.OverlapReopens | src/modules/alerts/alert.service.ts:541-585 | counterexample: a sync reads an open alert, its owner resolves it, and after the write of that sync the next one opens it again though none saw its condition clear |
| ImportCommit.ImportJobs.constructor | src/modules/import-export/import-export.service.ts:387-404 | a previewed job has every checkpoint pending |
| ImportCommit.ImportJobs.CommitImport | src/modules/import-export/import-export.service.ts:374-820 | one commit attempt: its gates, the chunks, and the failure path |
| ImportCommit.ImportJobs.LoadTodo | src/modules/import-export/import-export.service.ts:408-414 | loads the pending and failed rows in row order |
| ImportCommit.ImportJobs.RunChunks | src/modules/import-export/import-export.service.ts:484-750 | chunk after chunk, stopping at the first that fails |
| ImportCommit.ImportJobs.MarkProcessing | src/modules/import-export/import-export.service.ts:495-500 | the rows of a chunk become PROCESSING before its transaction |
| ImportCommit.ImportJobs.RunTransaction | src/modules/import-export/import-export.service.ts:502-749 | effects and checkpoints of a chunk commit together or not at all |
| ImportCommit.ImportJobs.ReleaseRows | src/modules/import-export/import-export.service.ts:805-814 | rows still PROCESSING become FAILED |
| ImportRuns.ChunkFollows | src/modules/import-export/import-export.service.ts:502-749 | a chunk transaction does to its rows what one straight pass does, or nothing, and commits exactly when no row is in error and no fault strikes |
| ImportRuns.ChunksFollow | src/modules/import-export/import-export.service.ts:484-750 | the chunk loop stops on a chunk boundary of 100 rows, everything before it as in the straight pass and nothing after it touched |
| ImportRuns.AttemptProgress | src/modules/import-export/import-export.service.ts:387-820 | every attempt keeps the finished prefix and its effects, never undoes a row, and succeeds on an open job without faults exactly when no row is in error |
| ImportRuns.RunProgress | src/modules/import-export/import-export.service.ts:387-820 | the same for every history of attempts and failures |
| ImportRuns.CompletedEqualsStraight | src/modules/import-export/import-export.service.ts:406-414 | resuming equals running once: any history that completes leaves the store and checkpoints of one uninterrupted pass in row order |
| ImportRuns.RetryCompletesIff | src/modules/import-export/import-export.service.ts:387-414 | after any history, one more fault-free attempt completes the job if and only if no row of the file is in error |
| ImportRuns.EffectsIffCompleted | src/modules/import-export/import-export.service.ts:724-745 | after any history the store holds exactly the effects of the rows whose checkpoint is COMPLETED, each once, in row order |
| ImportRuns.StockReached | src/modules/import-export/import-export.service.ts:644-722 | every SKU ends at the quantity its mode asks for, read off the file, and the ledger accounts for the whole difference |
| ImportRuns.StockStaysNonNegative | src/modules/import-export/import-export.service.ts:686-700 | no row drives a quantity below zero |
| ImportRuns.LedgerOnce | src/modules/import-export/import-export.service.ts:644-670 | ledger entries come in row order, at most one a row, and only from completed rows |
| ImportRuns.HistoryStock | src/modules/import-export/import-export.service.ts:644-722 | stock targets and ledger order hold after any history, failed or not |
| ImportRuns.RepliesAre | src/modules/import-export/import-export.service.ts:374-404 | what every call answers, gate by gate, and that a gate that stops it changes nothing but an expired status |
| ImportCatalogue.RowFailsIff | src/modules/import-export/import-export.service.ts:541-720 | exactly when a row is in error, on its fields and the store |
| ImportCatalogue.CreatedAsFirst | src/modules/import-export/import-export.service.ts:625-640 | CREATE_ONLY stores a new SKU with name, barcode, prices, levels and product of the first row that names it |
| ImportCatalogue.UpsertedAsLast | src/modules/import-export/import-export.service.ts:590-601 | UPSERT_METADATA leaves a SKU with the name, cost, selling price and levels of the last row that names it |
| ImportCatalogue.LastBarcode | src/modules/import-export/import-export.service.ts:595 | the barcode is the last one given by a row of the SKU |
| ImportCatalogue.NoBarcode | src/modules/import-export/import-export.service.ts:595 | a SKU whose rows give no barcode keeps its own |
| ImportCatalogue.ProductStays | src/modules/import-export/import-export.service.ts:591-601 | an update keeps the product and the activity of a SKU |
| ImportCatalogue.ProductOfFirst | src/modules/import-export/import-export.service.ts:625-640 | a SKU new to UPSERT_METADATA is active under the product of its first row |
| ImportCatalogue.ItemUntouched | src/modules/import-export/import-export.service.ts:526-549 | a SKU that no row names, or that CREATE_ONLY or a stock mode finds, is unchanged |
| ImportCatalogue.CategoryAsLast | src/modules/import-export/import-export.service.ts:552-567 | a category carries the name of the last row that writes it |
| ImportCatalogue.ProductAsLast | src/modules/import-export/import-export.service.ts:570-587 | a product carries the name and category of the last row that writes it |
| ImportCatalogue.NamesUntouched | src/modules/import-export/import-export.service.ts:545-587 | categories and products that no row writes are unchanged |
| ImportCatalogue.PricesRecorded | src/modules/import-export/import-export.service.ts:605-624 | the price history gets one entry for each row that changes a selling price, with the price before and after, and recommendations expire once for each row that changes cost or price |
| ImportCatalogue.StockModesKeepCatalogue | src/modules/import-export/import-export.service.ts:545-549 | the stock modes leave the whole catalogue alone |
| ImportCatalogue.HistoryIsPass | src/modules/import-export/import-export.service.ts:387-820 | after any history of attempts and failures the store is that of a straight pass over the finished rows, so all of these hold of it |
| ImportRaces.OneWorker | src/modules/import-export/import-export.service.ts:387-404 | of overlapping commits of one job at most one is at work, at every point of every run |
| ImportRaces.OverlapsAreSequential | src/modules/import-export/import-export.service.ts:328-404 | every interleaving of commits, late expiries and stopped processes leaves the store that some sequence of attempts, one after the other, leaves |
| ImportRaces.OverlapsEqualStraight | src/modules/import-export/import-export.service.ts:328-820 | whatever overlapped, a COMPLETED job has the store and checkpoints of one uninterrupted pass over the file |
| ImportRaces.CompletedStaysIff | src/modules/import-export/import-export.service.ts:350-356 | a COMPLETED job stays COMPLETED in every continuation if and only if no request is still to write EXPIRED |
| ImportRaces.CompletedThenExpired | src/modules/import-export/import-export.service.ts:350-356 | counterexample: a request that read the job after it expired writes EXPIRED over the COMPLETED of one that read it in time |
| ImportRaces.CommittingForeverIff | src/modules/import-export/import-export.service.ts:346-348 | a COMMITTING job is left so for ever, every later commit refused as busy, if and only if its worker has stopped and no request is still to write EXPIRED |
| SuggestionRanking.RankSuggestions | src/modules/assistant/suggestion-ranking.ts:149-185 | the whole ranking equals sort, one per SKU, capped pass, top-up and sort |
| SuggestionRanking.OnePerSku | src/modules/assistant/suggestion-ranking.ts:156-163 | keeps the first admissible suggestion of every SKU |
| SuggestionRanking.PickVaried | src/modules/assistant/suggestion-ranking.ts:165-182 | the capped pass with its early stop, then the top-up |
| SuggestionRanking.FillUp | src/modules/assistant/suggestion-ranking.ts:179-182 | fills up with skipped suggestions while there is room |
| SuggestionScores.ReorderScored | src/modules/assistant/suggestion-ranking.ts:109-121 | kind, target and SKU of a reorder suggestion, and its score in parts: urgency by stock and cover against twice the lead time, impact and confidence with their defaults, and age |
| SuggestionScores.AlertScored | src/modules/assistant/suggestion-ranking.ts:123-132 | the same for an alert, whose urgency goes by severity |
| SuggestionScores.PricingScored | src/modules/assistant/suggestion-ranking.ts:134-144 | the same for a price recommendation, whose impact is full from a change of a fifth on |
| SuggestionScores.AllScoredIs | src/modules/assistant/suggestion-ranking.ts:150-154 | every candidate is scored once, reorders before alerts before recommendations |
| SuggestionScores.FirstIff | src/modules/assistant/suggestion-ranking.ts:146-148 | which of two suggestions goes first, ties included |
| SuggestionScores.FilledWithBest | src/modules/assistant/suggestion-ranking.ts:168-185 | a winner is left out only of a full list, and after all the ones topped up |
| SuggestionProofs.AllInRange | src/modules/assistant/suggestion-ranking.ts:85-143 | every candidate is scored in [0, 100] |
| SuggestionProofs.ScoreMonotone | src/modules/assistant/suggestion-ranking.ts:94-97 | a score never falls when urgency, impact, confidence or age rises; full marks make 100 and the three weights are 45, 35 and 20 |
| SuggestionProofs.ReorderOutranks | src/modules/assistant/suggestion-ranking.ts:109-112 | of two reorders alike but for stock, cover and age, the one out of stock or covering fewer days, and no younger, does not score lower |
| SuggestionProofs.SortSorts | src/modules/assistant/suggestion-ranking.ts:145-154 | the sort orders by score, kind and target |
| SuggestionProofs.WinnersBest | src/modules/assistant/suggestion-ranking.ts:156-162 | every admissible candidate is represented by a winner of its SKU that goes no later |
| SuggestionProofs.DocumentedIff | src/modules/assistant/suggestion-ranking.ts:10-163 | the suggestion that stands for each SKU is the one the comment calls for if and only if no alert other than stock-out and low stock, on a SKU to reorder, comes first for its SKU |
| SuggestionProofs.UnusualDemandDropped | src/modules/assistant/suggestion-ranking.ts:156-163 | counterexample: a critical alert of unusual demand with the higher score is dropped for a reorder of its SKU |
| SuggestionProofs.FirstPassIsOptimal | src/modules/assistant/suggestion-ranking.ts:165-178 | the first pass has the greatest total score of all selections of at most limit winners with at most three of a kind |
| SuggestionProofs.FirstPassIsAChoice | src/modules/assistant/suggestion-ranking.ts:169-178 | the first pass is itself such a selection |
| SuggestionProofs.PassAhead | src/modules/assistant/suggestion-ranking.ts:169-178 | on every prefix the pass has picked at least as many as any feasible selection |
| SuggestionProofs.RankedShape | src/modules/assistant/suggestion-ranking.ts:149-185 | the final list has min(limit, winners) items, is sorted, has one per SKU and only winners |
| SuggestionProofs.OrderIrrelevant | src/modules/assistant/suggestion-ranking.ts:8-12 | when (kind, target) keys are distinct the list does not depend on the order of the candidates |
| BusinessDate.YearLengths | src/common/utils/business-date.ts:127-131 | the years of section 21.4.1 of ECMA-262 lie end to end, of 365 or 366 days |
| BusinessDate.CalendarIs | src/common/utils/business-date.ts:127-131 | day 0 is 1 January 1970, the months follow each other after 31, 28 or 29, 30 days and the years after December, and the days of a month count up |
| BusinessDate.MonthsRollOver | src/common/utils/business-date.ts:127-131 | a month outside the year is one of a later or an earlier year |
| BusinessDate.ValidDateIs | src/common/utils/business-date.ts:127-131 | which dates there are, 29 February exactly in leap years |
| BusinessDate.DayOrder | src/common/utils/business-date.ts:127-139 | day numbers order valid dates as the calendar does |
| BusinessDate.DayOfCivil | src/common/utils/business-date.ts:91-98 | the date of a day number is valid and has that day number |
| BusinessDate.CivilOfDay | src/common/utils/business-date.ts:91-98 | key to day to key is the identity on valid dates |
| BusinessDate.ParseKeyText | src/common/utils/business-date.ts:34-41 | a written key reads back as itself |
| BusinessDate.ParseIff | src/common/utils/business-date.ts:34-41 | a string is read as a date if and only if it is that date written out, four digits, two and two |
| BusinessDate.KeyOrderIsDayOrder | src/common/utils/business-date.ts:86-94 | the order of keys as strings is the order of their days |
| BusinessCalendar.KeyOfDay | src/common/utils/business-date.ts:96-98 | which days have a date and which of them make a key |
| BusinessCalendar.AddZeroIff | src/common/utils/business-date.ts:127-131 | adding no days gives the key back exactly for the years from 100 on |
| BusinessCalendar.AddIsAdditiveIff | src/common/utils/business-date.ts:127-131 | adding m and then n days is adding m + n exactly when the key in between is of year 100 or later |
| BusinessCalendar.CountInvertsAddIff | src/common/utils/business-date.ts:127-139 | adding the inclusive count minus one leads from one key to the other exactly from year 100 on |
| BusinessCalendar.AddInvertsCountIff | src/common/utils/business-date.ts:127-143 | the inclusive count and the elapsed days undo the addition exactly from year 100 on |
| BusinessCalendar.EachInstantInOneRange | src/common/utils/business-date.ts:86-116 | every instant lies in the half-open UTC range of exactly one key, the one it is formatted as |
| BusinessCalendar.RangesAreAdjacent | src/common/utils/business-date.ts:100-116 | the range of a day ends where the range of the next day starts |
| BusinessCalendar.KeyRangeRoundTripIff | src/common/utils/business-date.ts:86-116 | the start of the range of a key formats as that key exactly for years of four digits |
| BusinessCalendar.StoredDateRoundTripIff | src/common/utils/business-date.ts:86-94 | a key survives the way to its stored date at midnight UTC and back, which a rebuild takes, exactly for years of four digits in a zone from 0 to under 24 hours ahead of UTC |
| BusinessCalendar.DayRange | src/common/utils/business-date.ts:118-125 | the range from one key to another holds exactly the instants whose business day lies between them |
| DailySales.WindowIsDays | src/modules/daily-sales-summary/daily-sales-summary.service.ts:57-59 | the UTC window of the queries selects whole business days |
| DailySales.DailySalesSummary.Rebuild | src/modules/daily-sales-summary/daily-sales-summary.service.ts:51-321 | after a rebuild every covered (SKU, day) has the row its records sum to, or none, every other row is as before, and the count is the number of rows written |
| DailySales.DailySalesSummary.DeleteCovered | src/modules/daily-sales-summary/daily-sales-summary.service.ts:75-77 | the delete removes the rows of the range and scope |
| DailySales.DailySalesSummary.Accumulate | src/modules/daily-sales-summary/daily-sales-summary.service.ts:174-259 | the accumulator holds the sum of the queried records for every key |
| DailySales.DailySalesSummary.AddOrders | src/modules/daily-sales-summary/daily-sales-summary.service.ts:216-225 | the loop over order items |
| DailySales.DailySalesSummary.AddSales | src/modules/daily-sales-summary/daily-sales-summary.service.ts:227-239 | the loop over historical sales |
| DailySales.DailySalesSummary.AddReturns | src/modules/daily-sales-summary/daily-sales-summary.service.ts:241-259 | the loop over returns, with the reversal of cost for restocked items |
| DailySales.DailySalesSummary.GetOrCreate | src/modules/daily-sales-summary/daily-sales-summary.service.ts:195-214 | the entry of a key, empty if new |
| DailySales.DailySalesSummary.Upsert | src/modules/daily-sales-summary/daily-sales-summary.service.ts:261-315 | writes one row per entry and leaves the others |
| DailySales.DailySalesSummary.GetDailySeries | src/modules/daily-sales-summary/daily-sales-summary.service.ts:340-410 | one row a day up to the end day, zero where there is none |
| DailySalesRuns.RowsAfterHistory | src/modules/daily-sales-summary/daily-sales-summary.service.ts:51-321 | after any history of rebuilds a row is what the data called for at the last rebuild that covered it |
| DailySalesRuns.HistoriesAgree | src/modules/daily-sales-summary/daily-sales-summary.service.ts:51-321 | two histories whose last coverings read the same data end in the same table |
| DailySalesRuns.RebuildIsIdempotent | src/modules/daily-sales-summary/daily-sales-summary.service.ts:75-315 | rebuilding twice is rebuilding once |
| DailySalesRuns.RebuildInTwoParts | src/modules/daily-sales-summary/daily-sales-summary.service.ts:61-68 | rebuilding [a, b] and [b + 1, d], in either order, is rebuilding [a, d] |
| DailySalesRuns.SeriesConserves | src/modules/daily-sales-summary/daily-sales-summary.service.ts:216-262 | a step of the next: the series over covered days adds up to the postings of those days |
| DailySalesRuns.DayOrders | src/modules/daily-sales-summary/daily-sales-summary.service.ts:209-238 | the order count is over the distinct orders of the day |
| DailySalesRecords.SeriesColumns | src/modules/daily-sales-summary/daily-sales-summary.service.ts:216-262 | over any covered days, each of nine columns adds up to the fields of the fulfilled order items, historical sales and completed returns of those days: quantities, refundable amounts and totals, refunds, cost less that of restocked returns, uncosted quantity |
| DailySalesRecords.RangeConserves | src/modules/daily-sales-summary/daily-sales-summary.service.ts:90-262 | the same for the rebuilt range, the records read by their time stamps in the half-open UTC range |
| DailySalesRecords.RowExistsIff | src/modules/daily-sales-summary/daily-sales-summary.service.ts:196-214 | a covered row exists if and only if one of these records falls on its day |
| DailySalesRecords.RowOrderCount | src/modules/daily-sales-summary/daily-sales-summary.service.ts:224-296 | the order count of a row is the number of distinct orders of its day, an external order by its number and a sale without one by its time |
| DailySalesRecords.OthersKept | src/modules/daily-sales-summary/daily-sales-summary.service.ts:61-78 | rows of other days, and outside a scope that is not empty of other SKUs, are unchanged |
| Sessions.AuthService.Lookup | src/modules/auth/auth.service.ts:335-344 | finds a session by the hash of its token |
| Sessions.AuthService.RevokeSessionsOf | src/modules/auth/auth.service.ts:353-356 | revokes what is still live of one user |
| Sessions.AuthService.UseTokensOf | src/modules/auth/auth.service.ts:718-724 | marks what is still unused of one user |
| Sessions.AuthService.ReadSession | src/modules/auth/auth.service.ts:335-371 | the read of a refresh and which write it leads to |
| Sessions.AuthService.RotateSession | src/modules/auth/auth.service.ts:386-417 | the rotation transaction: replace, or revoke everything on a lost race |
| Sessions.AuthService.RevokeAfterRead | src/modules/auth/auth.service.ts:351-366 | the write after reading a revoked or an expired session |
| Sessions.AuthService.SignOut | src/modules/auth/auth.service.ts:431-447 | revokes one session of the user or all of them |
| Sessions.AuthService.ResetPassword | src/modules/auth/auth.service.ts:704-734 | consumes the token, the other tokens and every session of the user |
| SessionOutcomes.RefreshRead | src/modules/auth/auth.service.ts:327-375 | what the read of a refresh leads to, by the session it finds: revocation of all, of one, a refusal or a rotation |
| SessionOutcomes.ResetRead | src/modules/auth/auth.service.ts:655-662 | a reset goes on exactly with an unused token of an active user that has not expired |
| SessionOutcomes.ResetCommitted | src/modules/auth/auth.service.ts:703-745 | and commits exactly if it is unused and had not expired; then all tokens and sessions of the user, and no others, are spent |
| SessionOutcomes.LoggedOut | src/modules/auth/auth.service.ts:431-449 | a logout ends the one session of the user with that token, or all of the user |
| SessionOutcomes.LoggedIn | src/modules/auth/auth.service.ts:280-295 | a login adds one live session under a new hash |
| SessionRuns.RunSafe | src/modules/auth/auth.service.ts:335-423 | in every interleaving what has been answered is final, hashes are unique, and of each login at most one session is live |
| SessionRuns.OnceEach | src/modules/auth/auth.service.ts:386-417 | each refresh token rotates at most once, each reset token sets a password at most once, each login has at most one live session |
| SessionRuns.LiveBounded | src/modules/auth/auth.service.ts:386-417 | a user never has more live sessions than before plus the logins since: no refresh adds one |
| SessionRuns.NoLoginNoSession | src/modules/auth/auth.service.ts:386-423 | once a user has no live session, only a login gives one again, whatever was in flight |
| SessionRuns.RevocationIsTotal | src/modules/auth/auth.service.ts:396-404 | a detected replay and a password reset leave the user no live session at that step |
| SessionRuns.RotateOutcomeIff | src/modules/auth/auth.service.ts:387-416 | a rotation reports a replay exactly when its session is by then revoked or expired, and replaces it otherwise unless the new hash clashes |
| SessionRuns.RaceEndsEverySession | src/modules/auth/auth.service.ts:385-423 | two requests that read the same token: once one rotates it, the write of the other leaves no live session, the new one of the winner included |
| SessionRuns.ReuseEndsEverySession | src/modules/auth/auth.service.ts:351-358 | a revoked token presented again: its write leaves no live session, whatever happened in between |
| NightlyWork.LeaseRow.TryAcquire | src/common/services/db-lease.service.ts:24-42 | acquires when there is no row or the row has expired, and changes nothing otherwise |
| NightlyWork.LeaseRow.Release | src/common/services/db-lease.service.ts:45-50 | deletes the row only for its own token |
| NightlyJob.LeaseExcludes | src/common/services/db-lease.service.ts:24-64 | in every run at most one instance is in the section and within the lifetime of its lease |
| NightlyJob.EntersWhenExpired | src/common/services/db-lease.service.ts:5-9 | a crashed or overdue holder does not block the next instance once its lease has passed |
| NightlyJob.OverlapIffOverrun | src/common/services/db-lease.service.ts:36 | another instance gets in beside a holder exactly when the holder has outlived its lease |
| NightlyJob.NightlyAtMostOnce | src/modules/decision-engine/decision-jobs.service.ts:93-123 | when nobody outlives the lease and every second check is made on the business day of the call, the dates completed increase strictly: each completes at most once |
| NightlyJob.RunDates | src/modules/decision-engine/decision-jobs.service.ts:93-123 | when nobody outlives the lease, no date completes twice in a row, however late the checks |
| NightlyJob.CalledInHour | src/modules/decision-engine/decision-scheduler.ts:57-64 | an idle instance is called exactly within the nightly hour of the local day, for that day |
| NightlyJob.CompletedHadItsHour | src/modules/decision-engine/decision-scheduler.ts:57-64 | in every run, overruns included, a date that is worked for or completed had its nightly hour before |
| NightlyJob.AtMostOnceIff | src/modules/decision-engine/decision-jobs.service.ts:93-123 | with second checks at most n business days late, every date completes at most once in all such runs if and only if n is zero |
| NightlyJob.CompletingRepeatsIff | src/modules/decision-engine/decision-jobs.service.ts:104-118 | an instance about to make its second check goes on to complete a date again if and only if that date was completed before and another one since |
| NightlyJob.StalledCallerRepeatsDate | src/modules/decision-engine/decision-jobs.service.ts:97-107 | counterexample: of two instances called in the nightly hour one is held up after its first check until the next night, and completes its date after the other has completed that date and the next |
| NightlyWork.StoreEngine.RecomputeAll | src/modules/decision-engine/decision-engine.service.ts:865-873 | one attempt per SKU; failures are noted and never stop the page |
| NightlyWork.StoreEngine.RecomputeStorePage | src/modules/decision-engine/decision-engine.service.ts:851-887 | a page attempts the next SKUs its query sees, in id order; a full page counts what is left by a second query, and the cursor is absent exactly when nothing is |
| NightlyWork.FailuresAre | src/modules/decision-engine/decision-engine.service.ts:865-873 | the failures of a page are exactly its SKUs whose recomputation throws, in order |
| NightlyWork.EffectiveLimit | src/modules/decision-engine/decision-engine.service.ts:855 | the page size is the limit asked for, at most the configured maximum and at least 1 |
| NightlyWork.StoreEngine.ReconcileStore | src/modules/decision-engine/decision-jobs.service.ts:141-147 | the nightly loop over a store ends, the attempted SKUs strictly ascend, each was active at some query, and every SKU active at all of them is attempted, whatever SKUs come and go between the queries |
| NightlyWork.AfterCursor | src/modules/decision-engine/decision-engine.service.ts:858-885 | what follows the last id of a page is what follows the page |
| NightlyWork.PageHolds | src/modules/decision-engine/decision-engine.service.ts:858-863 | a page holds SKUs beyond the cursor only, all of them up to its last one, and all there are if it is not full |
| NightlyWork.SteadyStore | src/modules/decision-engine/decision-engine.service.ts:847-850 | in a store whose SKUs do not change, the contract of the loop says exactly which SKUs are attempted: the active ones, each once, in order |
| NightlyWork.SnapshotTable.PruneSnapshots | src/modules/decision-engine/decision-jobs.service.ts:174-185 | pruning in chunks removes every snapshot before the cutoff and no other, and counts them |
| WorkerPool.EachItemStartsOnce | src/modules/decision-engine/decision-engine.service.ts:155-166 | however the workers interleave, calls start in list order and each item once |
| WorkerPool.AllDone | src/modules/decision-engine/decision-engine.service.ts:155-166 | when every worker has stopped the result is the list of the values of the calls, in the order of the items |
| Base32.Base32Encode | src/common/services/totp.service.ts:11-25 | the encoder with its unmasked 32-bit accumulator produces the base-32 digits of the bytes as one number, filled up with zero bits |
| Base32.EmitSymbols | src/common/services/totp.service.ts:18-21 | the inner loop: the bits read from the 32-bit word are those of the unbounded number |
| Base32.Base32Decode | src/common/services/totp.service.ts:27-43 | the decoder produces the bytes of the symbols as one number without its last bits, or fails on a foreign character |
| Base32.EmitByte | src/common/services/totp.service.ts:37-40 | a byte read from the 32-bit word is that of the unbounded number |
| Base32.DigitOut | src/common/services/totp.service.ts:16-19 | shifting and masking a never-masked 32-bit accumulator agrees with unbounded integers on every bit that is read |
| Base32.DecodeEncode | src/common/services/totp.service.ts:11-43 | decoding undoes encoding for every byte sequence |
| Base32.EncodeDecodeIff | src/common/services/totp.service.ts:11-43 | encoding undoes decoding exactly on canonical symbol sequences |
| Base32.TextRoundTrip | src/common/services/totp.service.ts:11-43 | the round trip on text, with ceil(8n/5) symbols of the alphabet |
| Base32Text.TypedDecodes | src/common/services/totp.service.ts:27-44 | a secret typed in either case, with white space anywhere and padding at the end, decodes to the same bytes |
| TwoFactor.VerifyTotp | src/common/services/totp.service.ts:72-90 | the loop over the drift window finds the earliest matching step later than the last one used |
| TwoFactor.VerifyIff | src/common/services/totp.service.ts:68-90 | a code is accepted exactly when it belongs to a step of the window later than the last one used |
| TwoFactor.TwoFactorService.Setup | src/common/services/two-factor.service.ts:125-133 | starts a setup unless two-factor is on |
| TwoFactor.TwoFactorService.TurnOn | src/common/services/two-factor.service.ts:136-155 | a matching code of the pending secret turns it on and records its step |
| TwoFactor.TwoFactorService.ConsumeSecondFactor | src/common/services/two-factor.service.ts:199-224 | accepts a one-time code or a recovery code and stores what was consumed |
| TwoFactor.TwoFactorService.TurnOff | src/common/services/two-factor.service.ts:158-168 | password and a second factor turn it off |
| TwoFactor.StepsNeverRepeat | src/common/services/two-factor.service.ts:199-215 | while one secret stays enabled the accepted steps strictly increase |
| TwoFactor.RecoveryConserved | src/common/services/two-factor.service.ts:217-223 | stored and used recovery hashes make up those handed out, hash by hash: each use removes exactly one |
| TwoFactor.ConsumedIs | src/common/services/two-factor.service.ts:199-224 | which second factors pass, and all that one that passes changes in the row |
| TwoFactor.SwitchedIs | src/common/services/two-factor.service.ts:125-185 | what starting a setup, confirming it, turning it off and an administrator's reset need and leave |
| TwoFactorRaces.SaveKeepsIff | src/common/services/two-factor.service.ts:199-224 | an accepted save keeps both promises, no step twice and each recovery code stored or used, if and only if what the request read is up to date |
| TwoFactorRaces.PromisesHoldIff | src/common/services/two-factor.service.ts:199-224 | in every interleaving of requests both promises hold at every point if and only if every accepted request saves what is up to date at that moment |
| TwoFactorRaces.GuardedIffPromised | src/common/services/two-factor.service.ts:199-224 | the condition read off the stored row: the promises hold at every point of an interleaving if and only if every accepted request finds the recovery codes it has read and a last step before the one it accepts, or not past the one it saves |
| TwoFactorRaces.AloneIsUpToDate | src/common/services/two-factor.service.ts:199-224 | an accepted request that saves over the row it has read is up to date |
| TwoFactorRaces.RecoveryCodeTwice | src/common/services/two-factor.service.ts:217-223 | counterexample: two requests read the row before either saves, and the one recovery code is accepted for both |
| LoginGuard.GetLockState | src/common/services/login-guard.service.ts:75-124 | the lock state computed from the audit log |
| LoginGuard.LockedIff | src/common/services/login-guard.service.ts:82-120 | locked if and only if at least maxAttempts failures since the last reset fall inside the window |
| LoginGuard.UnlocksExactlyWhen | src/common/services/login-guard.service.ts:115-122 | a locked account unlocks exactly when the oldest of the newest maxAttempts failures leaves the window |
| LoginGuard.RetryAfterIs | src/common/services/login-guard.service.ts:111-123 | a locked account is told the minutes until it unlocks, rounded up, and any account how many failures count |
| LoginGuard.AttemptIs | src/common/services/login-guard.service.ts:127-160 | one entry per attempt: blocked while locked, whatever the password, and else by the password |
| LoginGuard.FailuresLock | src/common/services/login-guard.service.ts:82-147 | after maxAttempts wrong passwords every attempt is blocked, the right password included, until the first of them leaves the window |
| LoginGuard.BlockedNeverExtends | src/common/services/login-guard.service.ts:14-16 | a blocked attempt changes nothing about the lock |
| LoginGuard.NoWindowOverfull | src/common/services/login-guard.service.ts:127-147 | in a run of attempts without reset no window, wherever it lies, holds more than maxAttempts failures |
| Risk.CalculateStockoutRisk | src/modules/decision-engine/risk-evaluator.ts:201-236 | a score in [0, 100] and its place among the thresholds; nothing available is 100 and critical, stock at or below the reorder point is at least low, high with 3 tenths of it missing and critical with 7, stock above it at most 50, and zero when cover suffices and sales do not rise |
| Risk.StockoutAntitone | src/modules/decision-engine/risk-evaluator.ts:201-228 | more stock, with cover that does not fall, never raises the stock-out score, which stays in [0, 100] |
| Risk.CalculateOverstockRisk | src/modules/decision-engine/risk-evaluator.ts:253-294 | a score in [0, 100] and its place among the thresholds; stock above the maximum is at least low, half again over it at least high, and without stock above the maximum or cover above the target it is zero |
| Risk.OverstockMonotone | src/modules/decision-engine/risk-evaluator.ts:238-289 | more stock, with cover that does not fall, never lowers the overstock score, which stays in [0, 100], unless sales fall and the implied weekly demand drops below 5 units |
| Risk.ExactCoverMonotone | src/modules/decision-engine/risk-evaluator.ts:238-289 | with cover that is not rounded the overstock score never falls with more stock |
| Risk.CoverAtIs | src/modules/decision-engine/risk-evaluator.ts:170-173 | cover is known exactly at a positive rate: stock over rate to the nearest tenth |
| Risk.RoundedCoverMonotoneIff | src/modules/decision-engine/risk-evaluator.ts:167-173 | with cover rounded to a tenth, at a given rate of sales, more stock never lowers the overstock score of any SKU if and only if the rounding never takes the implied weekly demand from 5 units or more to less |
| Risk.SixthUnitLowersScore | src/modules/decision-engine/risk-evaluator.ts:167-289 | counterexample: at 0.71 units a day the sixth unit lowers the score from 69 to 62 |
| Risk.ReorderLifts | src/modules/decision-engine/risk-evaluator.ts:131-165 | an order never lifts stock above the maximum, and unless the maximum binds it reaches the statistical reorder point and the target level to within a unit |
| Risk.ReorderQuantityIs | src/modules/decision-engine/risk-evaluator.ts:141-165 | when an order is placed, and how much is ordered with and without sufficient history |
| RiskRules.StockoutScoreIs | src/modules/decision-engine/risk-evaluator.ts:201-236 | the stock-out score in its parts: missing part of the reorder point, uncovered part of the lead time and trend, and the threshold it is raised to |
| RiskRules.OverstockScoreIs | src/modules/decision-engine/risk-evaluator.ts:253-294 | the overstock score in its parts: excess over the maximum, cover beyond the target, falling demand, and the threshold it is raised to |
| Pricing.EvaluatePricing | src/modules/decision-engine/pricing-evaluator.ts:68-311 | the recommendation and the codes of its factors |
| Pricing.RecommendationKeepsMarginIff | src/modules/decision-engine/pricing-evaluator.ts:57-63 | with a positive cost every generated recommendation keeps the minimum gross margin despite the rounding, exactly when that minimum is below 1 |
| Pricing.FreeItemPositiveIff | src/modules/decision-engine/pricing-evaluator.ts:187-262 | for an item without a cost the recommended price is positive if and only if the item is not marked down or its discounted price is at least 500 |
| Pricing.FreeItemKeepsMarginIff | src/modules/decision-engine/pricing-evaluator.ts:57-262 | and it keeps the minimum gross margin exactly if moreover that minimum is not above 1 |
| Pricing.FreeItemMarkedToZero | src/modules/decision-engine/pricing-evaluator.ts:233-262 | counterexample for cost zero: a cheap item is marked down to nothing |
| Pricing.PriceMoves | src/modules/decision-engine/pricing-evaluator.ts:187-291 | which way each action moves the price, how far markdowns and markups can go, and that nothing out of stock or without evidence is marked down |
| Pricing.CorrectionIsFixedPoint | src/modules/decision-engine/pricing-evaluator.ts:93-137 | a margin correction leaves nothing about the margin to correct |
| Pricing.MarkdownsTerminate | src/modules/decision-engine/pricing-evaluator.ts:233-262 | every chain of accepted markdowns stays at or above the floor and takes at least 1000 each after the first, so it ends |
| PricingRules.Corrected | src/modules/decision-engine/pricing-evaluator.ts:93-137 | when a price is corrected and to what: the cost with 15 hundredths on top, or the floor |
| PricingRules.LeftAlone | src/modules/decision-engine/pricing-evaluator.ts:139-181 | when there is too little evidence, and that the price stays then |
| PricingRules.MovedByDemand | src/modules/decision-engine/pricing-evaluator.ts:187-311 | exactly which SKUs are marked down, by how much, which are marked up, and to which price |
| PricingRules.ReasonsAre | src/modules/decision-engine/pricing-evaluator.ts:187-311 | the codes of the reasons given |
| HistoricalSales.PreviewHistoricalSales | src/modules/historical-sales/historical-sales.service.ts:108-151 | the status of every row and counts that add up |
| HistoricalSales.ClassifiedIs | src/modules/historical-sales/historical-sales.service.ts:115-131 | which rows are INVALID, DUPLICATE, WARNING and VALID, on their fields |
| HistoricalSales.CountIs | src/modules/historical-sales/historical-sales.service.ts:115-135 | the counters of the preview are the numbers of rows of each status |
| HistoricalSales.InsertsEachNewOnce | src/modules/historical-sales/historical-sales.service.ts:118-134 | the rows to insert have distinct hashes and are exactly the new hashes before the native period |
| HistoricalSales.SetInsert | src/modules/historical-sales/historical-sales.service.ts:243-322 | whatever commits run, race or crash, the sales are those from the start and the rows of committed jobs, each once and never changed, and the reported counts add up to the growth |
| HistoricalSales.CommittedIs | src/modules/historical-sales/historical-sales.service.ts:244-325 | a commit adds the new hashes of its job, completes it and stores how many sales it has added; no other job changes |
| HistoricalSales.StoredCountIff | src/modules/historical-sales/historical-sales.service.ts:243-307 | in every run a committed job records the number of sales its commits have added if and only if it was committed once or nothing in it was new |
| HistoricalSales.CountStaysRightIff | src/modules/historical-sales/historical-sales.service.ts:204-307 | from the first commit of a job on its recorded count is right in every continuation if and only if that commit adds nothing or no second request has read the job before it |
| HistoricalSales.SecondCommitResetsCount | src/modules/historical-sales/historical-sales.service.ts:214-307 | counterexample: two requests read a fresh job with a new row, and after both commits it records 0 inserted rows |
| HttpMetrics.HttpMetricsService.Record | src/common/services/http-metrics.service.ts:37-61 | recording keeps every bucket the tally of its hour and the newest 20 errors |
| HttpMetrics.HttpMetricsService.GetBucket | src/common/services/http-metrics.service.ts:38-44 | the bucket of the hour, new after a pruning |
| HttpMetrics.HttpMetricsService.Prune | src/common/services/http-metrics.service.ts:29-34 | drops the hours before the oldest kept |
| HttpMetrics.HttpMetricsService.Snapshot | src/common/services/http-metrics.service.ts:63-85 | a snapshot is the tally of everything recorded since the oldest hour kept |
| HttpMetrics.HttpMetricsService.SumBuckets | src/common/services/http-metrics.service.ts:65-68 | the sums over the buckets |
| HttpMetrics.TallyIs | src/common/services/http-metrics.service.ts:45-50 | a tally is the number of requests of a time span, the number answered with 500 or more, and the sum of the latencies |
| HttpMetrics.NewestErrorsAre | src/common/services/http-metrics.service.ts:51-60 | the errors kept are answered with 500 or more, the last one first, and all of them if there are fewer than the limit |
| HttpMetrics.RecentAre | src/common/services/http-metrics.service.ts:80-82 | the errors reported are the kept ones younger than the window, in order |
| HttpMetrics.LabelledWindowIff | src/common/services/http-metrics.service.ts:30-71 | the snapshot counts all of the 24 hours it is labelled with exactly when nothing was recorded before the oldest hour kept |
| Cosine.CosineSimilarity | src/modules/assistant/vector-embedding.service.ts:9-36 | the dot product over both lengths, in [-1, 1]; zero for different sizes or a zero vector, one for a vector and itself |
| Cosine.CauchySchwarz | src/modules/assistant/vector-embedding.service.ts:5-8 | the square of the dot product never exceeds the product of the squared norms: the similarity lies in [-1, 1] |

## Left out

- HTTP routing, controllers, schemas, roles, rate limits, audit rows, logging and response masking: glue around the modelled services.
- Hashing, HMAC, encryption, bcrypt and JWT: numbers and, for one-time codes, an arbitrary function stand for them; HOTP truncation is part of that function.
- E-mail, SMS, embeddings and language models, and the text of titles, messages and reasons: no property depends on them.
- Imports without checkpoint rows, and the counters of an import's result: the first is a legacy path, the second is reporting.
- IdempotencyRuns.OwnRecoveryIff: keys are compared character by character; a database collation that ignores case would match more of them.
- Idempotency.IdempotencyRow.Handle: what the transaction writes is one effect with its unique keys or its status; a business rule that refuses it for other reasons is an answer of 400 or more.
- Import preview, CSV printing and exports: row-by-row validation and formatting.
- Values JSON.stringify drops or rewrites (undefined, functions, toJSON) in the canonical printer; a number is any number lexeme.
- The business-date functions for zones whose offset changes, and keys that name no date (such as month 13).
- DailySales.DailySalesSummary.Rebuild: does not model the retry after a transient conflict, because each failed transaction leaves the table as it was; and it covers dates whose keys have four-digit years, since the source rejects the others.
- DailySales.DailySalesSummary.Upsert: does not model the order of the upserts, which serves the database's locks only.
- An external order reference that spells the time stamp of another sale would share its order in the source's count; here the two stay apart.
- Base32.Base32Decode: covers upper-casing and white space of the ASCII range only.
- TwoFactor.TwoFactorService.ConsumeSecondFactor: models one request at a time; TwoFactorRaces takes overlapping second factors while two-factor stays on, and requests that overlap a setup, an enable, a disable or an administrator's reset are not modelled.
- LoginGuard.GetLockState: does not model failing reads, which the source treats as not locked, nor overlapping attempts.
- Sessions.AuthService.ReadSession: the user's password and second factor at login are not part of it; a login is an event that creates a session for an active user.
- Risk.CalculateStockoutRisk: the safety stock, its square root and the normal quantile are inputs.
- Pricing.EvaluatePricing: labels, reported percentages and confidence values of a result are not modelled.
- WorkerPool.AllDone: does not model a call that throws, which its caller in the overview prevents.
- Store-wide orchestration of the nightly job over several stores, overview partitioning and ordering, analytics and dashboards: loops and aggregation over the modelled parts that would only add easy members.
