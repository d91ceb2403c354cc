# Verified model of the NER logistics platform

A Dafny model of the parts of the platform that hold state machines and algorithms, with machine-checked proofs of
what they guarantee. `dafny verify dfyconfig.toml` checks all of it.

| files | what they model |
|---|---|
| `OutboxModel`, `OutboxDispatcher`, `OutboxHandling`, `OutboxWorkers`, `OutboxRetries`, `OutboxDrain` | the transactional outbox: selection, handling inside a savepoint, what each event is worth, receipts, backoff, dead-lettering; any number of interleaved workers; the retry counter they share; draining a backlog |
| `RiskRefresh`, `Pipeline` | the risk refresh that escalates edges and writes outbox rows, and the two together |
| `FieldModel`, `FieldTables`, `FieldStore`, `FieldRuns`, `FieldEffects`, `FieldEvidence` | the offline store of the field app: three tables, several users on one device |
| `RateLimit` | the Redis fixed-window limiter, with interleaved and failing commands |
| `BackendLayers`, `FrontendLayers`, `FrontendRule`, `Text` | the two import-boundary checkers, and what they mean for whole import graphs |
| `Cursor`, `CursorReading`, `SortSpec` | pagination cursors down to JSON escapes and base64; the sort parameter |
| `Densify`, `RiskZones`, `Periods`, `StableSort` | road-geometry enrichment, the hazard test on routes, period comparison and counts |

Where the source changes state in place there is a class with the same fields (`Dispatcher`, `Refresher`, `Store`,
`Limiter`, `Network`) or a method with the source's loop; each is proved equal to a function on values, and the
properties are proved about that function. Library behaviour that is not part of the repository is a parameter: UUID and
integer parsing, the clock, fresh ids, predictions, handler failures, the routing server's answers, date parsing, and the
reading of JSON values other than strings.

## What was found

* **Exactly-once needs one event per batch or one worker.** The row locks taken by the batch query end at the first
  commit of the batch, and later events are not looked at again before they are handled. `ExactlyOnceIffCovered` proves
  that over all interleavings an event's evaluations are committed exactly once with its SUCCESS receipt *if and only
  if* the batch size is at most 1 or at most one worker runs for the evaluating consumer; the other direction is a
  concrete run. The default batch size is 10.
* **The shared retry counter loses failures** when two workers can fail on one event independently: a failing attempt
  writes the count it read with its row plus one. `CountsIffCounted` proves that every failure is counted over all
  interleavings of all consumers *if and only if* the batch size is at most 1 or no two workers are such rivals. In those
  configurations the budget is exact (`BudgetIsExact`): an event is dead-lettered at its max(1, max_retries)-th failure, of
  whatever consumer, and waits out every delay whoever attempts it next (`SpacedForEveryWorker`).
* **The sliding-window bound of the limiter is 2 * limit - 1**, one better than two windows, for every history with
  every kind of backend failure, and it is reached.
* **A key can get stuck for good**, never resetting and admitting at most limit - 1 more requests, *if and only if* an INCR
  that starts a window is carried out without being answered, or the EXPIRE it owes is lost (`StuckFromEmptyIff`).
* **The store's structure rests on three caller obligations**, each proved necessary and sufficient: no save of a draft
  under an id that is already queued, photos only to the user's own drafts, and no patch of `localMediaIds` that leaves
  out an attached photo. Isolation between users, the keeping of evidence and the identity of reports need none of
  them: they hold over every run whose ids are fresh or the caller's own, and isolation holds for those calls only
  (`OwnIdsIff`).
* **A save is two transactions.** One begun on a draft that may be saved can land after the draft was queued, and then
  leaves a draft beside the operation of the same id (`LateSaveBreaks`). The obligation is therefore stated at the put,
  where any photos under the id must be the user's too.
* **Cursors come back changed for exactly one kind of text**: a high surrogate code point directly followed by a low one
  is returned as one character. Text of Unicode scalar values always round-trips.
* **Backend layering of the whole tree**: `app.core` may import the composition root, so a domain file can reach an
  infrastructure file through it (`CoreDetour`). An accepted tree is layered as a whole *if and only if* the core files
  its layered files reach load core files only (`WholeTreeIff`).
* **Frontend index rule**: an import whose last component is only an extension (`.ts`, or a name that strips to `.`)
  counts as the feature's index. `CrossFeatureEntryIff` says which files of a feature an accepted import can stand for,
  both ways; `NamelessFileImported` is the import of a file `features/x/.ts`.
* **Daily bars name the wrong day east of Greenwich**: days start at local midnight, labels are printed in UTC. Proved
  right exactly for offsets of at most zero, on the printed month and day.
* **The hazard test sees vertices, not legs**, contrary to its comment: a leg can cross a zone
  unreported. `LegTestIff` and `SomeLegIff` give the arithmetic test on the ends of the legs that a zone's box is met; the
  zones missed are those some leg passes that test for while no vertex lies inside (`LegsSeenIff`).
* **Densifying turns a two-way edge one-way exactly when its two ends coincide.**
* `reopenAsDraft` is documented for failed and needs-review operations; the code reopens any operation not yet synced,
  and so does the model.
* **A refresh pass raises and commits nothing *if and only if*, when it starts, it holds an edge that is gone and whose
  target is above its recorded severity** (`RaisesIff`). Weather rows go with their edge (the foreign key cascades), so
  this takes an edge deleted between the pass's query and its declaration.
* **Evaluations of status events equal the escalations, as multisets, *if and only if* every status event has succeeded**
  (`MatchIffDelivered`), whatever other events do; a full drain in which no use case raises gets there.

## Model

| member | source | states |
|---|---|---|
| OutboxDispatcher.Dispatcher.EvaluateIncident | backend/app/workers/outbox_dispatcher.py:57-67 | the loop over affected edges makes exactly the planned use-case calls in order, and a raise ends it |
| OutboxDispatcher.Dispatcher.HandleImpactEvaluatorEvent | backend/app/workers/outbox_dispatcher.py:32-94 | the handler appends exactly the evaluations of its plan or raises the plan's or the use case's error |
| OutboxDispatcher.Dispatcher.DispatchEvent | backend/app/workers/outbox_dispatcher.py:136-194 | one event: on success receipt, status and effects together, on failure no effect, a counted retry, backoff or dead-lettering, and a failure receipt |
| OutboxDispatcher.Dispatcher.DispatchOutboxBatch | backend/app/workers/outbox_dispatcher.py:97-196 | the batch loop over rows fetched once leaves the tables of the specification, and returns the number of successes |
| OutboxModel.IncidentCallsMean | backend/app/workers/outbox_dispatcher.py:57-67 | an incident is evaluated once for each affected edge, in order, as a blocked route of 1800 s, up to the first edge that is no UUID, and raises exactly if there is one |
| OutboxHandling.IncidentEvaluated | backend/app/workers/outbox_dispatcher.py:46-67 | an incident of either kind whose list names n edges, or that without a list names one, yields n evaluations in order at the global version: BLOCKED_ROUTE, 1800 s, its incident id, CRITICAL unless a severity other than CRITICAL and HIGH in any case is given; a raise at one of them raises |
| OutboxHandling.MalformedIncident | backend/app/workers/outbox_dispatcher.py:47-48 | an incident id that is no UUID raises before any call |
| OutboxHandling.MalformedEdge | backend/app/workers/outbox_dispatcher.py:50-58 | so does a malformed edge anywhere in the list or as the one edge named |
| OutboxHandling.UnreadableList | backend/app/workers/outbox_dispatcher.py:50-57 | and a list that is a number or true |
| OutboxHandling.StatusEvaluated | backend/app/workers/outbox_dispatcher.py:69-94 | a status event yields one CRITICAL evaluation of 3600 s for BLOCKED or IMPASSABLE, one HIGH of 1800 s for RESTRICTED, in any case of letters, and none else, at its own version or the global one |
| OutboxHandling.StatusRaises | backend/app/workers/outbox_dispatcher.py:77-94 | a raise of the use case raises if there is a call and does nothing if there is none |
| OutboxHandling.StatusWithoutEdge | backend/app/workers/outbox_dispatcher.py:70-75 | a status event without an edge is passed over; a malformed edge or version raises |
| OutboxHandling.NothingToEvaluate | backend/app/workers/outbox_dispatcher.py:44-94 | other events and other consumers have no effect, and an unreadable global version raises |
| OutboxHandling.SettledOk | backend/app/workers/outbox_dispatcher.py:142-160 | column by column what a success writes into the row, the receipt and the evaluations, and that nothing else changes |
| OutboxHandling.SettledErr | backend/app/workers/outbox_dispatcher.py:163-194 | the same for a failure: count, error, delays of 5, 15, 30, 60 and then 300 s, or dead-lettering, and a failure receipt |
| OutboxHandling.OldestDueSelected | backend/app/workers/outbox_dispatcher.py:109-130 | a batch with room holds exactly the events alive, due, not succeeded and not locked; a full one leaves out none that is older |
| OutboxModel.SettleKeepsExactlyOnce | backend/app/workers/outbox_dispatcher.py:136-194 | settling any attempt on an event not yet done keeps: effects present once and whole with a SUCCESS receipt, absent without |
| OutboxModel.HandleIsWhole | backend/app/workers/outbox_dispatcher.py:32-94 | a handling that does not raise wants all of the event's evaluations, never part of them |
| OutboxWorkers.StepKeepsInv | backend/app/workers/outbox_dispatcher.py:109-161 | every step of every worker (select and lock, handle, collide, commit, crash, publish) keeps the invariant when the locks cover the commit |
| OutboxWorkers.RunKeepsInv | backend/app/workers/outbox_dispatcher.py:97-196 | so does every interleaving of any length |
| OutboxWorkers.LocksFreedTooEarly | backend/app/workers/outbox_dispatcher.py:127-160 | with batches of two and two workers, a run in which one event's evaluation is committed twice |
| OutboxWorkers.ExactlyOnceIffCovered | backend/app/workers/outbox_dispatcher.py:97-196 | exactly-once holds over all interleavings if and only if the batch size is at most 1 or one worker at most evaluates |
| OutboxWorkers.BatchIsARun | backend/app/workers/outbox_dispatcher.py:97-196 | the sequential batch is one of the interleavings of the step machine |
| OutboxWorkers.BatchKeepsExactlyOnce | backend/app/workers/outbox_dispatcher.py:97-196 | a lone worker keeps exactly-once for every batch size |
| OutboxRetries.StepKeepsCount | backend/app/workers/outbox_dispatcher.py:109-194 | every step of every worker keeps the rows that may still fail scheduled as the table has them, in configurations without rivals |
| OutboxRetries.RivalsLoseAFailure | backend/app/workers/outbox_dispatcher.py:163-176 | with batches of two and two rivals, a run after which a committed failure leaves the count where it was |
| OutboxRetries.CountsIffCounted | backend/app/workers/outbox_dispatcher.py:97-194 | over all interleavings of all consumers every failed attempt adds exactly one to retry_count, if and only if the batch size is at most 1 or no two workers can fail independently |
| OutboxRetries.BudgetIsExact | backend/app/workers/outbox_dispatcher.py:166-172 | in those configurations retry_count is the number of failures of the run, at most max(1, max_retries), and the event is dead-lettered if and only if they reach it |
| OutboxRetries.SpacedForEveryWorker | backend/app/workers/outbox_dispatcher.py:119-122 | and from its first failure on the event waits out the sum of its delays, and dead-lettering does too, whichever worker of whichever consumer attempts it |
| OutboxDrain.RoundTouches | backend/app/workers/outbox_dispatcher.py:109-194 | what one batch does to one event: attempted only if eligible, then dispatched with SUCCESS or retried without; otherwise untouched |
| OutboxDrain.ProcessedSucceeded | backend/app/workers/outbox_dispatcher.py:133-196 | the number a batch returns is that of its events with a SUCCESS receipt when it ends |
| OutboxDrain.SumOfDelaysClosedForm | backend/app/workers/outbox_dispatcher.py:28 | the first n delays add up to 110 + 300 * (n - 4) seconds from the fourth on |
| OutboxDrain.AttemptsAreSpaced | backend/app/workers/outbox_dispatcher.py:119-122 | over any run, an event with n failures is scheduled no earlier than the sum of n delays after its first failing batch |
| OutboxDrain.DeadLetterBound | backend/app/workers/outbox_dispatcher.py:166-176 | an event is dead-lettered with exactly its budget used and no earlier than the sum of the first max_retries - 1 delays after its first failure |
| OutboxDrain.DelaysNeverShrink | backend/app/workers/outbox_dispatcher.py:174-176 | the delays one event is given never get shorter over a run |
| OutboxDrain.AttemptsBounded | backend/app/workers/outbox_dispatcher.py:135-194 | every attempt uses up budget, over any run and any backlog |
| OutboxDrain.FreshAttemptsBounded | backend/app/workers/outbox_dispatcher.py:135-194 | from a fresh backlog the attempts are at most the sum of max(1, max_retries) |
| OutboxDrain.SelectionExists | backend/app/workers/outbox_dispatcher.py:115-128 | the query always has an answer, so runs never get stuck |
| OutboxDrain.DrainTerminates | backend/app/workers/outbox_dispatcher.py:115-194 | as many due batches as there is budget leave every event succeeded or dead-lettered with exactly its budget used |
| OutboxWorkers.DeadForEveryWorker | backend/app/workers/outbox_dispatcher.py:115-128 | over every interleaving of workers of any consumers, a dead-lettered event stays so and no query returns it |
| OutboxDrain.DrainExists | backend/app/workers/outbox_dispatcher.py:115-194 | from any tables there are due batches of any number, so drains are always possible |
| OutboxDrain.DeadForEveryConsumer | backend/app/workers/outbox_dispatcher.py:115-128 | under batches of one consumer a dead-lettered row does not change and is never selected for any other consumer |
| OutboxDrain.FinishedForever | backend/app/workers/outbox_dispatcher.py:115-128 | a finished event is never selected again and its row never changes |
| RiskRefresh.StatusForProbability | backend/app/workers/risk_refresh_worker.py:78-84 | the target is BLOCKED from 0.75, RESTRICTED from 0.40, and none below |
| RiskRefresh.Refresher.Declare | backend/app/modules/network/application/declare_edge_status.py:48-58 | a declaration on an existing edge sets the status asked for with one more than the old version, or 1, and raises on any other without effect |
| RiskRefresh.Refresher.RefreshEdgeRisks | backend/app/workers/risk_refresh_worker.py:87-145 | the pass leaves the network of the specification, or the one before if it raised, and returns the number of rows written |
| RiskRefresh.RefreshJoins | backend/app/workers/risk_refresh_worker.py:104-143 | one pass: each edge's severity becomes the maximum of its own and all targets, with no more rows than steps up |
| RiskRefresh.RaisesIff | backend/app/workers/risk_refresh_worker.py:115-129 | a pass raises if and only if at its start it holds an edge that is gone and that its prediction would escalate |
| RiskRefresh.LostEdgeLosesPass | backend/app/workers/risk_refresh_worker.py:104-144 | an input: one deleted edge costs the other edge of the pass its escalation |
| RiskRefresh.PassesJoin | backend/app/workers/risk_refresh_worker.py:104-145 | over any sequence of passes severity never falls, equals the maximum of the start and all targets of passes that lost no edge, and at most two rows per edge are written |
| RiskRefresh.UndisturbedPassesJoin | backend/app/workers/risk_refresh_worker.py:104-145 | while no edge is deleted under a pass, severity is the maximum of the start and every target of the whole run |
| RiskRefresh.VersionsCountEscalations | backend/app/modules/network/application/declare_edge_status.py:57-58 | over any run an edge's version rises by exactly its escalations, and the k-th of them carries the k-th next version |
| RiskRefresh.NoVersionTwice | backend/app/workers/risk_refresh_worker.py:104-145 | no two escalations of a run that concern one edge carry the same version |
| RiskRefresh.StatusAfterPass | backend/app/workers/risk_refresh_worker.py:104-145 | after a committed pass an edge is BLOCKED if some prediction was at least 0.75, else RESTRICTED if one was at least 0.40 and it was not BLOCKED, else as before |
| RiskRefresh.EscalationWritesRow | backend/app/workers/risk_refresh_worker.py:131-140 | an escalation adds one pending row that names the edge and the status and version it now has |
| RiskRefresh.RepeatWritesNothing | backend/app/workers/risk_refresh_worker.py:115-118 | a second pass with the same predictions writes nothing |
| Pipeline.HistoryKeepsSound | backend/app/workers/risk_refresh_worker.py:104-145 | any history of refresh passes, other producers and batches keeps status events and escalations one to one, and exactly-once |
| Pipeline.PlanOfEscalation | backend/app/workers/outbox_dispatcher.py:69-94 | the event of an escalation leads to one evaluation: CRITICAL with 3600 s for BLOCKED, HIGH with 1800 s for RESTRICTED, with the recorded version |
| Pipeline.EscalationEvaluated | backend/app/workers/outbox_dispatcher.py:69-94 | at any time an escalation's evaluations are exactly that one if its event succeeded and none otherwise |
| Pipeline.EvaluationsMatchEscalations | backend/app/workers/risk_refresh_worker.py:131-145 | after any history, once every status event has succeeded, status evaluations and escalations agree as multisets |
| Pipeline.MatchIffDelivered | backend/app/workers/outbox_dispatcher.py:69-94 | at any time they agree if and only if every status event has succeeded |
| Pipeline.DrainSettles | backend/app/workers/outbox_dispatcher.py:115-194 | after a full drain with any handler failures, each escalation has its one evaluation and a receipt, or a dead-lettered event with its budget used and no evaluation |
| Pipeline.DrainDelivers | backend/app/workers/outbox_dispatcher.py:115-194 | a full drain in which no use case raises delivers every escalation, whatever the other events are |
| Pipeline.EscalationsAreDelivered | backend/app/workers/risk_refresh_worker.py:104-145 | end to end: any mixture of passes, other producers and batches, then a full drain, and the evaluations are exactly those of all escalations |
| FieldModel.BatchItemSays | frontend/src/features/field/model.ts:63-81 | the batch item holds each field of the report, the uploads, and the description without the white space around it, and exists exactly when type, severity and location are given |
| FieldModel.ValidatePayload | frontend/src/features/field/model.ts:47-60 | lists exactly the problems the report has, in order, and none exactly when it can be sent |
| FieldStore.Store.ReadForSave | frontend/src/features/field/store.ts:31-33 | the first transaction of a save: the creation time to keep, or the refusal of another user's draft |
| FieldStore.Store.PutDraft | frontend/src/features/field/store.ts:33-36 | the second: stores the payload, step, owner and times given, whatever is there by then |
| FieldStore.Store.SaveDraft | frontend/src/features/field/store.ts:29-38 | the two with nothing in between: stores the payload and step given and keeps the creation time, or throws on another user's draft and stores nothing |
| FieldStore.Store.AddMedia | frontend/src/features/field/store.ts:57-64 | adds one photo row under the draft, unchecked |
| FieldStore.Store.RemoveMedia | frontend/src/features/field/store.ts:71-77 | deletes the photo only for its owner |
| FieldStore.Store.DiscardDraft | frontend/src/features/field/store.ts:80-89 | deletes the own draft and its own photos, nothing else |
| FieldStore.Store.QueueDraft | frontend/src/features/field/store.ts:96-129 | the draft becomes a QUEUED operation of the same id with its photos, or nothing changes |
| FieldStore.Store.UpdateOperation | frontend/src/features/field/store.ts:142-157 | applies a patch with an allowed transition, returns null for a foreign id, throws on an illegal transition |
| FieldStore.Store.DiscardOperation | frontend/src/features/field/store.ts:160-169 | deletes an own unsynced operation and its own photos |
| FieldStore.Store.ReopenAsDraft | frontend/src/features/field/store.ts:172-187 | turns an unsynced own operation back into a draft, under a new id and without server ids after NEEDS_REVIEW |
| FieldStore.Store.CleanupSyncedMedia | frontend/src/features/field/store.ts:190-205 | deletes exactly the photos of the owner's synced operations; removed and bytes are exactly the drop in rows and in total size |
| FieldStore.Store.PurgeOwner | frontend/src/features/field/store.ts:221-228 | deletes exactly the owner's rows in all three tables |
| FieldStore.CleanupFrees | frontend/src/features/field/store.ts:190-205 | the loop's deletions and counts, row by row, against the set of photos of synced operations |
| FieldEffects.SavedIsRead | frontend/src/features/field/store.ts:29-44 | a save that is not refused is read back whole by getDraft, and every other row is as it was |
| FieldEffects.LastSaveWins | frontend/src/features/field/store.ts:29-44 | of two saves the second is read, under the creation time of the first |
| FieldEffects.AddedIsListed | frontend/src/features/field/store.ts:57-69 | a photo added is listed with its draft, with its blob, size, name and type, and not uploaded |
| FieldEffects.RemovedIsGone | frontend/src/features/field/store.ts:71-77 | removing deletes the photo for its owner and nothing else |
| FieldEffects.DiscardedIsGone | frontend/src/features/field/store.ts:80-89 | discarding deletes an own draft and the own photos on it, and nothing else |
| FieldEffects.QueuedIsRead | frontend/src/features/field/store.ts:96-129 | queueing an own readable draft is read back as a QUEUED operation of its id that says the same |
| FieldEffects.UnqueuedStays | frontend/src/features/field/store.ts:100-105 | queueing anything else throws and changes nothing |
| FieldEffects.QueuedPhotos | frontend/src/features/field/store.ts:106-124 | it lists exactly the draft's own photos, which hang on it now, uploads and blobs unchanged |
| FieldEffects.SavedThenQueued | frontend/src/features/field/store.ts:29-129 | a report saved and queued is sent as it was last written |
| FieldEffects.ReopenedIsRead | frontend/src/features/field/store.ts:172-187 | reopening is read back as a draft with the same payload at step 4, under a new id after a review |
| FieldEffects.UnopenedStays | frontend/src/features/field/store.ts:174-178 | reopening anything else returns null and changes nothing |
| FieldEffects.ReopenedPhotos | frontend/src/features/field/store.ts:178-183 | with the operation's photos, their uploads forgotten after a review |
| FieldEffects.UpdatedIsRead | frontend/src/features/field/store.ts:142-157 | a patch is stored field by field, or refused and nothing stored |
| FieldEffects.EnteredFrom | frontend/src/shared/offline/queue-state.ts:18-31 | the lifecycle read backwards: from which states each state can be entered |
| FieldEffects.DiscardedOperationIsGone | frontend/src/features/field/store.ts:160-169 | discarding deletes an own unsynced operation and the own photos on it, and nothing else |
| FieldEffects.CleanedIsSynced | frontend/src/features/field/store.ts:190-205 | the clean-up deletes an own photo exactly if an own operation in state SYNCED has it |
| FieldEffects.PurgedIsGone | frontend/src/features/field/store.ts:221-228 | a purge leaves no row of the owner and every row of everybody else |
| FieldEffects.SyncedStays | frontend/src/features/field/store.ts:29-228 | over any well-behaved run by any users a synced report stays synced until its owner is purged |
| FieldEffects.QueuedIsPending | frontend/src/features/field/store.ts:216-218 | others see one more pending item when a report is queued |
| FieldEffects.SyncedIsNotPending | frontend/src/features/field/store.ts:216-218 | and one less when it is synced |
| FieldEffects.GetsOwn | frontend/src/features/field/store.ts:40-44 | a read by id finds an own row only, and a draft only if it can be read |
| FieldRuns.CallKeepsInvIff | frontend/src/features/field/store.ts:29-228 | a call keeps the structure (disjoint ids, every photo on exactly one own parent, attached photos listed) if and only if its caller meets its obligation |
| FieldRuns.PutKeepsInvIff | frontend/src/features/field/store.ts:33-34 | for the write of a save: if and only if when it lands no operation has the id and any photos under it are the user's |
| FieldRuns.SaveIsReadThenPut | frontend/src/features/field/store.ts:29-38 | an uninterrupted save is its read and its write |
| FieldRuns.LateSaveBreaks | frontend/src/features/field/store.ts:29-38 | an input: a save whose obligation held when it was called lands after the draft was queued and breaks the structure |
| FieldRuns.UpdateKeepsInvIff | frontend/src/features/field/store.ts:142-157 | for patches: if and only if no attached photo is left off the list |
| FieldRuns.RunKeepsInv | frontend/src/features/field/store.ts:29-228 | any sequence of calls by any users keeps the structure |
| FieldRuns.InvIsOwned | frontend/src/features/field/store.ts:29-228 | the full structure implies the ownership that isolation rests on |
| FieldRuns.CallKeepsOwnedIff | frontend/src/features/field/store.ts:29-228 | with fresh ids a call keeps one owner per id, misuse included, if and only if it does not save under the id of another user's operation |
| FieldRuns.CallKeepsOwned | frontend/src/features/field/store.ts:29-228 | with ids fresh or own, misuse included, an id keeps one owner and a photo's operation is there and its owner's |
| FieldRuns.OwnIdsIff | frontend/src/features/field/store.ts:29-228 | a call keeps that, acts alone on its user's rows and on nobody else's, if and only if the id it saves under is free or the user's own |
| FieldRuns.OthersUntouched | frontend/src/features/field/store.ts:29-228 | a call leaves every row of every other user as it was, misuse and foreign ids included, but for the late write of a save, which needs its id free or own |
| FieldRuns.Noninterference | frontend/src/features/field/store.ts:29-228 | over any run with ids fresh or own, a user's rows are those of a run in which the others never existed |
| FieldRuns.ForeignIdTakesOver | frontend/src/features/field/store.ts:29-129 | an input: saving and queueing under the id of another user's operation replaces it |
| FieldRuns.ReadsSeeOwnRows | frontend/src/features/field/store.ts:40-69 | in any store, every read returns what it would with the others' rows deleted; only otherAccountPending sees them |
| FieldEvidence.EvidenceStep | frontend/src/features/field/store.ts:71-228 | a call keeps a photo's blob, size and owner, or was its owner's remove, discard, purge or a clean-up of a synced operation |
| FieldEvidence.EvidenceKept | frontend/src/features/field/store.ts:57-228 | over any run, misuse included, a photo is there unaltered, or one entitled call in the run deleted it |
| FieldEvidence.MovesKeepEvidence | frontend/src/features/field/store.ts:96-187 | queueing and reopening delete no photo and alter none |
| FieldEvidence.ReopenThenQueue | frontend/src/features/field/store.ts:172-187 | reopening and queueing again restores id, owner, creation time, photos and server ids, or a new id with server ids cleared after NEEDS_REVIEW |
| FieldEvidence.OneIdPerReport | frontend/src/features/field/store.ts:91-129 | however often a report is edited, retried and reopened, it is sent under one client_operation_id |
| FieldEvidence.SendableConverts | frontend/src/features/field/model.ts:47-81 | a report without problems never makes toBatchItem throw, before or after queueing |
| FieldEvidence.AnswersAlone | frontend/src/features/field/store.ts:29-228 | what a call returns does not depend on the others' rows |
| FieldEvidence.ListsLatestFirst | frontend/src/features/field/store.ts:46-134 | the lists show exactly the owner's readable drafts and operations, latest first |
| FieldEvidence.MediaListed | frontend/src/features/field/store.ts:66-69 | the photos listed with a draft, with an operation and in the snapshot are exactly the owner's that hang there |
| FieldEvidence.SnapshotLists | frontend/src/features/field/store.ts:216-218 | the snapshot shows the two lists, with each own row once |
| RateLimit.Limiter.SendIncr | backend/app/core/rate_limit.py:65 | INCR starts a new life on an expired key and counts on in a live one, answered or not |
| RateLimit.Limiter.SendExpire | backend/app/core/rate_limit.py:67 | EXPIRE sets the end of the window if it reaches the server |
| RateLimit.Limiter.Dependency | backend/app/core/rate_limit.py:59-79 | a request alone is one INCR, then an EXPIRE if it read 1, and is let through exactly when it is logged as admitted: with a command unanswered exactly outside production, else exactly when the count is within the limit |
| RateLimit.RunKeepsInv | backend/app/core/rate_limit.py:59-79 | over every interleaved, failing history: lives a window apart, admissions of a life with distinct counts up to the limit |
| RateLimit.SlidingWindowBound | backend/app/core/rate_limit.py:51-79 | any half-open interval of one window counts at most 2 * limit - 1 admissions of a key |
| RateLimit.BoundIsTight | backend/app/core/rate_limit.py:51-79 | and some history reaches that, for every limit and window |
| RateLimit.LifeBound | backend/app/core/rate_limit.py:51-79 | between two resets a key admits at most limit requests |
| RateLimit.ProductionFailsClosed | backend/app/core/rate_limit.py:68-74 | in production nothing is let through uncounted |
| RateLimit.FailuresLetThrough | backend/app/core/rate_limit.py:68-74 | over every history, outside production the requests let through uncounted are exactly those that lost a command, in order; in production none |
| RateLimit.HowAKeyGetsStuck | backend/app/core/rate_limit.py:65-67 | a lost EXPIRE, or an INCR carried out without an answer, leaves a key that nobody will expire |
| RateLimit.StuckIff | backend/app/core/rate_limit.py:65-67 | no other command of any key makes a key stuck: one does if and only if it is one of those two |
| RateLimit.StuckFromEmptyIff | backend/app/core/rate_limit.py:59-79 | over every history, a key is stuck in the end if and only if one of those two commands occurred |
| RateLimit.StuckForever | backend/app/core/rate_limit.py:65-75 | such a key never resets and admits at most limit - 1 later requests, over every continuation |
| BackendLayers.FileLayer | pre-devlopment-assets/ner-project/backend/boundries.py:20-24 | a file under app/modules gets the module and layer its path says, package files and single-file layers included |
| BackendLayers.ImportTarget | pre-devlopment-assets/ner-project/backend/boundries.py:30-49 | the targets of one import statement, relative ones resolved or refused |
| BackendLayers.ImportTargets | pre-devlopment-assets/ner-project/backend/boundries.py:27-50 | the list collected over all statements |
| BackendLayers.CleanResolves | pre-devlopment-assets/ner-project/backend/boundries.py:36-55 | a tree the checker accepts has no dynamic import and none that climbs out |
| BackendLayers.LoadedIsAccepted | pre-devlopment-assets/ner-project/backend/boundries.py:43-56 | whatever file an import may load, under that very name the rule was applied and passed |
| BackendLayers.FileName | pre-devlopment-assets/ner-project/backend/boundries.py:20-24 | the dotted name is the path, without the name of a package file |
| BackendLayers.RelativeImport | pre-devlopment-assets/ner-project/backend/boundries.py:32-44 | one dot names the file's package and each further dot the one above; too many resolve to nothing |
| BackendLayers.TargetsIff | pre-devlopment-assets/ner-project/backend/boundries.py:27-50 | listed are the names imported, their bases, and a marker for what cannot be resolved, and nothing else |
| BackendLayers.AcceptedIff | pre-devlopment-assets/ner-project/backend/boundries.py:53-90 | from a layered file exactly these imports are accepted: packages its layer may have, the core, other modules' public contract, and the layers its own may use |
| BackendLayers.AcceptedElsewhere | pre-devlopment-assets/ner-project/backend/boundries.py:54-63 | from any other file all but unresolved imports and the core's of business modules |
| BackendLayers.StepLayers | pre-devlopment-assets/ner-project/backend/boundries.py:59-90 | one accepted import: cross-module steps land on public, domain stays in its module's domain, nothing points up |
| BackendLayers.LayeringIsTransitive | pre-devlopment-assets/ner-project/backend/boundries.py:53-90 | the same along every chain of imports within app.modules |
| BackendLayers.CoreDetour | pre-devlopment-assets/ner-project/backend/boundries.py:57-73 | outside it an accepted tree may lead from domain to infrastructure |
| BackendLayers.WholeTreeIff | pre-devlopment-assets/ner-project/backend/boundries.py:53-90 | an accepted tree is layered along every chain, core and composition root included, if and only if the core files that layered files reach load core files only |
| FrontendLayers.Normalize | frontend/boundries.py:32 | the normalising loop computes normpath |
| FrontendLayers.NormPathInside | frontend/boundries.py:32 | a normalised path that neither climbs out nor starts at the root has no .. in it |
| FrontendLayers.AcceptedStaysInside | frontend/boundries.py:24-50 | an accepted local target, before its extension is stripped, has no .. component, for every nesting of . and .. |
| FrontendLayers.StepAreas | frontend/boundries.py:51-57 | one accepted import never leads from shared to features or app, nor from features to app |
| FrontendLayers.AreasAreTransitive | frontend/boundries.py:40-64 | nor does any chain of accepted imports |
| FrontendLayers.CrossFeatureIff | frontend/boundries.py:58-63 | an import into another feature, at any depth, is accepted if and only if it names the index or nothing once stripped |
| FrontendLayers.CrossFeatureEntry | frontend/boundries.py:58-63 | the files an accepted import into another feature can stand for: the feature's index, or a file behind a component that is only an extension |
| FrontendLayers.EntryImported | frontend/boundries.py:24-63 | each such file is named by an import the rule accepts, from every file outside shared and outside the feature, when no component is named backend |
| FrontendLayers.CrossFeatureEntryIff | frontend/boundries.py:24-63 | so a file of another feature, on a path with no component named backend, can be imported if and only if the importer is not in shared and the file is such an entry |
| FrontendLayers.NamelessFileImported | frontend/boundries.py:60-63 | an input: an accepted import of a file that is no index |
| FrontendLayers.EntryIsIndex | frontend/boundries.py:60-63 | where no name starts with a dot, such a file is an index or stands in a directory named as one |
| FrontendLayers.ChainsEnterByIndex | frontend/boundries.py:40-64 | along every chain of accepted imports each step into another feature lands on such a file |
| FrontendRule.DatabaseIff | frontend/boundries.py:21-43 | a database client is named exactly by one of seven packages, whole or with a path below it |
| FrontendRule.PackageAcceptedIff | frontend/boundries.py:40-49 | an import neither relative nor by the alias is accepted exactly if it names no backend source, database client or other alias |
| FrontendRule.AlwaysRefused | frontend/boundries.py:41-44 | no import of backend source or of a database client is accepted |
| FrontendRule.LocalAcceptedIff | frontend/boundries.py:52-64 | a local import is accepted exactly if its area may be reached and, in another feature, it names the feature or its index |
| FrontendRule.RelativeResolves | frontend/boundries.py:24-37 | from a file in a directory, going up some levels and down again names exactly that path |
| FrontendRule.RelativeEscapes | frontend/boundries.py:24-51 | going up more levels than there are is refused |
| FrontendRule.RootedKept | frontend/boundries.py:32 | a path from the root stays one, with two slashes if it has exactly two; an empty one is the directory itself |
| Cursor.Base64RoundTrip | backend/app/core/pagination.py:56-67 | the lenient decoder reads back every byte string from its base64url text |
| Cursor.StringRoundTrip | backend/app/core/pagination.py:55-68 | the JSON reader reads back every escaped string, with split surrogate pairs joined |
| Cursor.PayloadRoundTrip | backend/app/core/pagination.py:55-69 | the object reader finds both members of the payload |
| Cursor.CursorComesBack | backend/app/core/pagination.py:40-71 | decode of encode is the pair with split surrogate pairs joined, for all texts |
| Cursor.CursorRoundTripIff | backend/app/core/pagination.py:40-71 | it is the pair itself if and only if neither text holds a split surrogate pair |
| CursorReading.Alphabet | backend/app/core/pagination.py:56 | the 64 letters in order: capitals, small letters, digits, hyphen, underscore |
| CursorReading.CursorIsUrlSafe | backend/app/core/pagination.py:40-56 | a cursor holds letters of that alphabet and padding alone, in fours |
| CursorReading.TestVectors | backend/app/core/pagination.py:56 | the vectors of section 10 of RFC 4648 for f, fo and foobar |
| CursorReading.PayloadText | backend/app/core/pagination.py:55 | the payload is {"v":"...","id":"..."} with the two texts escaped |
| CursorReading.EscapesWritten | backend/app/core/pagination.py:55 | printable ASCII stands for itself but quote and backslash; five controls have letters; all else is written in units of four small hexadecimal digits |
| CursorReading.BothAlphabets | backend/app/core/pagination.py:67 | the decoder reads the standard and the URL alphabet alike |
| CursorReading.NoiseIgnored | backend/app/core/pagination.py:67 | it reads over any other character |
| CursorReading.PaddingNeeded | backend/app/core/pagination.py:67 | letters without padding are read exactly if they come in fours |
| CursorReading.PaddingEnds | backend/app/core/pagination.py:67 | padding that completes a quad ends the text |
| CursorReading.Utf8Iff | backend/app/core/pagination.py:67 | accepted bytes are exactly the UTF-8 forms of texts of scalar values, each read as its text |
| CursorReading.PlainRead | backend/app/core/pagination.py:68 | in a string any character from the space on stands for itself but quote and backslash, and control characters and an open end are refused |
| CursorReading.ShortRead | backend/app/core/pagination.py:68 | the eight short escapes are read, the slash among them |
| CursorReading.BothCases | backend/app/core/pagination.py:68 | hexadecimal digits are read in both cases |
| CursorReading.SpacedObjectRead | backend/app/core/pagination.py:68 | white space and the order of members make no difference, and of two of one name the last counts |
| CursorReading.NothingAfter | backend/app/core/pagination.py:68 | anything after the object is refused |
| CursorReading.BothMembersNeeded | backend/app/core/pagination.py:66-71 | an object is a cursor exactly if it has both members |
| CursorReading.MalformedCursor | backend/app/core/pagination.py:66-71 | text with a surrogate, text that is no base64 and bytes that are no UTF-8 are malformed |
| SortSpec.ParsedSort | backend/app/core/pagination.py:113-126 | one part a segment, cut at its first colon, descending when there is none; every part is legal if the string matches the pattern |
| SortSpec.MatchesIff | backend/app/core/pagination.py:97-101 | a string matches the pattern if and only if every piece between commas is a name with or without a direction |
| SortSpec.MatchingParses | backend/app/core/pagination.py:97-126 | of a string that matches, every part is legal and says what its piece says |
| SortSpec.SortRoundTrip | backend/app/core/pagination.py:113-126 | a list of parts written out as a sort parameter is read back as that list |
| SortSpec.StripMeans | backend/app/core/pagination.py:125 | stripping takes white space off both ends and nothing else |
| Densify.DensifyEdge | backend/app/scripts/densify_seed_road_geometry.py:114-151 | the body of the loop: an answer of 0.95 to 5 times the straight line is stored, length and inner points its own and ends on the nodes, any other answer and none leave the straight line; times follow from the length and the limit |
| Densify.Network.Densify | backend/app/scripts/densify_seed_road_geometry.py:91-159 | a run rewrites every edge and counts the rejected answers |
| Densify.SecondsAtLimit | backend/app/scripts/densify_seed_road_geometry.py:143-144 | the time stored is the length at the speed limit, and the length itself without one |
| Densify.RefusedCount | backend/app/scripts/densify_seed_road_geometry.py:124-139 | the number of rejections is that of edges whose answer is out of proportion or whose ends coincide |
| Densify.LengthBounds | backend/app/scripts/densify_seed_road_geometry.py:51-54 | stored lengths lie within 0.95 and 5 times the straight line |
| Densify.OneWayIff | backend/app/scripts/densify_seed_road_geometry.py:142-144 | an edge is one-way afterwards if and only if it was or its ends coincide |
| Densify.LastRunDecides | backend/app/scripts/densify_seed_road_geometry.py:26-31 | after any runs with any answers the network is what the last run alone makes of the original |
| Densify.RepeatChangesNothing | backend/app/scripts/densify_seed_road_geometry.py:26-31 | a second run with the same answers changes nothing |
| Densify.RouteHasNoGaps | backend/app/scripts/densify_seed_road_geometry.py:125-131 | along any walk, after any runs, the merged line runs from end to end and holds every edge's shape whole |
| Densify.DirectionKept | backend/app/scripts/densify_seed_road_geometry.py:133-144 | through any runs direction class and length bounds hold for every edge |
| RiskZones.Crosses | frontend/src/features/hazard/riskZones.ts:54-61 | the min and max loops from the infinities find exactly whether a route vertex lies between polygon vertices in both coordinates |
| RiskZones.RouteCrossesHighRisk | frontend/src/features/hazard/riskZones.ts:49-65 | the result is the dangerous zones hit, in the order given |
| RiskZones.ReportedIff | frontend/src/features/hazard/riskZones.ts:50-63 | a zone is reported if and only if it is HIGH or SEVERE and its box holds a vertex |
| RiskZones.ReportedAppend | frontend/src/features/hazard/riskZones.ts:50-64 | each zone is judged by itself, in the order and number given |
| RiskZones.VertexNeverMissed | frontend/src/features/hazard/riskZones.ts:48-62 | a dangerous zone with a route vertex in its convex hull is never missed |
| RiskZones.LegTestIff | frontend/src/features/hazard/riskZones.ts:48-61 | a leg meets the box if and only if an arithmetic test on its two ends passes |
| RiskZones.SomeLegIff | frontend/src/features/hazard/riskZones.ts:48-61 | some leg of a route meets the box if and only if some leg's ends pass that test |
| RiskZones.LegCanBeMissed | frontend/src/features/hazard/riskZones.ts:48-61 | a leg that crosses a zone unreported |
| Periods.NamedLikeForLike | frontend/src/features/analytics/periods.ts:15-31 | today, week and month compare adjacent, disjoint periods of equal length that end with today |
| Periods.CustomLikeForLikeIff | frontend/src/features/analytics/periods.ts:18-30 | a custom period does so if and only if its first day is not after its last |
| Periods.StartOfDayMeans | frontend/src/features/analytics/periods.ts:10-12 | midnight is the one whole local day at or before the instant and less than a day before it |
| Periods.CustomValidIff | frontend/src/features/analytics/periods.ts:18-20 | a custom period is one exactly when both its dates can be read |
| Periods.DateNumber | frontend/src/features/analytics/periods.ts:46 | the printed calendar counts days from 1 January 1970 by the Gregorian rule, before 1970 too |
| Periods.PrintedDate | frontend/src/features/analytics/periods.ts:46 | month and day are read back from the five characters of the label |
| Periods.DaysShown | frontend/src/features/analytics/periods.ts:45 | the bars are the length in days, rounded half up, between 1 and 90 |
| Periods.DailyCounts | frontend/src/features/analytics/periods.ts:44-53 | bar i counts exactly the rows of day i under the month and day its start has in UTC, and an invalid period has no bars |
| Periods.BarsConserve | frontend/src/features/analytics/periods.ts:45-52 | together the bars count each row of the days shown once |
| Periods.WholePeriodConserves | frontend/src/features/analytics/periods.ts:45-52 | up to 90 whole days no row of the period is lost; beyond, exactly those from day 90 on |
| Periods.LabelIff | frontend/src/features/analytics/periods.ts:46 | a bar's printed label is the local date it counts if and only if the zone is not east of Greenwich |
| Periods.CountBy | frontend/src/features/analytics/periods.ts:38-42 | the Map filled by the loop, sorted stably by descending value |
| Periods.CountByMeans | frontend/src/features/analytics/periods.ts:38-42 | distinct labels with their multiplicities, in descending order, adding up to the rows |
| StableSort.SortDescSorted | frontend/src/features/analytics/periods.ts:41 | sorting yields a rearrangement with descending keys |
| StableSort.SortDescStable | frontend/src/features/analytics/periods.ts:41 | rows with equal keys keep their order |

## Left out

- Transactions and locks: a SELECT with FOR UPDATE SKIP LOCKED is one atomic step over committed rows; snapshot effects of READ COMMITTED between reading and locking, and a commit that fails, are not modelled (a worker may stop at any step).
- Outbox payloads: floating-point numbers, nested objects and upper-casing outside ASCII are not modelled; an edge id that is not a string counts as raising.
- Impact evaluation, edge-status declaration beyond status and version, and risk prediction: an evaluation is appended or an error raised, a prediction is any probability or none.
- Worker polling loops, sleeping, logging and metrics.
- OutboxDrain.DrainTerminates: one worker for one consumer, because with several the budget of one is spent by the others, so that an event may end without a success; what several workers keep of the budget is in OutboxRetries.
- OutboxRetries.CountsIffCounted: after a receipt collision the event counts as still loaded, as the code reads it; whether the ORM reloads a row whose savepoint was rolled back is not modelled.
- RiskRefresh.PassesJoin: an edge deleted between passes also loses its status row; in these runs the status of a deleted edge is kept. In Pipeline's histories statuses may change or go in any way between passes.
- IndexedDB: a transaction is atomic and so is each call but the save (removeMedia reads its row before it deletes it, the snapshot reads table by table); a storage-quota failure leaves everything as it was; ids of an index scan come in key order; the key path property of the media table is a precondition of the clean-up.
- The sync engine is any caller of updateOperation; its direct write of a photo's server id is not modelled.
- RateLimit.SlidingWindowBound: counts admissions at the server time of their INCR; the client address a key is made of is a parameter.
- BackendLayers.LoadedIsAccepted: files loaded by executing parent packages are not covered; text scanning of TypeScript sources and the walk over directories are left out of both checkers.
- Cursor.CursorRoundTripIff: values of the sort field enter as the text str() makes of them; what the decoder makes of JSON values other than strings is a parameter, and decoding never raises.
- sortByRisk, parseRiskZoneCollection, delta and the screens: one-branch or display logic.
- Densify.LengthBounds: the haversine formula is an arbitrary non-negative distance and floats are real numbers; the text form of coordinates is not modelled.
- Periods.LabelIff: daylight-saving changes, and years outside 0 to 9999, whose printed form is longer, are not modelled.
