# Privacy-cloud workflow: a verified model

The privacy cloud accepts access and delete requests about a subject, splits each into one task per data
source, hands the tasks to workers through a transactional outbox and an at-least-once queue, and derives
the request's status from its tasks. Beside the workflow it keeps a hash-chained audit log per tenant and
limits the load on each regional source with an additive-increase, multiplicative-decrease (AIMD) window
shared through Redis. This project models those three cores and proves what they keep over every run.

## How the model is organised

*Workflow.* `Tables` holds the rows, `Transactions` each committed transaction as a function on rows, and
`Protocol` the state machine that interleaves them: intake calls (lookup and insert are separate steps),
relays that send before they mark and may crash in between, a queue whose messages persist until
acknowledged and may be delivered any number of times in any order, message handlers and polling workers,
heartbeats, crashes at every point, and an artifact store that may hold an object whose transaction never
committed. A step whose guard fails changes nothing, so every list of steps is a run. `Store` is the
imperative side: a `Database` class whose methods follow the service functions statement by statement and
are proved to compute the transactions, and `BatchExecution` shows that a polling worker's whole batch is one
run of the protocol. `RowInvariants`, `Intake`, `Evolution`, `ProtocolInvariants`,
`HandlerProofs`, `DeliveryProofs` and `HistoryProofs` prove the invariant step by step; `WorkflowTheorems`,
`Leases`, `Timeliness`, `IntakeTheorems`, `DeletionLedger`, `FinishLaws`, `Trails`, `Budget`, `Recovery`,
`Acknowledgement` and `Witness` state the results.

*Audit.* `CanonicalJson` encodes and decodes the compact sorted-key JSON of the envelope (strings as in
section 7 of RFC 8259), `AuditChain` has the append, the verification loop and tamper evidence over any
sealing function, `AuditEnvelope` instantiates the seal with the concrete pre-image and an arbitrary hash,
`AuditWriters` interleaves concurrent appends, and `AuditLog` is the table as an object with the append and
the verification as the service performs them.

*Load control.* `Percentile`, `Aimd`, `Batch` and `Overload` treat the controller, the batch loop and what
the window costs a source of fixed capacity; `Admission` is the Redis holder set as a state machine and
`Executor` the admission loop of one regional call, proved to be a run of that machine.

## Assumptions

- *Transactions are atomic.* Each commit is one step on committed rows, on one shared clock. Row ids are
  row numbers, so creation order is id order.
- *Lease discipline.* The write at the end of `execute_task` is not gated on the current owner or attempt.
  The run-level results therefore assume that a finish happens only if the task has not been claimed again
  since the finisher's own claim (`Protocol.Disciplined`). Workers can guarantee this with their clocks alone:
  `Timeliness.TimelyRunsAreDisciplined` proves it of every run in which each finish happens within a lease
  time of its worker's claim or of its last heartbeat sent in time. `Timeliness.StaleFinishOverwrites` says
  exactly when a finish does harm, and `Witness.LeaseDisciplineIsNeeded` exhibits it for every deployment
  and every lease length.
- *Hashing.* The hash is an arbitrary function. Tamper evidence assumes that no two different texts among
  those actually hashed in the two compared chains collide; nothing is assumed about other texts.
- *Numbers.* Ratios and latencies are reals.

## What turned out differently

- A window never exceeds capacity + 1 while a batch is issued, but the limit the controller is left with
  can: `Overload.LowRound` gives the exact condition (the last batch ran at window capacity + 1 without
  filling it, and the maximum allows one more), `Overload.PartialBatchOvershoots` an instance for every
  capacity.
- The Lua window and the Python controller agree on every non-empty window and differ on an empty one,
  where the controller stays and the script still increases (`Aimd.LuaAgrees` states the equivalence).
- Chain verification does not notice a removed tail, and that is all it misses: a table that invents no
  stored hash verifies exactly when it is a prefix of the original chain (`AuditChain.OnlyPrefixesVerify`).
- Admission entries are keyed by task id. Two calls for one task share an entry, and the first to end
  leaves the other uncovered: `Admission.SharedHolderEscapes`. `Admission.CoverageCondition` gives, step by
  step, the exact condition under which every call keeps an entry. The bound on calls in flight assumes
  distinct holders.
- A polled task always runs on the database tables, also in a deployment with a regional backend, because
  the polling path passes no source executor; such a task is never retried (`Protocol.BackendOf`).
- A call that raises aborts its whole batch without a decision, and what its batch has observed stays in the
  controller for the next one (`Batch.RegionalSourceClient.ExecuteBatch`).
- A request without sources is accepted and stays queued for ever: `WorkflowTheorems.EmptyRequestNeverFinishes`.
- `docs/benchmark.md` speaks of halving the window; the code's ratio is 0.65 by default and a parameter
  here. `docs/production-requirements.md` says verification returns the first invalid sequence; the code
  returns a boolean, and so does the model.

## Model

| member | source | states |
|---|---|---|
| `WorkflowTheorems.NoStrandedRequest` | src/privacy_cloud/services/queue_worker.py:92-132 | In every reachable state a non-terminal request with a task has a task whose ready event is unpublished or whose message is unacknowledged |
| `WorkflowTheorems.UnsettledIsOutstanding` | src/privacy_cloud/services/queue.py:169-174 | A task whose parent has not been refreshed since it became terminal still has an unpublished event or an unacknowledged message |
| `WorkflowTheorems.EmptyRequestNeverFinishes` | src/privacy_cloud/services/worker.py:193-194 | In every reachable state a request without sources has no task and is queued |
| `WorkflowTheorems.TerminalRowsAreAbsorbing` | src/privacy_cloud/services/queue_worker.py:57-79 | Across every disciplined run terminal tasks and terminal requests keep every field |
| `WorkflowTheorems.ExactlyOneCompletionRecord` | src/privacy_cloud/services/worker.py:207-248 | A request is terminal iff it has a terminal outbox event, iff it has a terminal audit entry; each is unique, carries the request's status and the numbers of its succeeded and failed tasks, and they add up to the sources |
| `WorkflowTheorems.ParentMatchesChildren` | src/privacy_cloud/services/worker.py:191-203 | Queued means all tasks pending, verifying means a delete request, a terminal status is the one derived from all-terminal tasks |
| `WorkflowTheorems.ArtifactIsTheReceipts` | src/privacy_cloud/services/worker.py:161-174 | A completed or partial access request has an artifact whose keys are its sources and whose values are its tasks' receipts |
| `WorkflowTheorems.ArtifactIsForever` | src/privacy_cloud/services/worker.py:216-226 | The artifact behind a recorded path is the same document in every later state |
| `WorkflowTheorems.DocumentHolds` | src/privacy_cloud/services/worker.py:166-166 | The exported document maps exactly the request's sources to their tasks' receipts |
| `WorkflowTheorems.BeginsOnlyOwnTask` | src/privacy_cloud/services/worker.py:259-271 | A claimed task is begun iff it is still running for that worker; otherwise the handling ends without a trace |
| `WorkflowTheorems.LeaseFieldsMatchStatus` | src/privacy_cloud/services/worker.py:306-308 | A task is running iff it has an owner, iff it has an expiry; every non-terminal task is claimable now or at some later time |
| `WorkflowTheorems.ConcurrentClaimsAreDisjoint` | src/privacy_cloud/services/queue_worker.py:60-79 | At most one handler works under a task's current lease, and it is the recorded owner |
| `WorkflowTheorems.TaskWrites` | src/privacy_cloud/services/queue_worker.py:60-156 | A step leaves a task row alone, claims it when claimable, extends it for its holder, or finishes it; so a heartbeat never revives a finished task |
| `WorkflowTheorems.LiveLeaseIsNotTakenOver` | src/privacy_cloud/services/worker.py:27-31 | While the lease is live no step raises the attempt, and only the holder's finish clears the owner |
| `WorkflowTheorems.StepKeepsInv` | src/privacy_cloud/services/queue_worker.py:92-132 | Every disciplined step keeps the protocol invariant and only evolves rows forward |
| `WorkflowTheorems.RunKeepsInv` | src/privacy_cloud/services/queue_worker.py:92-132 | So does every disciplined run |
| `Leases.LeaseLasts` | src/privacy_cloud/services/worker.py:27-31 | Over any disciplined run that ends by the expiry, the lease keeps owner, attempt and at least its expiry, unless the task was finished meanwhile |
| `Leases.HeartbeatRenews` | src/privacy_cloud/services/queue_worker.py:135-156 | A holder's heartbeat protects the lease for a full lease time whatever follows; a non-holder's changes nothing |
| `Leases.ClaimStartsLease` | src/privacy_cloud/services/queue_worker.py:64-75 | An attempt changes only by a claim of a claimable task, by one, and the claimer is leased for a full lease time |
| `Leases.RunKeepsExpiries` | src/privacy_cloud/services/queue_worker.py:150-153 | No lease ever reaches beyond one taken now |
| `Recovery.EveryRequestCanFinish` | src/privacy_cloud/services/queue_worker.py:114-132 | From every reachable state some disciplined continuation of the event path alone (no polling, no fault) makes a request with tasks terminal |
| `Recovery.SettleTask` | src/privacy_cloud/services/queue_worker.py:107-132 | The event path alone can settle any single unsettled task without unsettling others |
| `Acknowledgement.EverythingCanFinish` | src/privacy_cloud/services/queue.py:169-174 | From every reachable state some disciplined continuation of the event path alone finishes every request that has tasks and acknowledges every message |
| `Acknowledgement.ExecutionAnswers` | src/privacy_cloud/services/worker.py:324-325 | A claimed and executed delivery is acknowledged, after its refresh, iff the execution left the task succeeded |
| `Acknowledgement.RefreshAnswers` | src/privacy_cloud/services/queue_worker.py:116-132 | A refresh leads to an acknowledgement iff a message started the handling and it met a terminal task or succeeded |
| `Acknowledgement.OtherEventsAreAcknowledged` | src/privacy_cloud/services/queue_worker.py:102-106 | A delivery that is not a ready task is due to be acknowledged at once and writes nothing |
| `Acknowledgement.AckRemoves` | src/privacy_cloud/services/queue.py:171-174 | The acknowledgement takes exactly the handled message out of delivery |
| `Acknowledgement.OnlyAckRemoves` | src/privacy_cloud/services/queue.py:169-174 | No other step, and no handler that is not due to acknowledge it, takes a message out of delivery |
| `Acknowledgement.SendEnqueues` | src/privacy_cloud/services/outbox.py:46-48 | A send puts its unpublished event on the queue and marks nothing yet |
| `Acknowledgement.CommitMarksTheSent` | src/privacy_cloud/services/outbox.py:52-54 | The relay's commit marks exactly the events it sent |
| `FinishLaws.FinishSucceeds` | src/privacy_cloud/services/worker.py:273-297 | On a region a finish succeeds iff the reply was successful, verified and, for a delete, reported nothing remaining, and keeps that payload; on the database iff nothing was raised; a polled task is always on the database |
| `FinishLaws.FailedFinish` | src/privacy_cloud/services/worker.py:298-308 | A disciplined error finish below the configured attempts on a region leaves the task pending, unowned and claimable; any other error finish is final; attempt and receipt stay |
| `FinishLaws.FailedAfterAllAttempts` | src/privacy_cloud/services/worker.py:300-304 | In a regional deployment without polling, a failed task has used at least the configured number of attempts, in every run |
| `FinishLaws.FinishError` | src/privacy_cloud/services/worker.py:297-305 | A success has no error; an exception's message is kept, cut at 2000 characters |
| `FinishLaws.FinishReleases` | src/privacy_cloud/services/worker.py:306-308 | Every finish ends the lease, uses no attempt, and leaves the parent of a delete verifying and any other untouched |
| `FinishLaws.AccessReceipt` | src/privacy_cloud/services/worker.py:124-130 | An access on the database lists, in row order, exactly the live rows of the task's tenant, the request's subject and the task's source |
| `FinishLaws.DeleteReceipt` | src/privacy_cloud/services/worker.py:133-151 | A delete on the database counts exactly those rows and reports none remaining |
| `FinishLaws.SuccessHasFinish` | src/privacy_cloud/services/worker.py:295-297 | In every run a succeeded task owes its row to one disciplined finish and has kept it since |
| `FinishLaws.ExportListsLiveRows` | src/privacy_cloud/services/worker.py:161-168 | In every run the export of a finished access request has, for each succeeded task, exactly the rows that were live when that task succeeded, or the payload its region replied with |
| `Trails.EveryFinishIsAudited` | src/privacy_cloud/services/worker.py:312-322 | In every reachable state the log has one entry per finish of a task, and the last one carries its tenant, outcome, attempt and error |
| `Trails.EventsCarryTheirTenant` | src/privacy_cloud/services/requests.py:68-93 | Every outbox event and audit entry carries the tenant of its request |
| `Budget.AttemptAccounting` | src/privacy_cloud/services/worker.py:298-323 | Attempt is finishes plus lapsed-lease reclaims plus one while running; pending stays below the ceiling; attempt is at most ceiling plus reclaims |
| `Budget.ClaimsAreAttempts` | src/privacy_cloud/services/worker.py:67-71 | The claims made in a run are exactly the attempts it added |
| `Budget.ClaimsAreBounded` | src/privacy_cloud/services/worker.py:300-304 | A run with n tasks and f lapses makes at most M*n + f claims; when all are used and none is running, every task is terminal |
| `Budget.WorkDecreasesMeasure` | src/privacy_cloud/services/worker.py:298-308 | With f bounding the lapses, a non-negative measure never grows and strictly drops at every claim and finish |
| `Witness.LeaseDisciplineIsNeeded` | src/privacy_cloud/services/worker.py:295-308 | For every deployment and lease length a reachable state and one undisciplined finish that turns a success into a failure |
| `Timeliness.TimelyRunsAreDisciplined` | src/privacy_cloud/services/queue_worker.py:178-197 | A run in which every finish happens within a lease time of its own claim, or of its last heartbeat sent in time, is lease-disciplined; so all run-level results hold of it |
| `Timeliness.TimelyFinishIsDisciplined` | src/privacy_cloud/services/worker.py:259-271 | A handler under the current claim that finishes by the recorded expiry is disciplined, after any disciplined run of the others |
| `Timeliness.TimelyDeadlineIsTheExpiry` | src/privacy_cloud/services/queue_worker.py:135-156 | In a timely run a deadline that has not passed is exactly the expiry recorded for the task its handler holds |
| `Timeliness.StaleFinishOverwrites` | src/privacy_cloud/services/worker.py:295-308 | In a reachable state a finish can change the status of a terminal task iff it meets one, and every such finish is undisciplined |
| `Timeliness.StepKeepsWork` | src/privacy_cloud/services/queue_worker.py:60-79 | Within the lease time a worker keeps the current claim through every step, unless it retires itself |
| `IntakeTheorems.OneRequestPerKey` | src/privacy_cloud/services/requests.py:42-105 | Under any interleaving of callers a tenant's key names at most one request, and exactly one call was told it created it |
| `IntakeTheorems.SameKeySameRequest` | src/privacy_cloud/services/requests.py:50-54 | Calls with one key get one request id exactly for matching commands; a conflict means a command that does not match |
| `IntakeTheorems.ConflictMeansDifferentCommand` | src/privacy_cloud/services/requests.py:95-102 | A conflict answer implies a stored request with that key and another subject, kind or source set |
| `IntakeTheorems.CreatedAsCommanded` | src/privacy_cloud/services/requests.py:56-64 | The answered request carries the command's subject, kind and source set |
| `IntakeTheorems.CreatedFresh` | src/privacy_cloud/services/requests.py:56-64 | A created request is queued at version one, its tasks pending, without attempt, lease, result or error, its events unpublished |
| `IntakeTheorems.UnknownSourcesAreRejected` | src/privacy_cloud/schemas.py:15-22 | A command is rejected iff it names a source outside the five known ones; otherwise only repetitions are dropped |
| `IntakeTheorems.OnlyCreationWrites` | src/privacy_cloud/services/requests.py:95-102 | Answering without creating writes no row |
| `IntakeTheorems.CreationRecord` | src/privacy_cloud/services/requests.py:64-93 | One task per distinct source, one ready event per task, one request-created event and one creation audit entry, each unique and each carrying the kind and sources, or task and source, of its row |
| `Intake.SameCommandComparesSourceSets` | src/privacy_cloud/services/requests.py:19-24 | On validated commands the sorted-list comparison is equality of subject, kind and source sets |
| `Intake.DedupKeepsTheSet` | src/privacy_cloud/schemas.py:15-22 | Validation removes repetitions and nothing else |
| `Intake.DedupKeepsOrder` | src/privacy_cloud/schemas.py:18-18 | First occurrences keep their order |
| `Intake.FindKeyIsTheLookup` | src/privacy_cloud/services/requests.py:27-39 | The lookup returns a request with the key, and none only if there is none |
| `DeletionLedger.DeletionConservation` | src/privacy_cloud/services/worker.py:133-151 | For every tenant, subject and source the deleted counts of succeeded delete receipts add up to the soft-deleted records, in every reachable state |
| `DeletionLedger.OnlyOwnScopeIsDeleted` | src/privacy_cloud/services/worker.py:108-121 | A record changes only by a delete task's finish, only if its tenant is the task's, its subject the request's and its source the task's, and only to deleted |
| `DeletionLedger.DeletedForGood` | src/privacy_cloud/services/worker.py:133-148 | Every record with the task's tenant, the request's subject and the task's source that is present at a delete's success is deleted then and in every later state |
| `DeletionLedger.CommandedRecordsAreDeleted` | src/privacy_cloud/services/requests.py:56-64 | End to end: the records of the caller's tenant, the commanded subject and a commanded source that are present at the task's delete are deleted for good |
| `DeletionLedger.SuccessHasEvidence` | src/privacy_cloud/services/source_connectors.py:41-45 | A succeeded task holds a verified receipt, with nothing remaining for a delete |
| `RowInvariants.DeriveMeaning` | src/privacy_cloud/services/worker.py:191-202 | The set arithmetic of the derived status as if-and-only-if statements about the tasks |
| `RowInvariants.RefreshOfTerminalIsIdentity` | src/privacy_cloud/services/worker.py:177-249 | Refreshing a terminal request changes no row at all |
| `Tables.ActiveIdsAreTheLiveRows` | src/privacy_cloud/services/worker.py:108-121 | The select finds exactly the live records of the scope |
| `Tables.MarkDeletedCounts` | src/privacy_cloud/services/worker.py:133-151 | Deleting a scope adds exactly its live records to its deleted count, nothing to any other scope's, and leaves none live |
| `Store.Database.ClaimMessageTask` | src/privacy_cloud/services/queue_worker.py:43-89 | Which of the four results is returned, by field, and that only a claim writes: the leased row and its queued parent |
| `Store.Database.SelectClaimable` | src/privacy_cloud/services/worker.py:50-65 | The oldest claimable tasks of the tenant, in order, fewer than the limit only if there are no more |
| `Store.Database.ClaimTasks` | src/privacy_cloud/services/worker.py:34-105 | The selected tasks are leased and their parents started, as claims one after another |
| `BatchExecution.ClaimAllRows` | src/privacy_cloud/services/worker.py:66-103 | A batch claim leases exactly the listed rows, once each, and starts exactly their queued parents |
| `BatchExecution.BatchClaimIsARun` | src/privacy_cloud/services/worker.py:335-340 | A batch claim is a disciplined run of single claims: the same rows, and one new handler per task, in order |
| `BatchExecution.ExecutionIsARun` | src/privacy_cloud/services/worker.py:252-325 | One execution of a held task is a disciplined begin, finish and refresh of its handler (a crash instead of the refresh when the upload fails), with the same rows and artifacts |
| `BatchExecution.ProcessOnceIsARun` | src/privacy_cloud/services/worker.py:328-344 | Claiming a batch and executing its first tasks in order is one disciplined run of the protocol |
| `Store.Database.ProcessOnce` | src/privacy_cloud/services/worker.py:328-344 | The batch loop: the oldest claimable tasks of the tenant, fewer than the limit only if there are no more, executed in order up to a raising upload; the success count is the number of tasks that succeeded |
| `Store.Database.ExtendTaskLease` | src/privacy_cloud/services/queue_worker.py:135-156 | Extends exactly when the worker holds the running task |
| `Store.Database.ActiveRecords` | src/privacy_cloud/services/worker.py:108-121 | Returns the live records of the scope in row order |
| `Store.Database.ExecuteDelete` | src/privacy_cloud/services/worker.py:133-151 | Marks exactly the scope's records and reads back zero; the receipt counts those that were live |
| `Store.Database.RunSource` | src/privacy_cloud/services/worker.py:273-294 | Which outcomes succeed, by field; the region's payload is the receipt; a database access lists exactly the live rows; only a successful database delete writes records |
| `Store.Database.FinishTask` | src/privacy_cloud/services/worker.py:295-323 | The finish transaction: released lease, final or retried status by attempt and backend, error, verifying parent, records, and the audit entry of what was written |
| `Store.Database.RefreshRequestStatus` | src/privacy_cloud/services/worker.py:177-249 | Fails exactly when a needed upload fails and then writes nothing; otherwise computes the refresh transaction, counts a version exactly on a change of status, and stores the document when needed |
| `Store.Database.ExecuteTask` | src/privacy_cloud/services/worker.py:252-325 | Without the lease nothing; else exactly the finish and the refresh transaction, with the artifact if one is due, and an exception exactly when its upload fails |
| `Store.Database.HandleTaskReady` | src/privacy_cloud/services/queue_worker.py:92-132 | All rows and artifacts after each kind of delivery: missing, terminal, busy, claimed; and the answer of each, exactly: a claimed one is acknowledged iff its task succeeded and no due upload failed |
| `Store.Database.FindByIdempotency` | src/privacy_cloud/services/requests.py:27-39 | The search loop computes the lookup |
| `Store.Database.CreatePrivacyRequest` | src/privacy_cloud/services/requests.py:42-105 | With any creations of other callers between lookup and insert: a key that is taken before, or by then, answers existing or conflict and writes nothing of its own; a free key computes the creation transaction |
| `Store.Database.InsertRequest` | src/privacy_cloud/services/requests.py:56-94 | The insert loop computes the creation transaction |
| `Store.Database.SelectUnpublished` | src/privacy_cloud/services/outbox.py:34-44 | The oldest unpublished events, in order, fewer than the batch size only if there are no more |
| `Store.Database.RelayOutboxOnce` | src/privacy_cloud/services/outbox.py:26-55 | Sends the batch in order, marks exactly the confirmed events, and counts them |
| `Store.AcceptedAreTheConfirmed` | src/privacy_cloud/services/outbox.py:46-53 | The events that reach the queue are exactly the confirmed ones of the batch |
| `Store.Database.PublishAll` | src/privacy_cloud/services/outbox.py:45-54 | The publishing loop: the confirmed sends of the batch reach the queue in order and exactly they are marked |
| `CanonicalJson.StringRoundTrip` | src/privacy_cloud/services/events.py:13-14 | Decoding an encoded string, with any text after it, returns the string and that text, for all strings |
| `CanonicalJson.EscapeForms` | src/privacy_cloud/services/events.py:13-14 | The escapes are those of section 7 of RFC 8259, and every other character is kept |
| `CanonicalJson.EscapedHasNoControl` | src/privacy_cloud/services/events.py:13-14 | No control character is left in an encoded text |
| `CanonicalJson.IntRoundTrip` | src/privacy_cloud/services/events.py:13-14 | The same for integers followed by a non-digit |
| `CanonicalJson.ObjectRoundTrip` | src/privacy_cloud/services/events.py:13-14 | Decoding an encoded object returns its members, for all member lists |
| `AuditEnvelope.SortedEnvelope` | src/privacy_cloud/services/events.py:49-57 | Sorting the envelope by key gives action, payload_hash, previous_hash, request_id, sequence, tenant_id with their values |
| `AuditEnvelope.PreimageText` | src/privacy_cloud/services/events.py:13-14 | The hashed text: six fields in key order, compact separators, escaped strings, a decimal sequence |
| `AuditEnvelope.PreimageIsInjective` | src/privacy_cloud/services/events.py:103-111 | Two events have one hash pre-image iff all enveloped fields agree |
| `AuditEnvelope.TamperEvidence` | src/privacy_cloud/services/events.py:90-115 | With the concrete envelope and a hash free of collisions on the two chains, one common stored hash forces equal positions and equal events up to it |
| `AuditEnvelope.TamperBoundary` | src/privacy_cloud/services/events.py:90-115 | The same boundary for the concrete envelope and any hash that does not collide on the two tables |
| `AuditChain.VerifyAuditChain` | src/privacy_cloud/services/events.py:90-115 | The loop returns true iff sequences are 1..n, every link continues the previous hash and every hash recomputes |
| `AuditChain.AppendExtendsChain` | src/privacy_cloud/services/events.py:46-66 | Appending after the head keeps the chain valid |
| `AuditChain.FirstLinkIsZeros` | src/privacy_cloud/services/events.py:46-47 | The first event of a valid chain has sequence one and 64 zeros for a previous hash |
| `AuditChain.StoredHashPinsHistory` | src/privacy_cloud/services/events.py:98-114 | Two valid chains sharing a stored hash agree on its position and on all events up to it |
| `AuditChain.OnlyPrefixesVerify` | src/privacy_cloud/services/events.py:98-115 | Whatever was altered, reordered, inserted or deleted: a table whose stored hashes all come from a valid chain verifies iff it is a prefix of that chain |
| `AuditChain.KeptHashesAllowNoChange` | src/privacy_cloud/services/events.py:98-114 | With the stored hashes kept, a chain verifies iff it is the original |
| `AuditChain.AlteredEventIsDetected` | src/privacy_cloud/services/events.py:100-112 | Altering any enveloped field of one event fails verification |
| `AuditChain.MovedHashIsDetected` | src/privacy_cloud/services/events.py:100-112 | A stored hash at another position fails verification, however other fields are rewritten |
| `AuditChain.InteriorDeletionIsDetected` | src/privacy_cloud/services/events.py:100-112 | So does removing an event that is not the last, even if fields are renumbered |
| `AuditChain.ReorderingIsDetected` | src/privacy_cloud/services/events.py:100-112 | So does exchanging two events |
| `AuditChain.TruncationVerifies` | src/privacy_cloud/services/events.py:100-115 | Every prefix of a valid chain verifies |
| `AuditLog.AuditTable.AppendAudit` | src/privacy_cloud/services/events.py:37-69 | With the concrete hash pre-image: the new row carries the given fields, the payload's hash and the next sequence, extends exactly its tenant's chain and keeps every chain valid; only a taken event hash refuses it, and then nothing is written |
| `AuditLog.AuditTable.ReadHead` | src/privacy_cloud/services/events.py:37-45 | The tenant's row with the largest sequence |
| `AuditLog.AuditTable.VerifyTenant` | src/privacy_cloud/services/events.py:90-115 | True iff the tenant's rows in sequence order form a valid chain; always true of a table built by appends |
| `AuditWriters.QueriesSeeTheChain` | src/privacy_cloud/services/events.py:37-45 | On a valid chain the head query returns its last event and the ordered query the chain |
| `AuditWriters.ChainsNeverFork` | src/privacy_cloud/services/events.py:23-69 | For every interleaving of lock, read, append, commit and rollback, any tenant-to-key mapping, with or without advisory locks, every tenant's committed events are numbered 1..n and verify |
| `AuditWriters.LockedAppendsNeverConflict` | src/privacy_cloud/services/events.py:34-36 | With advisory locks an append never meets a taken sequence number |
| `Percentile.PercentileIsNearestRank` | src/privacy_cloud/services/adaptive_concurrency.py:47-52 | The percentile is a sample, and it is at most v iff at least the rank many samples are |
| `Percentile.PercentileIsLeast` | src/privacy_cloud/services/adaptive_concurrency.py:47-52 | For a fraction in (0,1] it is the least sample with at least fraction*n samples at or below it |
| `Percentile.PercentileIgnoresOrder` | src/privacy_cloud/services/adaptive_concurrency.py:50-50 | Only the multiset of samples matters |
| `Aimd.BackOffCondition` | src/privacy_cloud/services/adaptive_concurrency.py:72-80 | The controller backs off iff a call failed or fewer than nineteen of twenty latencies meet the target |
| `Aimd.AimdConcurrencyController.Adjust` | src/privacy_cloud/services/adaptive_concurrency.py:72-89 | The next limit from the observed failures and timely latencies in closed form, the reported percentile and failure rate, and a cleared window |
| `Aimd.LimitStaysInRange` | src/privacy_cloud/services/adaptive_concurrency.py:77-80 | Over every history the limit stays within minimum and maximum |
| `Aimd.HealthyWindowsAdd` | src/privacy_cloud/services/adaptive_concurrency.py:79-80 | k healthy windows give exactly min(maximum, L + k*step) |
| `Aimd.BadWindowsShrink` | src/privacy_cloud/services/adaptive_concurrency.py:77-78 | k bad windows give at most max(minimum, L*ratio^k) despite the nested floors |
| `Aimd.BadWindowIsFloor` | src/privacy_cloud/services/adaptive_concurrency.py:77-78 | One bad window gives exactly the product cut to an integer, or the minimum if that is above it |
| `Aimd.BadWindowsReachMinimum` | src/privacy_cloud/services/adaptive_concurrency.py:77-78 | With ratio below one, L - minimum bad windows reach the minimum |
| `Aimd.LuaAgrees` | src/privacy_cloud/services/adaptive_concurrency.py:8-26 | From the stored window, or the default when there is none, the script equals the controller iff the window is non-empty or the limit cannot grow |
| `Aimd.LuaInRange` | src/privacy_cloud/services/adaptive_concurrency.py:8-26 | The script keeps the stored window within bounds |
| `Batch.RedisWindow.Adjust` | src/privacy_cloud/services/adaptive_concurrency.py:8-26 | Computes the script's current and next window and stores the latter |
| `Batch.RegionalSourceClient.ExecuteAll` | src/privacy_cloud/services/source_connectors.py:66-107 | One batch: no receipts iff a call raises; otherwise a receipt per operation in order, payload included, and exactly their latencies and failures added to the observations |
| `Batch.LatenciesAt` | src/privacy_cloud/services/source_connectors.py:80-82 | The observed latencies are those of the batch's answers, in order |
| `Batch.FailuresCount` | src/privacy_cloud/services/source_connectors.py:81-82 | The counted failures are the answers that were not successful |
| `Batch.RegionalSourceClient.RunRound` | src/privacy_cloud/services/source_connectors.py:98-122 | The window of a pass is the shared one, or the client's own when none is stored; the decision is taken from the window stored by then and from all samples observed; a raising call leaves limit and stored window undecided |
| `Batch.RegionalSourceClient.ExecuteRound` | src/privacy_cloud/services/source_connectors.py:98-122 | A pass without earlier samples and without interference decides like the local controller |
| `Batch.RegionalSourceClient.ExecuteBatch` | src/privacy_cloud/services/source_connectors.py:92-123 | Mixed scopes are refused; a raising call aborts after complete rounds that lead up to its batch; otherwise one receipt per operation in input order, each the source's answer within its batch, consecutive batches within windows in range, whatever others do to the shared window; without interference the shared and the local run are the same rounds |
| `Batch.LocalRoundsAreThePlan` | src/privacy_cloud/services/source_connectors.py:98-108 | Rounds that start at the window left by the previous one are exactly the recursive plan |
| `Overload.OverloadBound` | src/privacy_cloud/services/adaptive_concurrency.py:72-82 | Against capacity C: no batch under a window above C+1, the exact condition for leaving a higher limit, and (R-1)*S + (C+1) <= N for R >= 1 rejections |
| `Overload.FailedReceiptsAreBounded` | src/privacy_cloud/services/source_connectors.py:96-123 | The same bound for the failed receipts a batch execution returns |
| `Overload.FailedReceiptsAreRejections` | src/privacy_cloud/services/source_connectors.py:107-108 | The failed receipts are what the batches exceed the capacity by |
| `Overload.CapacityVerdict` | src/privacy_cloud/services/adaptive_concurrency.py:72-80 | Against such a source the controller backs off iff the batch exceeded the capacity |
| `Overload.TransportRejectsOverCapacity` | benchmarks/run_connector_benchmark.py:33-47 | The benchmark's transport rejects exactly the excess of each batch |
| `Overload.PartialBatchOvershoots` | src/privacy_cloud/services/adaptive_concurrency.py:79-80 | For every capacity, a last batch of C operations at window C+1 leaves the limit C+2 |
| `Admission.HoldersNeverExceedMaximum` | src/privacy_cloud/services/adaptive_concurrency.py:28-44 | Whatever moves, expires or crashes, the holder set stays within the maximum and the stored window in range |
| `Admission.AdmissionRespectsWindow` | src/privacy_cloud/services/adaptive_concurrency.py:37-44 | A call is admitted iff the live holders are below the current window; its entry then lasts for the admission timeout and five seconds, within the window; a refusal only drops lapsed entries |
| `Admission.InFlightIsBounded` | src/privacy_cloud/services/adaptive_concurrency.py:142-166 | With distinct holders, calls ending before their lease and a key outliving it, calls in flight never exceed the holder set |
| `Admission.CoverageCondition` | src/privacy_cloud/services/adaptive_concurrency.py:28-44 | For every step the exact condition under which each call in flight still has an entry: a release of its holder's only call, an attempt that finds the other calls' entries live or renews them, a key that expires with no call left |
| `Admission.CoverageOfRuns` | src/privacy_cloud/services/source_connectors.py:170-225 | Over a whole run every call stays covered iff every step meets its condition |
| `Admission.SharedHolderEscapes` | src/privacy_cloud/services/source_connectors.py:173-179 | An instance: two calls sharing a holder leave one in flight with no entry |
| `Executor.Redis.Acquire` | src/privacy_cloud/services/adaptive_concurrency.py:28-44 | The script is the machine's acquire step, and returns the limit it compared with |
| `Executor.Redis.Adjust` | src/privacy_cloud/services/adaptive_concurrency.py:8-26 | The script is the machine's adjust step |
| `Executor.Redis.Release` | src/privacy_cloud/services/adaptive_concurrency.py:165-166 | Removing the holder is the machine's release step |
| `Executor.RegionalSourceExecutor.Admit` | src/privacy_cloud/services/source_connectors.py:171-185 | Terminates after at most ceil(timeout/20 ms) sleeps; admitted means counted within the window read last; refused means the deadline has passed |
| `Executor.RegionalSourceExecutor.Execute` | src/privacy_cloud/services/source_connectors.py:154-225 | Which calls return a success, a failed response or an exception, by field; and among arbitrary steps of other workers the call is a run of the admission machine whose own steps are the attempts and, once admitted, a published decision unless it was cancelled or the publication fails, and always the end of its place |
| `Executor.RegionalSourceExecutor.Observe` | src/privacy_cloud/services/source_connectors.py:203-218 | A success is returned iff the response was successful, readable and valid, a failed response iff it was readable, and anything else raises |
| `Executor.PublishedVerdict` | src/privacy_cloud/services/source_connectors.py:187-200 | The published decision raises the window iff the response was readable, valid, successful and timely |
| `Executor.PublishedNumbers` | src/privacy_cloud/services/source_connectors.py:187-218 | The published tail latency is the worst sample and the failure rate the part of samples that failed, for each kind of reply |
| `Executor.TailSteps` | src/privacy_cloud/services/source_connectors.py:187-225 | After the source call a decision is published unless the call was cancelled or Redis refuses, and then the place is released, or lost if Redis is out of reach |

## Left out

- FastAPI routes, authentication, metrics, settings, request listing, seeding and clearing of records, Terraform, Helm and benchmark reporting: operational or easy.
- The internals of SHA-256, UTF-8 encoding, `hash_subject` and the payload hash: hashes and subjects are given values, and the payload itself is not stored by the service either.
- `LocalTaskQueue`: it drops a message on receipt, so recovery does not hold for it; the queue here keeps a message until acknowledged and counts dead-letter messages as outstanding.
- `consume_with_heartbeat` as a concurrent object: its heartbeats and its conditional acknowledgement are protocol steps (`Heartbeat`, `Ack`), not a class.
- READ COMMITTED effects inside a transaction and ORM session caching: each transaction is one atomic step.
- Concurrent evaluation inside `asyncio.gather`: a batch is answered in order; the decision depends only on the multiset of samples.
- Observations that calls of an aborted batch still add after the exception: all of a batch is observed when `execute_batch` returns or raises.
- A cancellation while a call waits for admission, before it holds a place.
- A batch limit below one, with which the local loop would not advance: `Batch` takes the minimum to be at least one and the starting limit in range.
- Wall-clock skew between workers and between the monotonic and the Redis clock, and floating-point rounding.
- The artifact's `generated_at`, `policy_version` and identifying fields, the exact wording of error messages (only their truncation is kept), timestamps of rows.
- More than one audit append per tenant within one transaction in `AuditWriters`; the services append at most one.
- JSON values other than the envelope's strings and integers.
- Executor.RegionalSourceExecutor.Execute: the source call's own duration appears only as the time other workers' steps let pass.
- Store.Database.HandleTaskReady: runs without interference between its transactions; interference is treated in the protocol.
