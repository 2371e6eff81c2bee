# Verified model of the message pipeline

This project models the asynchronous message pipeline of the omnichannel inbox (journal,
transactional outbox, job queue, idempotent processing, Conversation Core) and the small algorithms
around it, and proves the promises its documentation makes: durable state before side effects,
nothing lost, nothing processed twice, nothing moved backwards.

## How it is modelled

Every protocol is a state machine: a `State`, a `Step` per SQL statement, transaction, queue
operation, clock tick or crash, `Enabled`, `Next`, and `Run` over a sequence of steps. A read and a
later write are separate steps, so every interleaving of any number of workers is a `Run`. Main
results are lemmas about all runs. Where a promise holds only in some runs, the exact condition is a
lemma with an if-and-only-if, and a concrete run shows the failure.

Code that updates state in place is written as classes whose methods do what the source does,
statement by statement, with a call that lets everybody else act between any two of them
(`Interfere`, `Others`: the bodies do nothing, the contracts allow anything the protocol allows).
Their contracts say that the recorded run stays a run of the protocol and which part of it is their
own. What may go wrong around a call (a query that fails, a commit that is not reported, a provider's
refusal) is a parameter, so a contract says what happens for each case, the good one included.

| file | subject |
|---|---|
| `Outbox.dfy`, `OutboxLeases.dfy`, `OutboxDispatcher.dfy` | rows, leases and job keys; what needs timely writes; the dispatch loop |
| `Journal.dfy`, `Pipeline.dfy`, `EndToEnd.dfy` | batch journaling; journal, outbox, queue and processing runs; the same together with ingest |
| `Reconciliation.dfy` | which lost events the reconciliation check reports |
| `Polling.dfy`, `PollingCursor.dfy`, `ChannelPolling.dfy` | lease, cursor and journal in one transaction; when the cursor moves back; the polling service |
| `Ingest.dfy`, `InboundProcessor.dfy` | conversations and their aggregates; ingesting and processing one event |
| `DeliveryStatus.dfy`, `MessageRuns.dfy`, `Receipts.dfy`, `Outbound.dfy` | the status rule; interleaved writers; receipts; send attempts |
| `Assignment.dfy`, `ConcurrentAssignment.dfy` | distribution of new conversations to agents, one at a time and by concurrent transactions |
| `Idempotency.dfy`, `IdempotencyInterceptor.dfy` | expiring records, the per-process store, the interceptor |
| `RateLimit.dfy`, `CanonicalJson.dfy`, `Pagination.dfy`, `ObjectKey.dfy` | fixed windows, canonical text, keyset pages, storage keys |

Passed in as parameters or chosen arbitrarily: generated ids (distinct from all earlier ones), the
clock (one, never running backwards within a run), adapter and provider answers, database and queue
failures, shutdown requests, which worker acts next. Hashes are represented by the text that is hashed.

## Where the code does not keep a promise

- A COMPLETED outbox row can go back to PENDING in two ways: a worker writes a failure after its
  lease expired (`OutboxLeases.LateFailureUndoesCompletion`), or, still within its lease, over a
  completion that was committed but reported as an error
  (`OutboxLeases.InLeaseFailureUndoesCompletion`). Over all states the failure write is the only
  cause (`Outbox.CompletedIsLeftExactlyBy`), within leases exactly the second kind
  (`OutboxLeases.TimelyStepLeavesCompletedExactlyWhen`).
- A replay, or a run that lost its job to the stalled-job check, can reopen an event whose job is
  already done, dropped, or about to be done, and the event is lost
  (`Pipeline.OverwriteLosesExactlyWhen`, `Pipeline.ReplayLosesEvent`).
- The queue drops failed jobs as it drops completed ones, after seven days or when there are more
  than 10,000, and its storage can lose any job. The event of a dispatched row is lost with its job
  exactly when its status is not final by then (`Pipeline.ForgetLosesExactlyWhen`,
  `Pipeline.ForgottenFailureLosesEvent`: six retryable failures, then the removal). In runs without
  such a write and without such a removal nothing is lost (`Pipeline.NoSilentLoss`), and these are
  exactly the runs that keep the invariant behind it (`Pipeline.OrderlyExactlyWhen`).
- The reconciliation check reports a lost event exactly when the queue has dropped its job and it was
  dispatched between ten minutes and 24 hours ago (`Reconciliation.ReportedExactlyWhen`). It misses
  an event a replay lost, because the queue keeps the completed job
  (`Reconciliation.ReplayLossIsNotReported`), and one whose failed job goes after the seven days.
- The per-agent cap holds when conversations are assigned one at a time. Transactions for different
  senders that count the same conversations overshoot it, by up to one less than their number
  (`ConcurrentAssignment.CapOvershootIsBounded`, `ConcurrentAssignment.CapOvershootIsReached`), and
  stretch balance and turns likewise (`ConcurrentAssignment.GapIsReached`,
  `ConcurrentAssignment.SharedTurnsAreReached`).
- Two agents who retry one failed message can undo a READ, because the retry writes without a guard
  on the status (`MessageRuns.StaleRetryUndoesRead`, `MessageRuns.NoStaleRetriesExactlyWhen`).
- A receipt is lost when the status changes between its read and its guarded write, so interleaved
  receipts need not end in the greatest status (`MessageRuns.ReceiptIsLostExactlyWhen`,
  `MessageRuns.ReceiptsEndInMaximumExactlyWhen`, `MessageRuns.ReadIsLostToDelivered`).
- A reply the provider accepted can end up failed, by a later attempt or by the sweep, when the
  acceptance was not recorded (`Outbound.AcceptedYetFailedExactlyWhen`,
  `Outbound.LaterRefusalFailsAcceptedReply`, `Outbound.SweepFailsAcceptedReply`).
- An agent who reopens a resolved conversation can give a contact two open ones
  (`Ingest.TwoOpenExactlyWhen`, `Ingest.ReopeningGivesTwoOpen`).
- A customer message does not reopen its conversation when an agent resolves it after the message's
  transaction has read it as open (`Ingest.LeavesOpenExactlyWhen`, `Ingest.ResolvedUnderAMessage`).
- The polling cursor can move back when a poll is overtaken; nothing is skipped
  (`PollingCursor.CursorMovesBackExactlyWhen`, `PollingCursor.CursorCanMoveBack`).
- The message cursor keeps milliseconds while the column keeps microseconds, so two messages within
  one millisecond can hide one of them (`Pagination.WalkEnumeratesExactlyWhen`,
  `Pagination.MicrosecondsLoseMessages`). Replies are created without a date
  (`apps/api/src/conversations/conversations.service.ts:308-325`): if the column default fills it
  (`TIMESTAMPTZ(6) DEFAULT CURRENT_TIMESTAMP`) it has microseconds, if the database client does, or
  the code itself as everywhere else, it is whole milliseconds and `Pagination.WalkEnumerates` applies.
- The two rate limit stores differ when a limit is below one, and when more identities come than the
  per-process map holds, because it is emptied then (`RateLimit.StoresAgreeExactlyWhen`,
  `RateLimit.EmptyingSeparatesStores`).
- Keys built for years outside 100 to 9999 are rejected by the parser
  (`ObjectKey.BuiltKeysRoundTripExactlyWhen`).

Where documentation and code disagree the model follows the code: job keys begin with `outbox-`
rather than `outbox:`.

## Model

| member | source | states |
|---|---|---|
| DeliveryStatus.ApplyTransition | packages/channel-adapters/src/normalization/monotonic-delivery.ts:15-49 | a transition is accepted exactly when the rule allows it, keeps the status when refused, and nothing leaves READ or takes FAILED anywhere but PENDING |
| DeliveryStatus.ChangesGoForwardOrRestart | packages/contracts/src/channels/delivery-status.ts:34-63 | the rule allows exactly the forward changes and the restart FAILED to PENDING |
| DeliveryStatus.ReadIsFinal | packages/contracts/src/channels/delivery-status.ts:34-63 | no sequence of receipts leaves READ |
| DeliveryStatus.FailedIsFinal | packages/contracts/src/channels/delivery-status.ts:34-63 | only PENDING takes a message out of FAILED |
| DeliveryStatus.ReceiptsEndInMaximum | packages/contracts/src/channels/delivery-status.ts:15-63 | SENT, DELIVERED and READ receipts in any order and number end in the greatest status given |
| DeliveryStatus.FailedReceiptsDecideByOrder | packages/contracts/src/channels/delivery-status.ts:34-63 | with FAILED receipts among them the message ends FAILED exactly when one comes before every READ |
| DeliveryStatus.OrderInsensitiveExactlyWhen | packages/contracts/src/channels/delivery-status.ts:34-63 | receipts end the same in every order exactly when they do not hold both FAILED and READ |
| MessageRuns.ChangesAreBounded | apps/worker/src/conversations/conversation-ingest.service.ts:435-476 | in every interleaving of receipts, send results, sweep and retries, each return to PENDING buys at most four status changes |
| MessageRuns.NoStaleRetriesExactlyWhen | apps/api/src/conversations/conversations.service.ts:366-410 | a retry never restarts a message that is not FAILED exactly in the runs whose unguarded retry writes land on FAILED or PENDING |
| MessageRuns.AtMostThreePlusFourPerRetry | apps/worker/src/processing/outbound-dispatcher.service.ts:223-282 | with k such retries a new message changes status at most 3 + 4k times |
| MessageRuns.ReadIsLeftOnlyByRetryWrites | apps/api/src/conversations/conversations.service.ts:387-391 | a READ message stays READ in exactly the runs without a retry write |
| MessageRuns.ReadIsAbsorbing | apps/worker/src/conversations/conversation-ingest.service.ts:435-476 | READ is never left while retry writes land on FAILED messages |
| MessageRuns.StaleRetryUndoesRead | apps/api/src/conversations/conversations.service.ts:371-391 | a run in which the slower of two retries takes READ back to PENDING |
| MessageRuns.ReceiptIsLostExactlyWhen | apps/worker/src/conversations/conversation-ingest.service.ts:435-476 | after any run of the other writers without a restart, the guarded write of a receipt that was read takes effect exactly when the status did not change in between |
| MessageRuns.ReceiptsEndInMaximumExactlyWhen | apps/worker/src/conversations/conversation-ingest.service.ts:409-476 | interleaved SENT, DELIVERED and READ receipts end in the greatest of them exactly when one that carries it is written with no change of status since it was read |
| MessageRuns.ReadIsLostToDelivered | apps/worker/src/conversations/conversation-ingest.service.ts:439-455 | a run from creation in which a READ receipt is read, written, and lost to DELIVERED |
| MessageRuns.WritersAgree | apps/worker/src/processing/outbound-dispatcher.service.ts:223-282 | the send results and the sweep of these runs write what the sender writes |
| Outbox.JobKeyInjective | apps/worker/src/outbox/outbox-dispatcher.service.ts:40-42 | different events never share a job key |
| Outbox.StepActsRowwise | packages/database/src/outbox.ts:107-176 | what each statement does to one row, on its own |
| Outbox.OutboxSafety | packages/database/src/outbox.ts:107-176 | in all runs, stale workers included: PROCESSING exactly with a lease, COMPLETED only after the queue took the job key, retry count equal to failures plus recoveries |
| Outbox.InvKept | apps/worker/src/outbox/outbox-dispatcher.service.ts:157-221 | every step of every worker, timely or not, keeps the outbox invariant |
| Outbox.WaitingRowsCanComplete | apps/worker/src/outbox/outbox-dispatcher.service.ts:113-196 | from any state a waiting row can be dispatched by an idle worker, however often it was tried: claimed, its job taken, completed |
| Outbox.RefusedRowsWaitOrDie | apps/worker/src/outbox/outbox-dispatcher.service.ts:198-221 | a refused dispatch puts the row back with one more try counted and its error kept, and gives it up on the fifth; no other row changes |
| Outbox.AbandonedRowsAreRecovered | packages/database/src/outbox.ts:136-176 | a row whose worker is gone waits again once its lease is over, or is given up after five tries |
| Outbox.LeasesAreHonoured | packages/database/src/outbox.ts:136-176 | recovery leaves alone rows whose lease lasts and rows that are not being processed |
| Outbox.CompletedIsLeftExactlyBy | apps/worker/src/outbox/outbox-dispatcher.service.ts:211-220 | the unguarded failure write is the only step that leaves COMPLETED, and it always does |
| Outbox.DeadLetterIsLeftExactlyBy | apps/worker/src/outbox/outbox-dispatcher.service.ts:188-220 | DEAD_LETTER is left exactly by a late completion, or a late failure whose copy of the row had attempts left |
| OutboxLeases.AtMostOneOwner | packages/database/src/outbox.ts:113-127 | in runs that write outcomes only within the lease, two unexpired claims on one row are one claim of one worker |
| OutboxLeases.RetriesAreBounded | packages/database/src/outbox.ts:142-170 | in such runs: retry count at most 5 while PENDING or PROCESSING, 5 or 6 in DEAD_LETTER, at most 6 claims ending otherwise than by release |
| OutboxLeases.ClaimsAreConserved | apps/worker/src/outbox/outbox-dispatcher.service.ts:188-256 | in such runs every claim was released, failed, recovered or dead-lettered, or is the one the row is processed or completed by |
| OutboxLeases.TimelyStepLeavesCompletedExactlyWhen | apps/worker/src/outbox/outbox-dispatcher.service.ts:188-220 | within leases a step leaves COMPLETED exactly when it records a failure over a completion that was committed but reported as an error |
| OutboxLeases.EndStatesAreAbsorbing | apps/worker/src/outbox/outbox-dispatcher.service.ts:188-220 | within leases DEAD_LETTER rows never change again, nor COMPLETED ones in runs without such a failure |
| OutboxLeases.LateFailureUndoesCompletion | apps/worker/src/outbox/outbox-dispatcher.service.ts:211-220 | a run from the empty table in which one late write takes a COMPLETED row to PENDING |
| OutboxLeases.InLeaseFailureUndoesCompletion | apps/worker/src/outbox/outbox-dispatcher.service.ts:188-220 | a run within leases in which an unreported completion is overwritten by a failure |
| OutboxDispatcher.Shared.SelectDue | packages/database/src/outbox.ts:120-127 | only rows that are PENDING with their time reached and not locked, oldest first, each once; every one of them, unless the limit is reached, whatever else its columns hold |
| OutboxDispatcher.Shared.ClaimPending | packages/database/src/outbox.ts:107-132 | a claim is one protocol step: the worker gets exactly the selected rows' copies, those rows are PROCESSING for it for a minute, all others are unchanged |
| OutboxDispatcher.InterferenceLeavesTheHand | apps/worker/src/outbox/outbox-dispatcher.service.ts:157-221 | whatever other workers do, a worker's claimed events stay as they are and no row disappears |
| OutboxDispatcher.Shared.Send | apps/worker/src/queue/bullmq-job-queue.ts:395-416 | the queue holds the job key once after a send that took effect, reported or not, and is unchanged otherwise |
| OutboxDispatcher.Shared.MarkCompleted | apps/worker/src/outbox/outbox-dispatcher.service.ts:188-196 | writes exactly the completed row, or throws having written exactly that or nothing |
| OutboxDispatcher.Shared.MarkFailed | apps/worker/src/outbox/outbox-dispatcher.service.ts:211-220 | writes exactly the failed or dead row, or ends the cycle having written exactly that or nothing |
| OutboxDispatcher.Shared.ReleaseUnattempted | apps/worker/src/outbox/outbox-dispatcher.service.ts:241-256 | exactly the rows in hand that are still PROCESSING for this worker are released, all others are unchanged |
| OutboxDispatcher.Dispatcher.DispatchOne | apps/worker/src/outbox/outbox-dispatcher.service.ts:163-221 | the event's steps are those the ends of its send, completion and failure write call for; the cycle is given up exactly when a failure could not be recorded |
| OutboxDispatcher.Dispatcher.DispatchAll | apps/worker/src/outbox/outbox-dispatcher.service.ts:150-230 | events are handled in claim order, each with its own outcome; the loop goes on exactly as long as nothing stops it, then releases the rest; the returned count is the number dispatched |
| OutboxDispatcher.Dispatcher.PollAndDispatch | apps/worker/src/outbox/outbox-dispatcher.service.ts:113-238 | whatever others do, one poll is one dispatch cycle of the protocol and nothing stays in the worker's hand; a busy or stopping worker does nothing, any other claims unless the claim throws, and dispatches everything it claimed when nothing goes wrong |
| Journal.DedupKeepsTheLast | packages/database/src/provider-events.ts:196 | within a batch exactly the last input of each key is kept |
| Journal.NewInputsAre | packages/database/src/provider-events.ts:196-216 | accepted are exactly the last inputs per key whose key the account has not journaled |
| Journal.JournalingKeepsSound | packages/database/src/provider-events.ts:187-226 | journaling keeps one outbox row per journaled event and every event indexed once, and leaves every input's key journaled |
| Journal.RedeliveryAcceptsNothing | packages/database/src/provider-events.ts:187-231 | a batch delivered again is all duplicates |
| Journal.EventJournal.JournalInTransaction | packages/database/src/provider-events.ts:187-231 | the insert and the loop of outbox rows leave exactly the specified tables; accepted ids and duplicate count are right |
| Journal.EventJournal.CreateOutboxEvent | packages/database/src/outbox.ts:26-45 | a row under a new id that waits unclaimed and unretried until its time, with a job key no other row has; every other row and the journal are unchanged |
| Pipeline.NoSilentLoss | apps/worker/src/processing/inbound-processor.service.ts:44-125 | at every point of every run of journaling, dispatch, crashes, recovery, processing and removal of jobs, in which no overwrite reopens an event whose job is spent and no job is dropped whose event is still to be processed, a journaled event is PROCESSED, IGNORED or FAILED, or its outbox row is not COMPLETED, or the queue holds its unfinished job |
| Pipeline.InvKept | apps/worker/src/queue/bullmq-job-queue.ts:356-416 | every step, overwrites and removals of jobs that respect their guards included, keeps: a job that is done, or dropped after being accepted, means a terminal event |
| Pipeline.OrderlyExactlyWhen | apps/worker/src/queue/bullmq-job-queue.ts:67-75 | a run keeps that invariant at every point exactly when all its overwrites and removals respect the guards |
| Pipeline.OverwriteKeepsInvExactlyWhen | packages/database/src/provider-events.ts:121-144 | an overwrite keeps the invariant exactly when the new status is final or the event's job is not done, dropped, or about to be done |
| Pipeline.OverwriteLosesExactlyWhen | packages/database/src/provider-events.ts:121-144 | an overwrite of a dispatched event loses it, at once or when the returning run finishes, exactly when that guard fails |
| Pipeline.ReplayLosesEvent | packages/database/src/provider-events.ts:121-144 | a run from the empty tables in which a replay during a returning run loses the event |
| Pipeline.ForgetKeepsInvExactlyWhen | apps/worker/src/queue/bullmq-job-queue.ts:67-75 | the removal of a job keeps the invariant exactly when the job completed or its event has a final status |
| Pipeline.ForgetLosesExactlyWhen | apps/worker/src/queue/bullmq-job-queue.ts:67-75 | the removal of a dispatched event's job, completed, failed or lost, loses the event exactly when its status is not final |
| Pipeline.ForgottenFailureLosesEvent | apps/worker/src/queue/bullmq-job-queue.ts:67-75 | a run from the empty tables without overwrites: six attempts fail for a retryable reason, the failed job is dropped, the event is lost |
| Reconciliation.ReportedExactlyWhen | apps/worker/src/outbox/outbox-reconciliation.service.ts:93-130 | in every run the check reports a row exactly when its event is lost, its job is gone from the queue, and it was dispatched within the window |
| Reconciliation.OrderlyRunsAreNotReported | apps/worker/src/outbox/outbox-reconciliation.service.ts:93-130 | it reports nothing in runs in which nothing is lost |
| Reconciliation.ReplayLossIsNotReported | apps/worker/src/outbox/outbox-reconciliation.service.ts:119-121 | a run that loses an event which the check never reports |
| EndToEnd.ProcessedEventsAreDelivered | apps/worker/src/processing/inbound-processor.service.ts:74-107 | in every run of the pipeline together with ingest, a PROCESSED event has each of its messages stored and counted exactly once |
| EndToEnd.EveryEventIsHeldOrDelivered | apps/worker/src/processing/inbound-processor.service.ts:44-125 | at any time of a run that respects the guards on overwrites and removals, a journaled event is held by a row or a job, or all its messages are stored exactly once, or it was ignored or failed for good |
| Polling.CursorProvesPrefix | apps/worker/src/polling/channel-polling.service.ts:109-149 | for any number of workers, crashes and overlapping leases, every event between the first and any saved cursor is journaled exactly once with exactly one outbox row |
| Polling.DeletedChannelsAreNotLeased | apps/worker/src/polling/channel-polling.service.ts:110-119 | in every run a channel is never leased after it was deleted |
| PollingCursor.CursorMovesBackExactlyWhen | apps/worker/src/polling/channel-polling.service.ts:110-147 | a step lowers the saved cursor exactly when it is the commit of a poll since whose lease another poll saved a cursor beyond it |
| PollingCursor.CursorIsMonotoneExactlyWhen | apps/worker/src/polling/channel-polling.service.ts:110-147 | over whole runs the cursor only moves forward exactly in the runs without such a commit |
| PollingCursor.CurrentLeasesKeepCursor | apps/worker/src/polling/channel-polling.service.ts:110-166 | it only moves forward in runs in which every commit and release is made by the poll that leased last |
| PollingCursor.FromFreshExactlyWhen | apps/worker/src/polling/channel-polling.service.ts:110-147 | both statements for every run of a channel nobody has polled yet |
| PollingCursor.CursorCanMoveBack | apps/worker/src/polling/channel-polling.service.ts:110-147 | an enabled run of two overlapping polls that ends with a smaller cursor than was saved before |
| ChannelPolling.Shared.TryLease | apps/worker/src/polling/channel-polling.service.ts:110-119 | the lease is taken exactly when the channel is not deleted and the lease is free, with the cursor of that moment |
| ChannelPolling.Shared.SaveBatch | apps/worker/src/polling/channel-polling.service.ts:131-149 | the transaction saves the cursor, frees the lease and leaves every fetched event journaled; the count is the number of new ones |
| ChannelPollingService.Poller.Tick | apps/worker/src/polling/channel-polling.service.ts:75-106 | starts only due channels, none twice, never beyond the parallel limit, and leaves a due one only when the limit is reached |
| ChannelPollingService.Poller.PollChannel | apps/worker/src/polling/channel-polling.service.ts:109-188 | one poll is nothing (no lease to be had), a saved batch, or a failure, as the provider's answer and the writes decide; saved whenever they all succeed; the result is the number of inputs new to the journal, and the schedule is the interval, the short wait after a full batch, or the backoff |
| ChannelPollingService.Backoff | apps/worker/src/polling/channel-polling.service.ts:170-171 | the delay after failures is never above the maximum and never below the interval unless it is the maximum |
| ChannelPollingService.BackoffDoubles | apps/worker/src/polling/channel-polling.service.ts:170-171 | the delay starts at the interval, doubles with every further failure and stops at five minutes |
| Ingest.TimelineTimestamp | apps/worker/src/conversations/conversation-ingest.service.ts:59-65 | the provider's time exactly when it is plausible, otherwise the receive time |
| Ingest.InvKept | apps/worker/src/conversations/conversation-ingest.service.ts:122-207 | ingest, reply, mark-read and status steps keep aggregates, locks and the log consistent |
| Ingest.AggregatesAgree | apps/worker/src/conversations/conversation-ingest.service.ts:176-197 | unread count is the number of messages stored since the last reply or mark-read; last inbound time is the greatest stored timestamp |
| Ingest.LatestIsMaximum | apps/worker/src/conversations/conversation-ingest.service.ts:180-186 | that timestamp is one of the conversation's and none is greater |
| Ingest.StoredAtMostOnce | apps/worker/src/conversations/conversation-ingest.service.ts:81-102 | for any schedule a provider message is stored, and counted unread, at most once |
| Ingest.StoredIdsAreDistinct | apps/worker/src/conversations/conversation-ingest.service.ts:93-101 | in every run no two stored messages share an id |
| Ingest.StoredForGood | apps/worker/src/conversations/conversation-ingest.service.ts:81-102 | a stored message never changes or disappears |
| Ingest.UndisturbedMessageUpdates | apps/worker/src/conversations/conversation-ingest.service.ts:173-197 | with nobody writing in between, a message leaves its conversation open, one more unread, and its times at the later of what they were and the message's |
| Ingest.LeavesOpenExactlyWhen | apps/worker/src/conversations/conversation-ingest.service.ts:173-197 | a stored message leaves its conversation open unless an agent took it out of the open state after the transaction read it as open |
| Ingest.ResolvedUnderAMessage | apps/worker/src/conversations/conversation-ingest.service.ts:173-197 | a run from the empty tables after which a resolved conversation holds an unread message |
| Ingest.TwoOpenExactlyWhen | apps/api/src/conversations/conversations.service.ts:100-210 | a contact gets a second open conversation exactly by an agent reopening one, or a commit storing into one, while another is open |
| Ingest.ReopeningGivesTwoOpen | apps/api/src/conversations/conversations.service.ts:100-210 | a run from the empty tables that ends with two open conversations of one contact |
| Ingest.SlotsBreakExactlyWhen | apps/worker/src/conversations/conversation-ingest.service.ts:278-312 | the one conversation a contact's messages go to, open or being created, stops being unique exactly by a reopening while another one is open or being created |
| Ingest.AtMostOneOpenConversation | apps/worker/src/conversations/conversation-ingest.service.ts:278-312 | without reopening by an agent a contact never has two open conversations |
| InboundProcessor.LongerRunsKeep | apps/worker/src/conversations/conversation-ingest.service.ts:105-120 | what one look at the database found stored is still there at any later one |
| InboundProcessor.ViolationsAreDuplicates | apps/worker/src/conversations/conversation-ingest.service.ts:93-101 | with one owner per message id a unique violation always means that the message is already stored |
| InboundProcessor.Database.ResolveConversation | apps/worker/src/conversations/conversation-ingest.service.ts:278-312 | the open or pending conversation with the latest activity, the newer one of equals, or a new one when there is none |
| InboundProcessor.Database.Commit | apps/worker/src/conversations/conversation-ingest.service.ts:144-197 | stores exactly this message, or reports a violation exactly when it is already stored |
| InboundProcessor.IngestMessage | apps/worker/src/conversations/conversation-ingest.service.ts:81-102 | any number at once: a call that returns leaves the message stored under the id it reports, leaves an already stored one untouched, never surfaces a unique violation, and always returns when nothing fails |
| InboundProcessor.HandleResults | apps/worker/src/processing/inbound-processor.service.ts:71-101 | a complete pass leaves every message of the event stored and every receipt settled, and tallies what was handled and ignored; without faults the pass is complete exactly when the receipts can be settled, an unmatchable one from the fourth attempt on |
| InboundProcessor.JoinedAppends | apps/worker/src/processing/inbound-processor.service.ts:102-107 | the reasons of ignored results are joined by spaces, in order |
| InboundProcessor.Database.Transition | packages/database/src/provider-events.ts:97-116 | a committed status write is one enabled step of the pipeline, the run's own or an overwrite once it lost its job; PROCESSED thus only with every message confirmed, or stored |
| InboundProcessor.Process | apps/worker/src/processing/inbound-processor.service.ts:44-125 | whatever others do, the stalled-job check included, a run is a piece of a recorded run of `EndToEnd` that returns or throws as the pipeline says; a permanent provider failure is written FAILED and returned from, any other failure RECEIVED and thrown; without one the status is PROCESSED with every message stored, or IGNORED when nothing was handled |
| Receipts.ChangedMeansMoved | apps/worker/src/conversations/conversation-ingest.service.ts:446-451 | a row that no longer has the status that was read was moved away from it by a recorded change |
| Receipts.HistoriesConcat | apps/worker/src/conversations/conversation-ingest.service.ts:435-476 | recorded histories of one table compose |
| Receipts.MessageTable.Transition | apps/worker/src/conversations/conversation-ingest.service.ts:435-476 | at most one write, only if the rule allows it, skipped only when the row has left the status that was read; it sets the status and the one time of that status and no other column |
| Receipts.MessageTable.ApplyReceipt | apps/worker/src/conversations/conversation-ingest.service.ts:409-433 | a watermark goes to everything it covers; otherwise the receipt is unmatchable exactly when no message carries its id, and reaches that message, status and time, or somebody else moved it first; nothing else is written |
| Receipts.MessageTable.Candidates | apps/worker/src/conversations/conversation-ingest.service.ts:493-508 | exactly the contact's public replies that are SENT, or DELIVERED for a READ receipt, with a send time up to the watermark |
| Receipts.MessageTable.ApplyWatermarkReceipt | apps/worker/src/conversations/conversation-ingest.service.ts:479-518 | every message sent up to the watermark gets the receipt's status and time or was moved by somebody else meanwhile; nothing else is written; the count is right |
| Outbound.UsedUpJobsLeavePending | apps/worker/src/queue/bullmq-job-queue.ts:67-75 | for every queue configuration and every run with failure writes that succeed, a job that returned or used all its attempts leaves its reply out of PENDING |
| Outbound.AttemptsAreBounded | apps/worker/src/queue/bullmq-job-queue.ts:67-75 | in every run a job is attempted at most once more than its retry limit |
| Outbound.RefusedUntilTheLast | apps/worker/src/processing/outbound-dispatcher.service.ts:148-161 | a reply refused for now each time is tried that often and fails with the last refusal |
| Outbound.SettledRepliesAreLeftAlone | apps/worker/src/processing/outbound-dispatcher.service.ts:95-111 | once a reply has left PENDING no later attempt calls the provider or changes it |
| Outbound.CallsAreBounded | apps/worker/src/queue/bullmq-job-queue.ts:356-389 | the provider is called at most once per attempt, and once more per worker that died |
| Outbound.AcceptedYetFailedExactlyWhen | apps/worker/src/processing/outbound-dispatcher.service.ts:136-165 | over all runs a reply some attempt had accepted ends failed by a worker exactly when a failure is written before any attempt recorded the acceptance and before any receipt |
| Outbound.AcceptedIsNeverFailed | apps/worker/src/processing/outbound-dispatcher.service.ts:136-165 | never in runs in which every acceptance is recorded before a crash or the sweep |
| Outbound.LaterRefusalFailsAcceptedReply | apps/worker/src/processing/outbound-dispatcher.service.ts:112-165 | a run in which recording throws on the first attempt and the second is refused |
| Outbound.SweepFailsAcceptedReply | apps/worker/src/processing/outbound-dispatcher.service.ts:285-305 | a run in which the worker dies after acceptance and the sweep finds the reply pending |
| Outbound.Reply.MarkSent | apps/worker/src/processing/outbound-dispatcher.service.ts:223-258 | only a PENDING reply becomes SENT; a provider id already in use is dropped, not the sent state; committed or not, it is one protocol step |
| Outbound.Reply.Fail | apps/worker/src/processing/outbound-dispatcher.service.ts:260-282 | only a PENDING reply becomes FAILED, as one protocol step |
| Outbound.Reply.Deliver | apps/worker/src/processing/outbound-dispatcher.service.ts:136-160 | the try block is protocol steps that end with the reply recorded, with another attempt to come, or with a failure to write, as the error and the final attempt decide |
| Outbound.Reply.Send | apps/worker/src/processing/outbound-dispatcher.service.ts:95-166 | under any interference one attempt is a piece of a protocol run; it touches nothing unless the reply is PENDING, fails it without a call exactly when the channel is deleted or the content invalid, and otherwise calls once and then records, throws or fails as the answer, the writes and the final attempt decide |
| Outbound.WorkJob | apps/worker/src/queue/bullmq-job-queue.ts:356-389 | a job that completed or used all attempts leaves its reply out of PENDING when failure writes succeed, with bounded provider calls; when nothing goes wrong one call sends the reply |
| Assignment.ChosenIsAvailable | apps/worker/src/conversations/conversation-ingest.service.ts:361-376 | whatever the method, a chosen agent is a candidate below the cap |
| Assignment.UnassignedExactlyWhen | apps/worker/src/conversations/conversation-ingest.service.ts:343-367 | a conversation stays unassigned exactly in manual mode or when no candidate is available |
| Assignment.LoadIsOpenCount | apps/worker/src/conversations/conversation-ingest.service.ts:343-360 | an agent's load is the number of its open and pending conversations |
| Assignment.AvailableExactlyWhen | apps/worker/src/conversations/conversation-ingest.service.ts:361-366 | an agent is available exactly without a cap or with fewer open conversations than the cap |
| Assignment.ResolvingFreesItsAgent | apps/worker/src/conversations/conversation-ingest.service.ts:343-366 | resolving a conversation lowers its agent's load by one and nobody else's |
| Assignment.IdleAgentsAreAvailable | apps/worker/src/conversations/conversation-ingest.service.ts:361-366 | an agent without open conversations is available under any positive cap |
| Assignment.LastCreatedIsLatest | apps/worker/src/conversations/conversation-ingest.service.ts:386-399 | an agent's last turn is the latest of its conversations on the channel, open or not |
| Assignment.ChooseAssignee | apps/worker/src/conversations/conversation-ingest.service.ts:338-406 | the load map, the filter and the folds choose what the rules say: preferred agent first, else the first with the least load or the oldest turn |
| Assignment.CapIsKept | apps/worker/src/conversations/conversation-ingest.service.ts:361-367 | over any sequence of new conversations, one at a time, no agent at or below the cap goes above it |
| Assignment.LeastAssignedBalances | apps/worker/src/conversations/conversation-ingest.service.ts:379-383 | one at a time and with the preferred agent off, the gap between any two candidates' loads never exceeds the larger of 1 and the initial gap |
| Assignment.RoundRobinIsFair | apps/worker/src/conversations/conversation-ingest.service.ts:386-405 | one at a time, any n consecutive assignments go to n different agents, from any starting history |
| Assignment.RoundRobinRepeats | apps/worker/src/conversations/conversation-ingest.service.ts:386-405 | and the n-th assignment after one goes to the same agent |
| ConcurrentAssignment.CapOvershootIsBounded | apps/worker/src/conversations/conversation-ingest.service.ts:131-367 | with at most n transactions at once no agent ever has more than n - 1 conversations above the cap, beyond those there were |
| ConcurrentAssignment.CapOvershootIsReached | apps/worker/src/conversations/conversation-ingest.service.ts:131-367 | for every n a run that reaches it |
| ConcurrentAssignment.GapIsBounded | apps/worker/src/conversations/conversation-ingest.service.ts:131-383 | the gap between two candidates' loads stays within the larger of n and the initial gap |
| ConcurrentAssignment.GapIsReached | apps/worker/src/conversations/conversation-ingest.service.ts:131-383 | for every n a run that takes equal loads to a gap of n |
| ConcurrentAssignment.TurnsAreShared | apps/worker/src/conversations/conversation-ingest.service.ts:386-405 | in round robin, while an available candidate gets nothing, no other agent gets more than 2n - 1 conversations |
| ConcurrentAssignment.SharedTurnsAreReached | apps/worker/src/conversations/conversation-ingest.service.ts:386-405 | for every n a run that reaches it |
| ConcurrentAssignment.WaitIsBounded | apps/worker/src/conversations/conversation-ingest.service.ts:386-405 | so nobody starves: an available candidate waits for at most that many per other agent |
| Idempotency.ScriptsRespectViews | apps/api/src/redis/idempotency-store.ts:78-91 | the scripts' results and effects depend only on records that are alive |
| Idempotency.ClaimsBalance | apps/api/src/redis/idempotency-store.ts:78-91 | in all interleavings claims minus releases minus expiries of a key is 1 if a record is present and 0 if not |
| Idempotency.AtMostOneHolder | apps/api/src/redis/idempotency-store.ts:65-91 | at most one request at work holds the key's record |
| Idempotency.StaleLeaseChangesNothing | apps/api/src/redis/idempotency-store.ts:75-91 | complete and release with a stale lease never change another request's record |
| Idempotency.CompletedAnswersRepeats | apps/api/src/common/interceptors/idempotency.interceptor.ts:78-178 | while a completed record lives it does not change, and every repeat is answered from it without running its handler: the stored response for the same fingerprint, a rejection for another |
| Idempotency.RepliesLastADay | apps/api/src/common/interceptors/idempotency.interceptor.ts:35-36 | for 24 hours after a response was stored every repeat is answered with it and other payloads are rejected |
| Idempotency.RepliesEndAfterADay | apps/api/src/common/interceptors/idempotency.interceptor.ts:35-36 | and not longer |
| Idempotency.CrashedRequestsFreeTheirKey | apps/api/src/common/interceptors/idempotency.interceptor.ts:37-38 | a request that never comes back holds its key for exactly a minute |
| MemoryIdempotency.MemoryIdempotencyStore.Current | apps/api/src/redis/idempotency-store.ts:139-146 | lazily deleting dead entries is invisible to every later call |
| MemoryIdempotency.MemoryIdempotencyStore.Claim | apps/api/src/redis/idempotency-store.ts:148-158 | same result and same visible records as the claim script |
| MemoryIdempotency.MemoryIdempotencyStore.Complete | apps/api/src/redis/idempotency-store.ts:160-174 | same result and same visible records as the complete script |
| MemoryIdempotency.MemoryIdempotencyStore.Release | apps/api/src/redis/idempotency-store.ts:176-178 | same visible records as the release script |
| IdempotencyInterceptor.RecordKeyIsInjective | apps/api/src/redis/idempotency-store.ts:47-55 | requests share a record only within one workspace, method, path and client key |
| IdempotencyInterceptor.ValidClientKeyExactlyWhen | packages/contracts/src/api/idempotency.ts:8-15 | which client keys are accepted, by character codes and length |
| IdempotencyInterceptor.ReadRecord | apps/api/src/common/interceptors/idempotency.interceptor.ts:156-178 | another payload is rejected first, then a running request, otherwise the response is replayed |
| IdempotencyInterceptor.Intercept | apps/api/src/common/interceptors/idempotency.interceptor.ts:43-153 | only POST, PATCH and DELETE use the key; under any interference the handler runs at most once, exactly when no living record is found and the store answered, and the caller gets the protocol's answer even when the store fails afterwards |
| RateLimit.StoresAgreeUntilEmptied | apps/api/src/redis/rate-limit-store.ts:20-54 | the two stores give the same verdicts on every sequence over any identities, with limits of at least one, as long as the map is not emptied |
| RateLimit.EmptyingSeparatesStores | apps/api/src/redis/rate-limit-store.ts:43-54 | with one identity more than the map holds, a sequence the stores judge differently |
| RateLimit.StoresAgreeExactlyWhen | apps/api/src/redis/rate-limit-store.ts:20-54 | over a set of identities the stores agree on every sequence exactly when every limit is at least one and the map can hold them all |
| RateLimit.CountersRecover | apps/api/src/redis/rate-limit-store.ts:19-33 | one window after a hit every counter has started over, even one that had lost its expiry |
| RateLimit.EachWindowAcceptsMin | apps/api/src/redis/rate-limit-store.ts:43-54 | a window accepts exactly the smaller of its hits and the limit |
| RateLimit.SlidingBound | apps/api/src/redis/rate-limit-store.ts:43-54 | of the hits in any stretch no longer than the window at most 2 * limit - 1 are accepted |
| RateLimit.SlidingBoundIsReached | apps/api/src/redis/rate-limit-store.ts:43-54 | for every limit and window there are hits that reach that bound |
| RateLimit.MemoryRateLimitStore.Hit | apps/api/src/redis/rate-limit-store.ts:43-54 | one hit does to the whole map and answers what the store function does, and the map never grows beyond its bound |
| CanonicalJson.ReadQuoted | packages/channel-adapters/src/deduplication/fingerprint.ts:14-16 | reading a quoted string gives the string back, lone surrogates included |
| CanonicalJson.EscapedExactlyWhen | packages/channel-adapters/src/deduplication/fingerprint.ts:14-16 | exactly control characters, the quote, the backslash and surrogates are escaped, each as JSON.stringify does |
| CanonicalJson.PairsStay | packages/channel-adapters/src/deduplication/fingerprint.ts:14-16 | a surrogate pair is printed as it is |
| CanonicalJson.SortedIsUnique | packages/channel-adapters/src/deduplication/fingerprint.ts:25 | sorted entries are determined by which entries they are |
| CanonicalJson.ParsePrinted | packages/channel-adapters/src/deduplication/fingerprint.ts:9-37 | a parser inverts the printer, whatever follows the value |
| CanonicalJson.CanonicalTextDecidesSameness | packages/channel-adapters/src/deduplication/fingerprint.ts:9-37 | two payloads have the same text exactly when they are equal up to key order at every depth |
| CanonicalJson.FingerprintedTextIsInjective | packages/channel-adapters/src/deduplication/fingerprint.ts:45-58 | the hashed text determines the account and the payload up to key order |
| CanonicalJson.SortThenNorm | packages/channel-adapters/src/deduplication/fingerprint.ts:23-34 | sorting keys and dropping undefined fields commute |
| CanonicalJson.CanonicalizePayload | packages/channel-adapters/src/deduplication/fingerprint.ts:9-37 | the printer with its loop over sorted keys computes that text |
| CanonicalJson.CanonicalExample | packages/channel-adapters/src/deduplication/fingerprint.ts:9-37 | one payload with its text in full, by character codes |
| CanonicalJson.NumeralExamples | packages/channel-adapters/src/deduplication/fingerprint.ts:14-16 | numerals as JSON.stringify prints them are covered, null, true and false are not numerals |
| Pagination.CursorSelectsTail | apps/api/src/conversations/conversations.service.ts:239-251 | a cursor selects an end piece of the listing, behind its own message |
| Pagination.WalkEnumerates | apps/api/src/conversations/conversations.service.ts:229-268 | with millisecond timestamps following the cursor returns every message once, in order, in ceil(n / limit) pages |
| Pagination.WalkEnumeratesExactlyWhen | apps/api/src/conversations/conversations.service.ts:229-268 | with any timestamps it does so for every page size exactly when each message's cursor reaches the next message |
| Pagination.MicrosecondsLoseMessages | apps/api/src/conversations/conversations.service.ts:264-266 | two messages within one millisecond, one of which no page returns |
| Pagination.WalkUnderChange | apps/api/src/conversations/conversations.service.ts:229-268 | while messages come and go none is returned twice, and one present throughout exactly once |
| ObjectKey.DayFromYearIs | packages/storage/src/object-key.ts:58-60 | counting years by their lengths agrees with the ECMAScript day formula |
| ObjectKey.FieldsOfRealDate | packages/storage/src/object-key.ts:92 | the UTC fields of a real date's day are that date |
| ObjectKey.UtcCheckIsCalendar | packages/storage/src/object-key.ts:89-104 | the parser's Date.UTC comparison holds exactly on real dates from the year 100 on |
| ObjectKey.SegmentExactlyWhen | packages/storage/src/object-key.ts:5-44 | which opaque segments are accepted, by character codes |
| ObjectKey.RejectedExactlyWhen | packages/storage/src/object-key.ts:50-64 | the builder rejects exactly segments that are not opaque and invalid dates, and says which |
| ObjectKey.BuiltKeysRoundTripExactlyWhen | packages/storage/src/object-key.ts:50-111 | a built key parses back to its parts exactly for the years 100 to 9999, and is rejected for its date otherwise |
| ObjectKey.AcceptedKeysAreCanonical | packages/storage/src/object-key.ts:66-111 | an accepted key has a real date and is exactly the key rebuilt from its parts |
| ObjectKey.AcceptedExactlyWhenBuilt | packages/storage/src/object-key.ts:50-111 | the parser accepts exactly the builder's keys of those years |

## Left out

- Foreign ids: UUID generation is a parameter or a search for an unused id; distinctness is assumed.
- Clocks: database, queue and process clocks are one clock; a test of time and a write within one call read it once.
- Provider adapters, HTTP, S3, Redis, BullMQ and Prisma internals: foreign calls, reduced to their answers and failures.
- Queue scheduling: retry delays, concurrency limits, heartbeats and the pg-boss drain; the queue is a map of jobs with an attempt count, and one active run per job unless its worker is replaced.
- `persistProviderEvent`, the single-event journal path: same unique index, no outbox row.
- `withTransactionalOutbox` outside journaling: its loop is modelled for journaled batches; elsewhere its rows appear as creation steps.
- `sendMessage`: the reply's effect on its conversation, its outbox row and its status are steps of three state machines here; that they happen in one transaction is not used.
- Channel discovery, the release of the in-flight mark after a poll and health records of the polling service.
- Routing of event types to queues: there is one queue of jobs here; types without a queue of their own go to that of outbound messages.
- The reconciliation check's 500-row limit and the time between its queries: it looks at one state.
- Reviving a deleted channel: its polling starts over with a new cursor.
- Email threads: conversations are resolved for channels whose messages carry no thread id, since thread aggregates are not serialized.
- Contact and identity upserts, previews, reply targets and realtime notifications within ingest: no effect on what is proved.
- Provider ids of outbound messages in the unique index of inbound ones: the index is modelled over inbound messages.
- `lastMessageAt` is kept as the code writes it but nothing is claimed about it: concurrent replies and late messages can move it backwards.
- The stuck-message sweep's selection by age and its batch of 100: its write is the guarded failure of `MessageRuns`.
- The text and codes of errors, the in-place page reversal (on values here) and the base64 coding of cursors.
- `requestFingerprint` of the interceptor: a fingerprint is a value that is compared.
- Key validation, permission checks, list filters and channel management of the API.
- InboundProcessor.HandleResult: does not model what a receipt does to its message, which `Receipts` does; here it is applied, unmatchable or throws, as a parameter says.
- InboundProcessor.Process: assumes a deterministic adapter, so that the event's own id always goes to the same message.
- Pipeline.NoSilentLoss: assumes that no replay and no superseded run reopens an event whose job is spent, and that the queue drops no job whose event is still to be processed; `Pipeline.OverwriteLosesExactlyWhen` and `Pipeline.ForgetLosesExactlyWhen` say what happens otherwise.
- Polling.CursorProvesPrefix: assumes that the adapter returns all events between the cursor it is given and the one it returns, with distinct keys.
- Ingest.AggregatesAgree: deleting conversations or messages is not modelled.
- Assignment.RoundRobinIsFair: one conversation at a time, increasing creation times, and every candidate below the cap, as a cap changes whose turn it is; `ConcurrentAssignment.TurnsAreShared` has neither of the first two.
- Assignment.CapIsKept: one conversation at a time; `ConcurrentAssignment.CapOvershootIsBounded` says what concurrent transactions do.
- Assignment.LeastAssignedBalances: one conversation at a time, and no preferred agent, who is chosen whatever the loads; `ConcurrentAssignment.GapIsBounded` drops the first.
- ConcurrentAssignment.CapOvershootIsBounded: other inboxes with the same agents, and agents who resolve, reopen or reassign conversations in between.
- MemoryIdempotency.MemoryIdempotencyStore.Claim: needs a clock that does not run backwards between calls.
- RateLimit.SlidingBound: the per-process map is not emptied in between, and times do not decrease.
- Outbound.Reply.Send: inbound messages and private notes are not modelled; their jobs return at once.
- Outbound.UsedUpJobsLeavePending: one run of the job at a time, and an agent's retry is a new job.
- IdempotencyInterceptor.Intercept: HTTP methods are given in upper case.
