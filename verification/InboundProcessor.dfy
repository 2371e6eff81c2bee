/**
  Ingesting one message, and processing one journaled provider event, while other runs, agents and
  replays act between every two statements.
 */
module InboundProcessor {
  import opened Common
  import Journal
  import Pipeline
  import EndToEnd
  import opened Ingest

  type EventId = string

  /** An unmatchable receipt fails its run before this attempt, and is given up on from then on. */
  const RECEIPT_MATCH_ATTEMPTS := 4

  datatype EventRecord = EventRecord(
    status: Journal.EventStatus,
    processingAttempts: nat,
    lastError: Option<string>,
    channelDeleted: bool)

  /** What an adapter makes of an event. */
  datatype Normalized =
    | MessageResult(sender: Sender, pmid: ProviderMessageId, sentAt: Option<int>)
    | ReceiptResult
    | IgnoredResult(reason: string)

  datatype Failure = NotYetMatchable | Provider(retryable: bool) | UniqueViolated | Other

  datatype Ingested = Ingested(id: MessageId, conv: ConvId, duplicate: bool)

  // What may go wrong is given to the methods, so that their contracts can say what happens if
  // nothing does.

  /** What may go wrong while one message is ingested. */
  datatype Fault = QueryFails | LockTimesOut | StatementFails | ResponseLost | RequeryFails

  /** How the receipt of a result ends, which is the business of the delivery status. */
  datatype ReceiptEnd = Applied | Unmatchable | Broken

  /** What happens around one run: its read and writes, and per result the faults and the receipt's end. */
  datatype Surroundings = Surroundings(
    readFails: bool, mark: Write, outcome: Write, recovery: Write,
    faults: nat -> set<Fault>, receipts: nat -> ReceiptEnd)

  // ---------------------------------------------------------------------------
  // Runs
  // ---------------------------------------------------------------------------

  /** A run that continues another keeps every message the other had stored. */
  lemma {:induction false} LongerRunsKeep(s: State, run: seq<Step>, more: seq<Step>, pmid: ProviderMessageId)
    requires run <= more && Run(s, run).Some? && Run(s, more).Some?
    requires pmid in Run(s, run).value.messages
    ensures pmid in Run(s, more).value.messages
    ensures Run(s, more).value.messages[pmid] == Run(s, run).value.messages[pmid]
    decreases run
  {
    if run == [] {
      StoredForGood(s, more, pmid);
    } else {
      LongerRunsKeep(Next(s, run[0]), run[1..], more[1..], pmid);
    }
  }

  /**
    Message ids are never shared: an event's id goes to its first message only (the adapter is
    deterministic), every other id is generated for one message.
   */
  ghost predicate IdsHaveOwners(run: seq<Step>, owner: MessageId -> ProviderMessageId) {
    forall a <- run | a.Begin? :: owner(a.messageId) == a.pmid
  }

  ghost predicate Owned(s: State, owner: MessageId -> ProviderMessageId) {
    && (forall p <- s.messages :: owner(s.messages[p].id) == p)
    && (forall x <- s.txns :: owner(s.txns[x].messageId) == s.txns[x].pmid)
  }

  lemma {:induction false} OwnedHolds(s: State, run: seq<Step>, owner: MessageId -> ProviderMessageId)
    requires Owned(s, owner) && IdsHaveOwners(run, owner) && Run(s, run).Some?
    ensures Owned(Run(s, run).value, owner)
    decreases run
  {
    if run != [] {
      assert run[0] in run;
      OwnedHolds(Next(s, run[0]), run[1..], owner);
    }
  }

  /** With owned ids, a unique violation always means that the message itself is already stored. */
  lemma ViolationsAreDuplicates(run: seq<Step>, owner: MessageId -> ProviderMessageId, sender: Sender)
    requires IdsHaveOwners(run, owner) && Run(Empty, run).Some?
    requires sender in Run(Empty, run).value.txns
    ensures var s := Run(Empty, run).value;
            UniqueViolation(s, s.txns[sender]) <==> s.txns[sender].pmid in s.messages
  {
    OwnedHolds(Empty, run, owner);
  }

  /** What the commit of an open transaction does to each table. */
  lemma CommitIs(run: seq<Step>, owner: MessageId -> ProviderMessageId, s: State, sender: Sender)
    requires IdsHaveOwners(run, owner) && Run(Empty, run) == Some(s) && sender in s.txns
    ensures Enabled(s, Step.Commit(sender))
    ensures var t, after := s.txns[sender], Next(s, Step.Commit(sender));
            && (t.read.Some? ==> t.conv in s.convs)
            && (t.pmid in s.messages || (exists p :: p in s.messages && s.messages[p].id == t.messageId)
                <==> t.pmid in s.messages)
            && after.txns == s.txns - {sender}
            && (t.pmid in s.messages ==> after.messages == s.messages && after.convs == s.convs)
            && (t.pmid !in s.messages ==>
                  && after.messages == s.messages[t.pmid := Message(t.messageId, t.conv, t.createdAt)]
                  && after.convs == s.convs[t.conv :=
                       if t.read.Some? then Updated(s.convs[t.conv], t.read.value, t.createdAt)
                       else Conversation(sender, OPEN, 1, Some(t.createdAt), Some(t.createdAt), t.createdAt)])
  {
    InvHolds(Empty, run);
    assert TxnOk(s, sender);
    ViolationsAreDuplicates(run, owner, sender);
    hide Run, Inv, IdsHaveOwners;
  }

  // ---------------------------------------------------------------------------
  // A processing run's status writes as steps of the pipeline
  // ---------------------------------------------------------------------------

  /** What a run that stands there may write. */
  predicate Fits(phase: Pipeline.Phase, status: Journal.EventStatus) {
    match phase
    case Dropping => status == Journal.IGNORED
    case Marking => status == Journal.PROCESSING
    case Working => status != Journal.PROCESSING
    case _ => false
  }

  /** Where it stands after a write that was committed, whether or not that was reported. */
  function PhaseAfter(phase: Pipeline.Phase, status: Journal.EventStatus, reported: bool): Pipeline.Phase {
    if phase == Pipeline.Marking then Pipeline.Working
    else if !reported then phase
    else if status == Journal.RECEIVED then Pipeline.Throwing
    else Pipeline.Returning
  }

  function StatusStep(job: EventId, phase: Pipeline.Phase, status: Journal.EventStatus, reported: bool): Pipeline.Step
    requires Fits(phase, status)
  {
    if phase == Pipeline.Marking then Pipeline.WriteProcessing(job)
    else if !reported then Pipeline.WriteOutcomeLost(job, status)
    else if phase == Pipeline.Dropping then Pipeline.WriteIgnored(job)
    else Pipeline.WriteOutcome(job, status)
  }

  /** Where a run stands after reading the event. */
  function PhaseRead(seen: Option<EventRecord>): Pipeline.Phase {
    if seen.None? || Settled(seen.value.status) then Pipeline.Returning
    else if seen.value.channelDeleted then Pipeline.Dropping
    else Pipeline.Marking
  }

  /** The pipeline's event rows are those of the table. */
  ghost predicate Matches(events: map<EventId, EventRecord>, journal: map<EventId, Journal.Event>) {
    && events.Keys == journal.Keys
    && forall e <- events ::
         events[e].status == journal[e].status && events[e].processingAttempts == journal[e].processingAttempts
  }

  /** The run works on the event for this job, and stands there. */
  ghost predicate Stands(s: Pipeline.State, job: EventId, event: EventId, phase: Pipeline.Phase) {
    Pipeline.InPhase(s, job, phase) && Pipeline.Subject(s, job) == event
  }

  lemma OwnStatusStep(s: Pipeline.State, job: EventId, event: EventId, phase: Pipeline.Phase,
                      status: Journal.EventStatus, reported: bool)
    requires Stands(s, job, event, phase) && event in s.events && Fits(phase, status)
    ensures var a := StatusStep(job, phase, status, reported);
            && Pipeline.Enabled(s, a) && !a.StartRun? && EndToEnd.Written(a) == [status]
            && Pipeline.Next(s, a).events == s.events[event := Pipeline.Rewritten(s.events[event], status)]
            && Stands(Pipeline.Next(s, a), job, event, PhaseAfter(phase, status, reported))
  {
  }

  lemma OverwriteStep(s: Pipeline.State, event: EventId, status: Journal.EventStatus)
    requires event in s.events
    ensures var a := Pipeline.Overwrite(event, status);
            && Pipeline.Enabled(s, a) && EndToEnd.Written(a) == [status]
            && Pipeline.Next(s, a).events == s.events[event := Pipeline.Rewritten(s.events[event], status)]
  {
  }

  lemma ReadStep(s: Pipeline.State, job: EventId, event: EventId, channelDeleted: bool, seen: Option<EventRecord>)
    requires Stands(s, job, event, Pipeline.Started)
    requires seen.Some? <==> event in s.events
    requires seen.Some? ==> seen.value.status == s.events[event].status && seen.value.channelDeleted == channelDeleted
    ensures var a := Pipeline.ReadEvent(job, channelDeleted);
            && Pipeline.Enabled(s, a) && EndToEnd.Written(a) == [] && Pipeline.Next(s, a).events == s.events
            && Stands(Pipeline.Next(s, a), job, event, PhaseRead(seen))
  {
  }

  lemma ThrowStep(s: Pipeline.State, job: EventId, event: EventId, phase: Pipeline.Phase)
    requires Stands(s, job, event, phase) && phase != Pipeline.Returning
    ensures var a := Pipeline.Throw(job);
            && Pipeline.Enabled(s, a) && EndToEnd.Written(a) == [] && Pipeline.Next(s, a).events == s.events
            && Stands(Pipeline.Next(s, a), job, event, Pipeline.Throwing)
  {
  }

  // ---------------------------------------------------------------------------
  // Histories
  // ---------------------------------------------------------------------------

  /** `whole` leads from the empty tables to this state, and `run` is its part about ingesting. */
  ghost predicate History(run: seq<Step>, whole: seq<EndToEnd.Step>, owner: MessageId -> ProviderMessageId,
                          adapter: EndToEnd.Adapter, s: EndToEnd.State) {
    && Run(Empty, run) == Some(s.c) && IdsHaveOwners(run, owner)
    && EndToEnd.Run(EndToEnd.Empty, whole, adapter) == Some(s) && run == EndToEnd.IngestSteps(whole)
  }

  ghost predicate AtWork(held: bool, s: EndToEnd.State, job: EventId, event: EventId, phase: Pipeline.Phase,
                         got: EndToEnd.Messages) {
    held ==> Stands(s.p, job, event, phase) && EndToEnd.Confirmed(s, job) == got
  }

  lemma StillAtWork(held: bool, s: EndToEnd.State, t: EndToEnd.State, job: EventId, event: EventId,
                    phase: Pipeline.Phase, got: EndToEnd.Messages)
    requires AtWork(held, s, job, event, phase, got) && t.p == s.p && t.confirmed == s.confirmed
    ensures AtWork(held, t, job, event, phase, got)
  {
    hide Stands;
  }

  lemma IngestRecorded(run: seq<Step>, whole: seq<EndToEnd.Step>, owner: MessageId -> ProviderMessageId,
                       adapter: EndToEnd.Adapter, s: EndToEnd.State, a: Step)
    requires History(run, whole, owner, adapter, s) && Enabled(s.c, a)
    requires a.Begin? ==> owner(a.messageId) == a.pmid
    ensures History(run + [a], whole + [EndToEnd.IngestStep(a)], owner, adapter, s.(c := Next(s.c, a)))
  {
    hide Enabled, Next, Run, EndToEnd.Run, EndToEnd.IngestSteps;
    RunSnoc(Empty, run, a);
    EndToEnd.RunSnoc(EndToEnd.Empty, whole, EndToEnd.IngestStep(a), adapter);
    EndToEnd.PartsSnoc(whole, EndToEnd.IngestStep(a));
  }

  lemma PipelineRecorded(run: seq<Step>, whole: seq<EndToEnd.Step>, owner: MessageId -> ProviderMessageId,
                         adapter: EndToEnd.Adapter, s: EndToEnd.State, a: Pipeline.Step)
    requires History(run, whole, owner, adapter, s)
    requires EndToEnd.Enabled(s, EndToEnd.PipelineStep(a), adapter) && !a.StartRun?
    ensures History(run, whole + [EndToEnd.PipelineStep(a)], owner, adapter, s.(p := Pipeline.Next(s.p, a)))
  {
    hide Pipeline.Enabled, Pipeline.Next, EndToEnd.MayProcess, EndToEnd.Run, EndToEnd.IngestSteps, Run, IdsHaveOwners;
    EndToEnd.RunSnoc(EndToEnd.Empty, whole, EndToEnd.PipelineStep(a), adapter);
    EndToEnd.PartsSnoc(whole, EndToEnd.PipelineStep(a));
  }

  lemma ConfirmRecorded(run: seq<Step>, whole: seq<EndToEnd.Step>, owner: MessageId -> ProviderMessageId,
                        adapter: EndToEnd.Adapter, s: EndToEnd.State, job: EventId, event: EventId,
                        got: EndToEnd.Messages, pmid: ProviderMessageId)
    requires History(run, whole, owner, adapter, s)
    requires AtWork(true, s, job, event, Pipeline.Working, got) && pmid in s.c.messages
    ensures var t := s.(confirmed := s.confirmed[job := got + {pmid}]);
            && History(run, whole + [EndToEnd.Confirm(job, pmid)], owner, adapter, t)
            && AtWork(true, t, job, event, Pipeline.Working, got + {pmid})
  {
    hide EndToEnd.Run, EndToEnd.IngestSteps, Run, IdsHaveOwners;
    EndToEnd.RunSnoc(EndToEnd.Empty, whole, EndToEnd.Confirm(job, pmid), adapter);
    EndToEnd.PartsSnoc(whole, EndToEnd.Confirm(job, pmid));
  }

  // ---------------------------------------------------------------------------
  // The database
  // ---------------------------------------------------------------------------

  /**
    The tables, and the history of one processing run: `whole` is everything that was done from the
    empty tables on, `own` the steps of this run, which works on `event` for `job`. While it `held`
    its job it is a run of the pipeline that stands at `phase` with the messages `got` confirmed;
    once the stalled-job check took the job away, its status writes are overwrites.
   */
  class Database {
    var messages: map<ProviderMessageId, Message>
    var convs: map<ConvId, Conversation>
    var txns: map<Sender, Txn>
    var events: map<EventId, EventRecord>
    ghost const owner: MessageId -> ProviderMessageId
    ghost const adapter: EndToEnd.Adapter
    ghost const job: EventId
    ghost const event: EventId
    ghost var log: seq<Entry>
    ghost var run: seq<Step>
    ghost var pipeline: Pipeline.State
    ghost var confirmed: map<EventId, EndToEnd.Messages>
    ghost var whole: seq<EndToEnd.Step>
    ghost var own: seq<EndToEnd.Step>
    ghost var held: bool
    ghost var phase: Pipeline.Phase
    ghost var got: EndToEnd.Messages

    ghost function S(): State
      reads `messages, `convs, `txns, `log
    {
      State(messages, convs, txns, log)
    }

    ghost function All(): EndToEnd.State
      reads `messages, `convs, `txns, `log, `pipeline, `confirmed
    {
      EndToEnd.State(pipeline, S(), confirmed)
    }

    ghost predicate Reached()
      reads this
    {
      && History(run, whole, owner, adapter, All()) && Matches(events, pipeline.events)
      && AtWork(held, All(), job, event, phase, got)
    }

    /** Time passes: others may have acted, this run has written no status, and may have lost its job. */
    twostate predicate Continues()
      reads this
    {
      && old(run) <= run && old(whole) <= whole
      && phase == old(phase) && EndToEnd.Statuses(own) == EndToEnd.Statuses(old(own))
      && (held ==> old(held))
    }

    /** The tables were just written as the step says, by this run (`mine`) or by another. */
    ghost method Record(before: State, a: Step, mine: bool)
      requires History(run, whole, owner, adapter, EndToEnd.State(pipeline, before, confirmed))
      requires Matches(events, pipeline.events)
      requires AtWork(held, EndToEnd.State(pipeline, before, confirmed), job, event, phase, got)
      requires Enabled(before, a) && (a.Begin? ==> owner(a.messageId) == a.pmid)
      requires S() == Next(before, a).(log := log)
      modifies this`log, this`run, this`whole, this`own
      ensures Reached() && S() == Next(before, a) && run == old(run) + [a] && Continues()
      ensures !mine ==> own == old(own)
    {
      hide Next, Enabled, EndToEnd.Statuses, EndToEnd.IngestSteps, Matches, History, AtWork;
      var step := EndToEnd.IngestStep(a);
      var s := EndToEnd.State(pipeline, before, confirmed);
      IngestRecorded(run, whole, owner, adapter, s, a);
      StillAtWork(held, s, s.(c := Next(before, a)), job, event, phase, got);
      EndToEnd.PartsSnoc(own, step);
      log := Next(before, a).log;
      run, whole := run + [a], whole + [step];
      if mine {
        own := own + [step];
      }
    }

    /** The event table, if at all, was just written as the pipeline's step says. */
    ghost method RecordPipeline(a: Pipeline.Step, next: Pipeline.Phase)
      requires History(run, whole, owner, adapter, All()) && !a.StartRun?
      requires EndToEnd.Enabled(All(), EndToEnd.PipelineStep(a), adapter)
      requires Matches(events, Pipeline.Next(pipeline, a).events)
      requires held ==> Stands(Pipeline.Next(pipeline, a), job, event, next)
      requires held ==> EndToEnd.Confirmed(All(), job) == got
      modifies this`pipeline, this`whole, this`own, this`phase
      ensures Reached() && pipeline == Pipeline.Next(old(pipeline), a) && phase == next
      ensures whole == old(whole) + [EndToEnd.PipelineStep(a)] && own == old(own) + [EndToEnd.PipelineStep(a)]
      ensures EndToEnd.Statuses(own) == EndToEnd.Statuses(old(own)) + EndToEnd.Written(a)
      ensures EndToEnd.IngestSteps(own) == EndToEnd.IngestSteps(old(own))
    {
      hide Pipeline.Next, Pipeline.Enabled, EndToEnd.MayProcess, EndToEnd.Statuses, EndToEnd.IngestSteps;
      hide EndToEnd.Written, Stands, Matches, History;
      var step := EndToEnd.PipelineStep(a);
      PipelineRecorded(run, whole, owner, adapter, All(), a);
      EndToEnd.PartsSnoc(own, step);
      pipeline, whole, own, phase := Pipeline.Next(pipeline, a), whole + [step], own + [step], next;
    }

    /** This run has ingested the message or found it stored. */
    ghost method Confirm(pmid: ProviderMessageId)
      requires Reached() && phase == Pipeline.Working && pmid in messages
      modifies this`confirmed, this`whole, this`own, this`got
      ensures Reached() && Continues() && got == old(got) + {pmid}
    {
      if held {
        hide EndToEnd.Statuses, EndToEnd.IngestSteps, AtWork, Matches, History;
        var step := EndToEnd.Confirm(job, pmid);
        ConfirmRecorded(run, whole, owner, adapter, All(), job, event, got, pmid);
        EndToEnd.PartsSnoc(own, step);
        confirmed, whole, own := confirmed[job := got + {pmid}], whole + [step], own + [step];
      }
      got := got + {pmid};
    }

    /** This run has read its event. */
    ghost method RecordRead(seen: Option<EventRecord>)
      requires Reached() && phase == Pipeline.Started
      requires seen == if event in events then Some(events[event]) else None
      modifies this`pipeline, this`whole, this`own, this`phase
      ensures Reached() && phase == PhaseRead(seen) && old(whole) <= whole && pipeline.events == old(pipeline).events
      ensures EndToEnd.Statuses(own) == EndToEnd.Statuses(old(own))
      ensures EndToEnd.IngestSteps(own) == EndToEnd.IngestSteps(old(own))
    {
      if held {
        var channelDeleted := seen.Some? && seen.value.channelDeleted;
        hide Pipeline.Next, Pipeline.Enabled, EndToEnd.Statuses, EndToEnd.IngestSteps, Stands, Matches, History;
        ReadStep(pipeline, job, event, channelDeleted, seen);
        RecordPipeline(Pipeline.ReadEvent(job, channelDeleted), PhaseRead(seen));
      } else {
        phase := PhaseRead(seen);
      }
    }

    /** This run throws. */
    ghost method RecordThrow()
      requires Reached() && phase != Pipeline.Returning
      modifies this`pipeline, this`whole, this`own, this`phase
      ensures Reached() && phase == Pipeline.Throwing && old(whole) <= whole
      ensures pipeline.events == old(pipeline).events
      ensures EndToEnd.Statuses(own) == EndToEnd.Statuses(old(own))
      ensures EndToEnd.IngestSteps(own) == EndToEnd.IngestSteps(old(own))
    {
      if held {
        hide Pipeline.Next, Pipeline.Enabled, EndToEnd.Statuses, EndToEnd.IngestSteps, Stands, Matches, History;
        ThrowStep(pipeline, job, event, phase);
        RecordPipeline(Pipeline.Throw(job), Pipeline.Throwing);
      } else {
        phase := Pipeline.Throwing;
      }
    }

    /**
      Whatever the others do meanwhile, the stalled-job check included, which may take this run's job
      away for good; a transaction that is open keeps its lock.
     */
    method Interfere(locked: Option<Sender>)
      requires Reached() && (locked.Some? ==> locked.value in txns)
      modifies this
      ensures Reached() && Continues() && got == old(got) && own == old(own)
      ensures locked.Some? ==> locked.value in txns && txns[locked.value] == old(txns)[locked.value]
    {
    }

    /** Waits for the sender's lock; false when the wait times out. */
    method Lock(sender: Sender, timesOut: bool) returns (locked: bool)
      requires Reached()
      modifies this
      ensures Reached() && Continues() && got == old(got) && (locked <==> !timesOut)
      ensures locked ==> sender !in txns
    {
      Interfere(None);
      if !timesOut && sender in txns {
        HolderEnds(sender);
      }
      locked := !timesOut;
    }

    /** The lock's holder comes to an end, here by rolling back. */
    method HolderEnds(sender: Sender)
      requires Reached() && sender in txns
      modifies this
      ensures Reached() && Continues() && got == old(got) && own == old(own) && sender !in txns
    {
      ghost var before := S();
      txns := txns - {sender};
      Record(before, Abort(sender), false);
    }

    /** The stored copy of a provider message. */
    method FindDuplicate(pmid: ProviderMessageId) returns (found: Option<Ingested>)
      ensures found.Some? <==> pmid in messages
      ensures found.Some? ==> found.value == Ingested(messages[pmid].id, messages[pmid].conv, true)
    {
      found := if pmid in messages
        then Some(Ingested(messages[pmid].id, messages[pmid].conv, true)) else None;
    }

    /** findFirst over the sender's open conversations in display order, else a new conversation. */
    method ResolveConversation(sender: Sender) returns (id: ConvId)
      ensures Resolves(S(), sender, id)
      ensures forall c <- convs |
                convs[c].sender == sender && (convs[c].status == OPEN || convs[c].status == PENDING) ::
                && id in convs && convs[id].sender == sender
                && (convs[id].status == OPEN || convs[id].status == PENDING)
                // The latest activity comes first, a conversation without any last, then the newer one.
                && (convs[c].lastMessageAt.Some? ==>
                      && convs[id].lastMessageAt.Some?
                      && convs[id].lastMessageAt.value >= convs[c].lastMessageAt.value)
                && (convs[c].lastMessageAt == convs[id].lastMessageAt ==> convs[id].createdAt >= convs[c].createdAt)
    {
      var left := set c | c in convs && convs[c].sender == sender && IsOpen(convs[c]);
      if left == {} {
        assert forall c | c in convs && convs[c].sender == sender && IsOpen(convs[c]) :: c in left;
        var taken := convs.Keys + (set x | x in txns :: txns[x].conv);
        var unused := IdsOutside(taken, 1);
        id := unused[0];
        assert forall x :: x in txns ==> txns[x].conv in taken;
        assert forall other :: OpenFor(S(), other, sender) ==> other in left;
        return;
      }
      ghost var open := left;
      id :| id in left;
      left := left - {id};
      assert OpenFor(S(), id, sender);
      while left != {}
        invariant left <= open && OpenFor(S(), id, sender)
        invariant forall c <- open - left :: ComesFirst(convs[id], convs[c])
      {
        var c :| c in left;
        if !ComesFirst(convs[id], convs[c]) {
          id := c;
        }
        left := left - {c};
      }
      assert forall other :: OpenFor(S(), other, sender) ==> other in open;
    }

    /** The reads of an ingest transaction, under the lock. */
    method Begin(sender: Sender, pmid: ProviderMessageId, messageId: MessageId, sentAt: Option<int>,
                 now: int)
      requires Reached() && sender !in txns && owner(messageId) == pmid
      modifies this
      ensures Reached() && Continues() && got == old(got) && messages == old(messages)
      ensures sender in txns && txns[sender].pmid == pmid && txns[sender].messageId == messageId
    {
      hide Run;
      ghost var before := S();
      var conv := ResolveConversation(sender);
      var read := if conv in convs then Some(convs[conv]) else None;
      txns := txns[sender := Txn(pmid, messageId, TimelineTimestamp(sentAt, now), conv, read)];
      Record(before, Step.Begin(sender, pmid, messageId, sentAt, now, conv), true);
    }

    /** The writes and the commit: stored, or a unique violation and a rollback. */
    method Commit(sender: Sender) returns (violated: bool)
      requires Reached() && sender in txns
      modifies this
      ensures Reached() && Continues() && got == old(got)
      ensures violated <==> old(txns[sender].pmid in messages)
      ensures violated ==> messages == old(messages)
      ensures !violated ==>
                var t := old(txns[sender]);
                messages == old(messages)[t.pmid := Message(t.messageId, t.conv, t.createdAt)]
    {
      ghost var before := S();
      hide Run, IdsHaveOwners, EndToEnd.Run, EndToEnd.IngestSteps, AtWork, Matches, EndToEnd.Statuses;
      hide Enabled, Next, UniqueViolation, Updated;
      CommitIs(run, owner, before, sender);
      var t := txns[sender];
      violated := t.pmid in messages || exists p | p in messages :: messages[p].id == t.messageId;
      if !violated {
        messages := messages[t.pmid := Message(t.messageId, t.conv, t.createdAt)];
        convs := convs[t.conv :=
          if t.read.Some? then Updated(convs[t.conv], t.read.value, t.createdAt)
          else Conversation(sender, OPEN, 1, Some(t.createdAt), Some(t.createdAt), t.createdAt)];
      }
      txns := txns - {sender};
      Record(before, Step.Commit(sender), true);
    }

    /** Whatever happens, a stored message stays as it is. */
    twostate lemma StaysStored(pmid: ProviderMessageId)
      requires old(Reached()) && Reached() && old(run) <= run && pmid in old(messages)
      ensures pmid in messages && messages[pmid] == old(messages)[pmid]
    {
      hide Run, EndToEnd.Run, Matches, AtWork;
      LongerRunsKeep(Empty, old(run), run, pmid);
    }

    /** The adapter makes these results of this run's event. */
    ghost predicate Carries(results: seq<Normalized>)
      reads this
    {
      event in pipeline.events ==> adapter(pipeline.events[event].input) == MessagesOf(results)
    }

    /** Whatever happens, a journaled event stays, and the adapter still makes the same of it. */
    twostate lemma CarriesOn(results: seq<Normalized>)
      requires old(Reached()) && Reached() && old(whole) <= whole && event in old(events)
      ensures event in events && (old(Carries(results)) ==> Carries(results))
    {
      hide EndToEnd.Run;
      EndToEnd.InputsStay(EndToEnd.Empty, old(whole), whole, adapter, event);
    }

    /** What PROCESSED asserts: every message of the event is stored, and was confirmed by this run. */
    ghost predicate Delivers(status: Journal.EventStatus)
      reads this
    {
      status == Journal.PROCESSED && event in pipeline.events ==>
        && adapter(pipeline.events[event].input) <= messages.Keys
        && (held ==> adapter(pipeline.events[event].input) <= got)
    }

    /** The pipeline's step for a status write: the run's own, or an overwrite if it lost its job. */
    ghost function WriteStep(status: Journal.EventStatus, reported: bool): Pipeline.Step
      requires Fits(phase, status)
      reads this
    {
      if held then StatusStep(job, phase, status, reported) else Pipeline.Overwrite(event, status)
    }

    lemma WriteStepEffect(status: Journal.EventStatus, reported: bool)
      requires Reached() && event in events && Fits(phase, status) && Delivers(status)
      ensures var a := WriteStep(status, reported);
              && EndToEnd.Enabled(All(), EndToEnd.PipelineStep(a), adapter)
              && !a.StartRun? && EndToEnd.Written(a) == [status]
              && (var t := Pipeline.Next(pipeline, a);
                  && t.events == pipeline.events[event := Pipeline.Rewritten(pipeline.events[event], status)]
                  && (held ==> Stands(t, job, event, PhaseAfter(phase, status, reported))))
    {
      if held {
        OwnStatusStep(pipeline, job, event, phase, status, reported);
        hide Pipeline.Next, Pipeline.Enabled;
      } else {
        OverwriteStep(pipeline, event, status);
        hide Pipeline.Next, Pipeline.Enabled;
      }
    }

    /**
      UPDATE provider_events … WHERE id, without a guard on the status. It throws when the row is
      gone or the connection fails, and a write that threw may still have been committed. `lastError`
      is left alone (None), cleared (Some(None)) or set. A committed write is one step of the pipeline.
     */
    method Transition(id: EventId, status: Journal.EventStatus, lastError: Option<Option<string>>,
                      incrementAttempts: bool, write: Write)
      returns (ok: bool, ghost written: bool)
      requires Reached() && id == event && (incrementAttempts <==> status == Journal.PROCESSING)
      requires Fits(phase, status) && Delivers(status)
      modifies this`events, this`pipeline, this`whole, this`own, this`phase
      ensures ok <==> id in old(events) && write == Written
      ensures written <==> id in old(events) && write != NotWritten
      ensures written ==> id in old(events) && events == old(events)[id :=
                old(events)[id].(
                  status := status,
                  lastError := if lastError.Some? then lastError.value else old(events)[id].lastError,
                  processingAttempts := old(events)[id].processingAttempts
                                        + if incrementAttempts then 1 else 0)]
      ensures !written ==> events == old(events) && whole == old(whole)
      ensures Reached() && phase == if written then PhaseAfter(old(phase), status, ok) else old(phase)
      ensures written ==> whole == old(whole) + [EndToEnd.PipelineStep(old(WriteStep(status, ok)))]
      ensures EndToEnd.Statuses(own) == EndToEnd.Statuses(old(own)) + if written then [status] else []
      ensures EndToEnd.IngestSteps(own) == EndToEnd.IngestSteps(old(own))
    {
      hide Pipeline.Next, Pipeline.Enabled, EndToEnd.Enabled, EndToEnd.Statuses, EndToEnd.IngestSteps, Stands, History;
      if id !in events || write == NotWritten {
        return false, false;
      }
      ok := write == Written;
      var row := events[id];
      WriteStepEffect(status, ok);
      events := events[id := row.(
        status := status,
        lastError := if lastError.Some? then lastError.value else row.lastError,
        processingAttempts := row.processingAttempts + if incrementAttempts then 1 else 0)];
      written := true;
      RecordPipeline(WriteStep(status, ok), PhaseAfter(phase, status, ok));
    }

    method Rollback(sender: Sender)
      requires Reached() && sender in txns
      modifies this
      ensures Reached() && Continues() && got == old(got) && messages == old(messages)
    {
      ghost var before := S();
      txns := txns - {sender};
      Record(before, Abort(sender), true);
    }
  }

  // ---------------------------------------------------------------------------
  // Ingesting one message
  // ---------------------------------------------------------------------------

  /**
    Any number of these may run at once for the same message. One that returns leaves the message
    stored, and says truthfully under which id; a message that was already stored is left alone;
    and a unique violation never surfaces.
   */
  method IngestMessage(db: Database, sender: Sender, pmid: ProviderMessageId, sentAt: Option<int>,
                       messageId: MessageId, now: int, faults: set<Fault>)
    returns (r: Result<Ingested, Failure>)
    requires db.Reached() && db.owner(messageId) == pmid
    modifies db
    ensures db.Reached() && db.Continues() && db.got == old(db.got)
    ensures faults == {} ==> r.Ok?
    ensures QueryFails in faults ==> r.Err?
    ensures pmid in old(db.messages) && QueryFails !in faults ==>
              r == Ok(Ingested(old(db.messages)[pmid].id, old(db.messages)[pmid].conv, true))
    ensures r.Ok? ==> pmid in db.messages
    ensures r.Ok? ==> r.value.id == db.messages[pmid].id && r.value.conv == db.messages[pmid].conv
    ensures r.Ok? && !r.value.duplicate ==> pmid !in old(db.messages) && r.value.id == messageId
    ensures pmid in old(db.messages) ==> db.S() == old(db.S()) && db.run == old(db.run)
    ensures r.Err? ==> r.error == Other
  {
    hide Database.Reached, EndToEnd.Statuses, EndToEnd.IngestSteps;
    if QueryFails in faults {
      return Err(Other);
    }
    var existing := db.FindDuplicate(pmid);
    if existing.Some? {
      return Ok(existing.value);
    }
    r := IngestInTransaction(db, sender, pmid, sentAt, messageId, now, faults);
    if r == Err(UniqueViolated) {
      r := FindWinner(db, pmid, RequeryFails in faults);
    }
  }

  /** A concurrent job stored the message first; it is still there. */
  method FindWinner(db: Database, pmid: ProviderMessageId, queryFails: bool) returns (r: Result<Ingested, Failure>)
    requires db.Reached() && pmid in db.messages
    modifies db
    ensures r.Ok? <==> !queryFails
    ensures db.Reached() && db.Continues() && db.got == old(db.got)
    ensures r.Ok? ==> pmid in db.messages && r.value.duplicate
    ensures r.Ok? ==> r.value.id == db.messages[pmid].id && r.value.conv == db.messages[pmid].conv
    ensures r.Err? ==> r.error == Other
  {
    hide Database.Reached, EndToEnd.Statuses, EndToEnd.IngestSteps;
    db.Interfere(None);
    db.StaysStored(pmid);
    if queryFails {
      return Err(Other);
    }
    r := Err(UniqueViolated);
    var stored := db.FindDuplicate(pmid);
    if stored.Some? {
      r := Ok(stored.value);
    }
  }

  /** The transaction: it may fail at any statement, and its commit may succeed unnoticed. */
  method IngestInTransaction(db: Database, sender: Sender, pmid: ProviderMessageId, sentAt: Option<int>,
                             messageId: MessageId, now: int, faults: set<Fault>)
    returns (r: Result<Ingested, Failure>)
    requires db.Reached() && db.owner(messageId) == pmid
    modifies db
    ensures faults == {} ==> r.Ok? || r.error == UniqueViolated
    ensures LockTimesOut in faults || StatementFails in faults ==> r == Err(Other)
    ensures ResponseLost in faults ==> r.Err?
    ensures db.Reached() && db.Continues() && db.got == old(db.got)
    ensures r.Ok? ==> pmid in db.messages && db.messages[pmid].id == r.value.id == messageId
    ensures r.Ok? ==> r.value.conv == db.messages[pmid].conv && !r.value.duplicate
    ensures r.Ok? ==> pmid !in old(db.messages)
    ensures r == Err(UniqueViolated) ==> pmid in db.messages
    ensures r.Err? ==> r.error == UniqueViolated || r.error == Other
  {
    hide Database.Reached, Inv, Resolves, EndToEnd.Statuses, EndToEnd.IngestSteps;
    var locked := db.Lock(sender, LockTimesOut in faults);
    if !locked {
      return Err(Other);
    }
    db.Begin(sender, pmid, messageId, sentAt, now);
    db.Interfere(Some(sender));
    var conv := db.txns[sender].conv;
    if StatementFails in faults {
      db.Rollback(sender);
      return Err(Other);
    }
    if pmid in old(db.messages) {
      db.StaysStored(pmid);
    }
    var violated := db.Commit(sender);
    if violated {
      return Err(UniqueViolated);
    }
    r := if ResponseLost in faults then Err(Other) else Ok(Ingested(messageId, conv, false));
  }

  // ---------------------------------------------------------------------------
  // Processing one event
  // ---------------------------------------------------------------------------

  predicate Settled(status: Journal.EventStatus) {
    status == Journal.PROCESSED || status == Journal.IGNORED
  }

  /** The first message is stored under the event's id, later ones under generated ids. */
  ghost predicate IdsAssigned(
    owner: MessageId -> ProviderMessageId, event: EventId, results: seq<Normalized>, generated: seq<MessageId>)
  {
    && |generated| == |results|
    && (forall i | 0 <= i < |results| && results[i].MessageResult? ::
          owner(if FirstMessage(results, i) then event else generated[i]) == results[i].pmid)
  }

  predicate FirstMessage(results: seq<Normalized>, i: nat)
    requires i < |results|
  {
    forall j | 0 <= j < i :: !results[j].MessageResult?
  }

  ghost predicate AllStored(results: seq<Normalized>, messages: map<ProviderMessageId, Message>) {
    forall x <- results | x.MessageResult? :: x.pmid in messages
  }

  function MessagesOf(results: seq<Normalized>): EndToEnd.Messages {
    set x | x in results && x.MessageResult? :: x.pmid
  }

  lemma StoredSnoc(done: seq<Normalized>, x: Normalized, messages: map<ProviderMessageId, Message>)
    ensures AllStored([], messages)
    ensures AllStored(done, messages) && (x.MessageResult? ==> x.pmid in messages)
            ==> AllStored(done + [x], messages)
  {
  }

  lemma AllStillStored(run: seq<Step>, more: seq<Step>, results: seq<Normalized>)
    requires run <= more && Run(Empty, run).Some? && Run(Empty, more).Some?
    requires AllStored(results, Run(Empty, run).value.messages)
    ensures AllStored(results, Run(Empty, more).value.messages)
  {
    forall x | x in results && x.MessageResult?
      ensures x.pmid in Run(Empty, more).value.messages
    {
      LongerRunsKeep(Empty, run, more, x.pmid);
    }
  }

  /** What the loop over the results amounts to. */
  datatype Progress = Progress(handled: nat, messagesStored: nat, ignored: seq<string>)

  const UNMATCHED := "Receipt for a message VYNOR did not send."

  /** A result the loop counts as handled, rather than ignored. */
  predicate Handled(x: Normalized, receipt: ReceiptEnd) {
    x.MessageResult? || (x.ReceiptResult? && receipt == Applied)
  }

  ghost predicate SomeHandled(results: seq<Normalized>, receipts: nat -> ReceiptEnd) {
    exists i: nat :: i < |results| && Handled(results[i], receipts(i))
  }

  ghost predicate AllHandled(results: seq<Normalized>, receipts: nat -> ReceiptEnd) {
    forall i: nat | i < |results| :: Handled(results[i], receipts(i))
  }

  /** The receipt is applied, or unmatchable and given up on. */
  predicate ReceiptSettled(receipt: ReceiptEnd, processingAttempts: nat) {
    receipt == Applied || (receipt == Unmatchable && processingAttempts >= 3)
  }

  ghost predicate ReceiptsSettled(results: seq<Normalized>, receipts: nat -> ReceiptEnd, processingAttempts: nat) {
    forall i: nat | i < |results| && results[i].ReceiptResult? :: ReceiptSettled(receipts(i), processingAttempts)
  }

  ghost predicate NoFaults(results: seq<Normalized>, faults: nat -> set<Fault>) {
    forall i: nat | i < |results| && results[i].MessageResult? :: faults(i) == {}
  }

  /** The counters after some results. */
  ghost predicate Tallied(done: seq<Normalized>, p: Progress, receipts: nat -> ReceiptEnd) {
    && p.handled + |p.ignored| == |done|
    && (p.messagesStored > 0 <==> exists x <- done :: x.MessageResult?)
    && (p.handled > 0 <==> SomeHandled(done, receipts))
    && (p.ignored == [] <==> AllHandled(done, receipts))
  }

  lemma NothingHandled(receipts: nat -> ReceiptEnd)
    ensures Tallied([], Progress(0, 0, []), receipts)
  {
  }

  lemma TalliedSnoc(done: seq<Normalized>, x: Normalized, p: Progress, q: Progress, receipts: nat -> ReceiptEnd)
    requires Tallied(done, p, receipts)
    requires if Handled(x, receipts(|done|)) then q.handled == p.handled + 1 && q.ignored == p.ignored
             else q.handled == p.handled && |q.ignored| == |p.ignored| + 1
    requires q.messagesStored == p.messagesStored + if x.MessageResult? then 1 else 0
    ensures Tallied(done + [x], q, receipts)
  {
    var all := done + [x];
    assert all[|done|] == x && x in all;
    assert forall y <- done :: y in all;
    assert forall i: nat | i < |done| :: all[i] == done[i];
    assert AllHandled(all, receipts) ==> AllHandled(done, receipts) && Handled(all[|done|], receipts(|done|));
    if Handled(x, receipts(|done|)) {
      assert Handled(all[|done|], receipts(|done|));
    } else if SomeHandled(done, receipts) {
      var i: nat :| i < |done| && Handled(done[i], receipts(i));
      assert Handled(all[i], receipts(i));
    }
  }

  lemma FirstIsUncounted(results: seq<Normalized>, i: nat, p: Progress, receipts: nat -> ReceiptEnd)
    requires i < |results| && Tallied(results[..i], p, receipts)
    ensures FirstMessage(results, i) <==> p.messagesStored == 0
  {
    assert forall j | 0 <= j < i :: results[j] == results[..i][j];
  }

  /**
    Handles the results in order, up to the first failure. After a complete pass every message is
    stored and every receipt settled, and the counters say what was handled and what was ignored;
    without faults the pass is complete exactly when the receipts can be settled.
   */
  method HandleResults(db: Database, event: EventId, results: seq<Normalized>, generated: seq<MessageId>,
                       processingAttempts: nat, now: int, around: Surroundings)
    returns (r: Result<Progress, Failure>)
    requires db.Reached() && IdsAssigned(db.owner, event, results, generated) && db.phase == Pipeline.Working
    modifies db
    ensures db.Reached() && db.Continues()
    ensures r.Ok? ==> AllStored(results, db.messages) && MessagesOf(results) <= db.got
    ensures r.Ok? ==> Tallied(results, r.value, around.receipts)
    ensures r.Ok? ==> ReceiptsSettled(results, around.receipts, processingAttempts)
    ensures NoFaults(results, around.faults) && ReceiptsSettled(results, around.receipts, processingAttempts) ==> r.Ok?
    ensures r == Err(NotYetMatchable) ==> processingAttempts < 3
    ensures r.Err? ==> r.error == NotYetMatchable || r.error == Other
  {
    hide Database.Reached, AllStored, Tallied, FirstMessage, EndToEnd.Statuses;
    var progress := Progress(0, 0, []);
    StoredSnoc([], ReceiptResult, db.messages);
    NothingHandled(around.receipts);
    var i := 0;
    while i < |results|
      invariant 0 <= i <= |results| && db.Reached() && db.Continues()
      invariant AllStored(results[..i], db.messages) && MessagesOf(results[..i]) <= db.got
      invariant Tallied(results[..i], progress, around.receipts)
      invariant forall j: nat | j < i && results[j].ReceiptResult? ::
        ReceiptSettled(around.receipts(j), processingAttempts)
      decreases |results| - i
    {
      assert results[..i + 1] == results[..i] + [results[i]];
      FirstIsUncounted(results, i, progress, around.receipts);
      var id := if progress.messagesStored == 0 then event else generated[i];
      var outcome := HandleResult(db, results[i], id, processingAttempts, now, around.faults(i), around.receipts(i),
                                  results[..i]);
      if outcome.Err? {
        return Err(outcome.error);
      }
      var next := if outcome.value.Some?
        then progress.(ignored := progress.ignored + [outcome.value.value])
        else progress.(
               handled := progress.handled + 1,
               messagesStored := progress.messagesStored + if results[i].MessageResult? then 1 else 0);
      TalliedSnoc(results[..i], results[i], progress, next, around.receipts);
      progress := next;
      i := i + 1;
    }
    assert results[..|results|] == results;
    r := Ok(progress);
  }

  /** One result: handled (None), ignored with a reason, or failed. */
  method HandleResult(db: Database, x: Normalized, id: MessageId, processingAttempts: nat, now: int,
                      faults: set<Fault>, receipt: ReceiptEnd, ghost done: seq<Normalized>)
    returns (r: Result<Option<string>, Failure>)
    requires db.Reached() && (x.MessageResult? ==> db.owner(id) == x.pmid) && db.phase == Pipeline.Working
    modifies db
    ensures db.Reached() && db.Continues() && old(db.got) <= db.got
    ensures r.Ok? && x.MessageResult? ==> x.pmid in db.got
    ensures r.Ok? && AllStored(done, old(db.messages)) ==> AllStored(done + [x], db.messages)
    ensures x.MessageResult? ==> r == Ok(None) || (r == Err(Other) && faults != {})
    ensures x.IgnoredResult? ==> r == Ok(Some(x.reason))
    ensures x.ReceiptResult? ==>
              r == (match receipt
                    case Applied => Ok(None)
                    case Broken => Err(Other)
                    case Unmatchable => if processingAttempts < 3 then Err(NotYetMatchable) else Ok(Some(UNMATCHED)))
  {
    hide Run, EndToEnd.Run, EndToEnd.Statuses, EndToEnd.IngestSteps, Matches, AtWork;
    db.Interfere(None);
    match x {
    case MessageResult(sender, pmid, sentAt) =>
      var ingested := IngestMessage(db, sender, pmid, sentAt, id, now, faults);
      r := if ingested.Err? then Err(ingested.error) else Ok(None);
      if r.Ok? {
        db.Confirm(pmid);
      }
    case ReceiptResult =>
      var attemptsLeft := processingAttempts + 1 < RECEIPT_MATCH_ATTEMPTS;
      r := if receipt == Applied then Ok(None)
           else if receipt == Broken then Err(Other)
           else if attemptsLeft then Err(NotYetMatchable) else Ok(Some(UNMATCHED));
    case IgnoredResult(reason) =>
      r := Ok(Some(reason));
    }
    if r.Ok? && AllStored(done, old(db.messages)) {
      AllStillStored(old(db.run), db.run, done);
      assert AllStored(done, db.messages);
      StoredSnoc(done, x, db.messages);
    }
  }

  function Joined(reasons: seq<string>): string {
    if reasons == [] then ""
    else if |reasons| == 1 then reasons[0]
    else reasons[0] + " " + Joined(reasons[1..])
  }

  /** Reasons are joined by spaces, in order. */
  lemma {:induction false} JoinedAppends(reasons: seq<string>, last: string)
    ensures Joined([]) == "" && Joined(reasons + [last]) == if reasons == [] then last else Joined(reasons) + " " + last
  {
    if reasons == [] {
      assert reasons + [last] == [last];
    } else {
      assert (reasons + [last])[1..] == reasons[1..] + [last];
      JoinedAppends(reasons[1..], last);
    }
  }

  predicate Retries(f: Failure) {
    !f.Provider? || f.retryable
  }

  /** The event is there and still to be processed, or to be processed again after a failure. */
  predicate Open(seen: Option<EventRecord>) {
    seen.Some? && seen.value.status in {Journal.RECEIVED, Journal.PROCESSING, Journal.FAILED}
  }

  /**
    One run over one event; `seen` is the row it read and `wrote` the statuses it committed. The
    adapter's answer and whatever happens around the run are parameters. All its writes are recorded
    steps of the pipeline; a PROCESSED is thus one the protocol allows.
   */
  method Process(db: Database, event: EventId, normalized: Result<seq<Normalized>, Failure>,
                 generated: seq<MessageId>, now: int, around: Surroundings)
    returns (thrown: bool, ghost seen: Option<EventRecord>, ghost wrote: seq<Journal.EventStatus>)
    requires db.Reached() && event == db.event && db.phase == Pipeline.Started
    requires normalized.Ok? ==> IdsAssigned(db.owner, event, normalized.value, generated)
    requires normalized.Ok? ==> db.Carries(normalized.value)
    requires normalized.Err? ==> normalized.error.Provider? || normalized.error == Other
    modifies db
    ensures db.Reached() && old(db.run) <= db.run && old(db.whole) <= db.whole
    ensures seen == if around.readFails || event !in old(db.events) then None else Some(old(db.events)[event])
    // The run ends as the pipeline says, and what it wrote are its recorded steps.
    ensures db.phase == if thrown then Pipeline.Throwing else Pipeline.Returning
    ensures EndToEnd.Statuses(db.own) == EndToEnd.Statuses(old(db.own)) + wrote
    // A missing or settled event, or a deleted channel, stores nothing.
    ensures !Open(seen) ==> wrote == [] && db.events == old(db.events) && (thrown <==> around.readFails)
    ensures !Open(seen) ==> db.S() == old(db.S()) && db.run == old(db.run)
    ensures !Open(seen) || seen.value.channelDeleted ==>
              EndToEnd.IngestSteps(db.own) == EndToEnd.IngestSteps(old(db.own))
    ensures Open(seen) && seen.value.channelDeleted ==>
              && wrote == (if around.mark == NotWritten then [] else [Journal.IGNORED])
              && (thrown <==> around.mark != Written)
    // A mark that fails ends the run.
    ensures Open(seen) && !seen.value.channelDeleted && around.mark != Written ==>
              thrown && wrote == if around.mark == NotWritten then [] else [Journal.PROCESSING]
    // A permanent provider failure is recorded for good, any other one for another attempt.
    ensures Open(seen) && !seen.value.channelDeleted && around.mark == Written
            && normalized == Err(Provider(false)) ==>
              && wrote == [Journal.PROCESSING] + (if around.recovery == NotWritten then [] else [Journal.FAILED])
              && (thrown <==> around.recovery != Written)
    ensures Open(seen) && !seen.value.channelDeleted && around.mark == Written
            && normalized.Err? && normalized != Err(Provider(false)) ==>
              && wrote == [Journal.PROCESSING] + (if around.recovery == NotWritten then [] else [Journal.RECEIVED])
              && thrown
    // Results that are all handled or ignored decide the status; otherwise the event is to be retried.
    ensures Open(seen) && !seen.value.channelDeleted && around.mark == Written
            && normalized.Ok? && NoFaults(normalized.value, around.faults)
            && ReceiptsSettled(normalized.value, around.receipts, seen.value.processingAttempts)
            && around.outcome == Written
            ==> !thrown
    ensures Open(seen) && !seen.value.channelDeleted && normalized.Ok? && !thrown && event in db.events ==>
              (db.events[event].lastError.None? <==> AllHandled(normalized.value, around.receipts))
    ensures Open(seen) && !seen.value.channelDeleted && normalized.Ok? && !thrown ==>
              && ReceiptsSettled(normalized.value, around.receipts, seen.value.processingAttempts)
              && |wrote| == 2 && wrote[0] == Journal.PROCESSING
              && wrote[1] == if normalized.value == [] || SomeHandled(normalized.value, around.receipts)
                             then Journal.PROCESSED else Journal.IGNORED
    ensures Open(seen) && !seen.value.channelDeleted
            && normalized.Ok? && thrown && around.mark == Written ==>
              && 0 < |wrote| <= 3 && wrote[0] == Journal.PROCESSING && Journal.FAILED !in wrote
              && (wrote[|wrote| - 1] == Journal.RECEIVED <==> around.recovery != NotWritten)
    ensures Open(seen) && !seen.value.channelDeleted && Journal.PROCESSED in wrote ==>
              && normalized.Ok? && AllStored(normalized.value, db.messages)
              && (normalized.value == [] || SomeHandled(normalized.value, around.receipts))
    ensures Open(seen) && !seen.value.channelDeleted && Journal.IGNORED in wrote ==>
              && normalized.Ok? && normalized.value != [] && !SomeHandled(normalized.value, around.receipts)
              && ReceiptsSettled(normalized.value, around.receipts, seen.value.processingAttempts)
    ensures !thrown && wrote != [] ==>
              event in db.events && db.events[event].status == wrote[|wrote| - 1]
  {
    hide Database.Reached, Database.Carries, Database.WriteStep, IdsAssigned, AllStored;
    hide SomeHandled, AllHandled, ReceiptsSettled, NoFaults;
    hide EndToEnd.Statuses, EndToEnd.IngestSteps;
    thrown, seen, wrote := true, None, [];
    if around.readFails {
      db.RecordThrow();
      return;
    }
    seen := if event in db.events then Some(db.events[event]) else None;
    db.RecordRead(seen);
    if event !in db.events || Settled(db.events[event].status) {
      thrown := false;
      return;
    }
    var row := db.events[event];
    db.Interfere(None);
    db.CarriesOn(if normalized.Ok? then normalized.value else []);
    if row.channelDeleted {
      thrown, wrote := IgnoreEvent(db, event, around.mark);
      return;
    }
    thrown, wrote := ProcessOpen(db, event, normalized, generated, row.processingAttempts, now, around);
  }

  /** The event of a deleted channel. */
  method IgnoreEvent(db: Database, event: EventId, write: Write)
    returns (thrown: bool, ghost wrote: seq<Journal.EventStatus>)
    requires db.Reached() && event == db.event && event in db.events && db.phase == Pipeline.Dropping
    modifies db
    ensures db.Reached() && old(db.run) <= db.run && old(db.whole) <= db.whole
    ensures db.phase == if thrown then Pipeline.Throwing else Pipeline.Returning
    ensures EndToEnd.Statuses(db.own) == EndToEnd.Statuses(old(db.own)) + wrote
    ensures EndToEnd.IngestSteps(db.own) == EndToEnd.IngestSteps(old(db.own))
    ensures wrote == (if write == NotWritten then [] else [Journal.IGNORED]) && (thrown <==> write != Written)
    ensures !thrown ==> event in db.events && db.events[event].status == Journal.IGNORED
  {
    hide Database.Reached, Database.WriteStep, EndToEnd.Statuses, EndToEnd.IngestSteps;
    var ok;
    ghost var written;
    ok, written := db.Transition(event, Journal.IGNORED, Some(Some("Channel was deleted.")), false, write);
    wrote := if written then [Journal.IGNORED] else [];
    thrown := !ok;
    if thrown {
      db.RecordThrow();
    }
  }

  /** The event is marked, its results are handled, and a failure is recorded. */
  method ProcessOpen(db: Database, event: EventId, normalized: Result<seq<Normalized>, Failure>,
                     generated: seq<MessageId>, processingAttempts: nat, now: int, around: Surroundings)
    returns (thrown: bool, ghost wrote: seq<Journal.EventStatus>)
    requires db.Reached() && event == db.event && event in db.events && db.phase == Pipeline.Marking
    requires normalized.Ok? ==> IdsAssigned(db.owner, event, normalized.value, generated)
    requires normalized.Ok? ==> db.Carries(normalized.value)
    requires normalized.Err? ==> normalized.error.Provider? || normalized.error == Other
    modifies db
    ensures db.Reached() && old(db.run) <= db.run && old(db.whole) <= db.whole
    ensures db.phase == if thrown then Pipeline.Throwing else Pipeline.Returning
    ensures EndToEnd.Statuses(db.own) == EndToEnd.Statuses(old(db.own)) + wrote
    ensures !thrown ==> wrote != [] && event in db.events && db.events[event].status == wrote[|wrote| - 1]
    // A mark that fails ends the run.
    ensures around.mark != Written ==>
              thrown && wrote == if around.mark == NotWritten then [] else [Journal.PROCESSING]
    // A permanent provider failure is recorded for good, any other one for another attempt.
    ensures around.mark == Written && normalized == Err(Provider(false)) ==>
              && wrote == [Journal.PROCESSING] + (if around.recovery == NotWritten then [] else [Journal.FAILED])
              && (thrown <==> around.recovery != Written)
    ensures around.mark == Written && normalized.Err? && normalized != Err(Provider(false)) ==>
              && wrote == [Journal.PROCESSING] + (if around.recovery == NotWritten then [] else [Journal.RECEIVED])
              && thrown
    // Results that are all handled or ignored decide the status; otherwise the event is to be retried.
    ensures around.mark == Written && normalized.Ok? && NoFaults(normalized.value, around.faults)
            && ReceiptsSettled(normalized.value, around.receipts, processingAttempts) && around.outcome == Written
            ==> !thrown
    ensures normalized.Ok? && !thrown && event in db.events ==>
              (db.events[event].lastError.None? <==> AllHandled(normalized.value, around.receipts))
    ensures normalized.Ok? && !thrown ==>
              && ReceiptsSettled(normalized.value, around.receipts, processingAttempts)
              && |wrote| == 2 && wrote[0] == Journal.PROCESSING
              && wrote[1] == if normalized.value == [] || SomeHandled(normalized.value, around.receipts)
                             then Journal.PROCESSED else Journal.IGNORED
    ensures normalized.Ok? && thrown && around.mark == Written ==>
              && 0 < |wrote| <= 3 && wrote[0] == Journal.PROCESSING && Journal.FAILED !in wrote
              && (wrote[|wrote| - 1] == Journal.RECEIVED <==> around.recovery != NotWritten)
    ensures Journal.PROCESSED in wrote ==>
              && normalized.Ok? && AllStored(normalized.value, db.messages)
              && (normalized.value == [] || SomeHandled(normalized.value, around.receipts))
    ensures Journal.IGNORED in wrote ==>
              && normalized.Ok? && normalized.value != [] && !SomeHandled(normalized.value, around.receipts)
              && ReceiptsSettled(normalized.value, around.receipts, processingAttempts)
  {
    hide Database.Reached, Database.Carries, Database.WriteStep, IdsAssigned, AllStored;
    hide SomeHandled, AllHandled, ReceiptsSettled, NoFaults, EndToEnd.Statuses, EndToEnd.IngestSteps;
    thrown, wrote := true, [];
    var ok;
    ghost var written;
    ok, written := db.Transition(event, Journal.PROCESSING, None, true, around.mark);
    wrote := if written then [Journal.PROCESSING] else [];
    if !ok {
      db.RecordThrow();
      return;
    }
    db.CarriesOn(if normalized.Ok? then normalized.value else []);
    var error;
    ghost var outcome;
    error, outcome := TryProcessing(db, event, normalized, generated, processingAttempts, now, around);
    wrote := [Journal.PROCESSING] + outcome;
    thrown := false;
    if error.Some? {
      var retry := Retries(error.value);
      ok, written := RecordFailure(db, event, error.value, normalized, around.recovery);
      wrote := wrote + if written then [if retry then Journal.RECEIVED else Journal.FAILED] else [];
      thrown := !ok || retry;
    }
  }

  /** The try block: normalize, handle the results, record the outcome. */
  method TryProcessing(db: Database, event: EventId, normalized: Result<seq<Normalized>, Failure>,
                       generated: seq<MessageId>, processingAttempts: nat, now: int, around: Surroundings)
    returns (failure: Option<Failure>, ghost wrote: seq<Journal.EventStatus>)
    requires db.Reached() && event == db.event && event in db.events && db.phase == Pipeline.Working
    requires normalized.Ok? ==> IdsAssigned(db.owner, event, normalized.value, generated)
    requires normalized.Ok? ==> db.Carries(normalized.value)
    requires normalized.Err? ==> normalized.error.Provider? || normalized.error == Other
    modifies db
    ensures db.Reached() && old(db.run) <= db.run && old(db.whole) <= db.whole && event in db.events
    ensures db.phase == if failure.None? then Pipeline.Returning else Pipeline.Working
    ensures EndToEnd.Statuses(db.own) == EndToEnd.Statuses(old(db.own)) + wrote
    ensures normalized.Err? ==> failure == Some(normalized.error) && wrote == []
    ensures normalized.Ok? && NoFaults(normalized.value, around.faults)
            && ReceiptsSettled(normalized.value, around.receipts, processingAttempts) && around.outcome == Written
            ==> failure.None?
    ensures failure.None? ==> wrote != [] && db.events[event].status == wrote[0]
    // The reasons of what was ignored stay with the event; if nothing was, its last error is cleared.
    ensures failure.None? && normalized.Ok? ==>
              (db.events[event].lastError.None? <==> AllHandled(normalized.value, around.receipts))
    ensures normalized.Ok? && failure.Some? ==> failure.value == Other || failure.value == NotYetMatchable
    ensures normalized.Ok? && wrote != [] ==>
              && ReceiptsSettled(normalized.value, around.receipts, processingAttempts)
              && AllStored(normalized.value, db.messages)
              && wrote == [if normalized.value == [] || SomeHandled(normalized.value, around.receipts)
                           then Journal.PROCESSED else Journal.IGNORED]
  {
    hide Database.Reached, Database.Carries, IdsAssigned, AllStored, EndToEnd.Statuses, EndToEnd.IngestSteps;
    hide SomeHandled, AllHandled, ReceiptsSettled, NoFaults;
    wrote := [];
    db.Interfere(None);
    db.CarriesOn(if normalized.Ok? then normalized.value else []);
    if normalized.Err? {
      return Some(normalized.error), [];
    }
    var results := normalized.value;
    var progress := HandleResults(db, event, results, generated, processingAttempts, now, around);
    db.CarriesOn(results);
    if progress.Err? {
      return Some(progress.error), [];
    }
    var handled, ignored := progress.value.handled, progress.value.ignored;
    var status := if handled > 0 || |ignored| == 0 then Journal.PROCESSED else Journal.IGNORED;
    Others(db, results);
    db.CarriesOn(results);
    AllowsOutcome(db, results, status);
    var ok;
    ghost var written;
    ok, written := db.Transition(
      event, status, Some(if |ignored| > 0 then Some(Joined(ignored)) else None), false, around.outcome);
    wrote := if written then [status] else [];
    failure := if ok then None else Some(Other);
  }

  /** Others act; what is stored stays stored. */
  method Others(db: Database, ghost results: seq<Normalized>)
    requires db.Reached()
    modifies db
    ensures db.Reached() && db.Continues() && db.got == old(db.got)
    ensures AllStored(results, old(db.messages)) ==> AllStored(results, db.messages)
  {
    hide Run, EndToEnd.Run;
    db.Interfere(None);
    if AllStored(results, old(db.messages)) {
      AllStillStored(old(db.run), db.run, results);
    }
  }

  /** With every message stored and confirmed the pipeline allows PROCESSED. */
  lemma AllowsOutcome(db: Database, results: seq<Normalized>, status: Journal.EventStatus)
    requires db.Carries(results) && AllStored(results, db.messages) && MessagesOf(results) <= db.got
    ensures db.Delivers(status)
  {
  }

  /** The catch block's write, after whatever the others did meanwhile. */
  method RecordFailure(db: Database, event: EventId, error: Failure,
                       ghost normalized: Result<seq<Normalized>, Failure>, write: Write)
    returns (ok: bool, ghost written: bool)
    requires db.Reached() && event == db.event && event in db.events && db.phase == Pipeline.Working
    modifies db
    ensures db.Reached() && old(db.run) <= db.run && old(db.whole) <= db.whole
    ensures (ok <==> write == Written) && (written <==> write != NotWritten)
    ensures db.phase == if !ok || error != Provider(false) then Pipeline.Throwing else Pipeline.Returning
    ensures EndToEnd.Statuses(db.own) == EndToEnd.Statuses(old(db.own))
              + if written then [if error == Provider(false) then Journal.FAILED else Journal.RECEIVED] else []
    ensures normalized.Ok? && AllStored(normalized.value, old(db.messages)) ==>
              AllStored(normalized.value, db.messages)
    ensures ok ==> event in db.events
    ensures ok ==> db.events[event].status == if error == Provider(false) then Journal.FAILED else Journal.RECEIVED
  {
    hide Database.Reached, EndToEnd.Statuses, EndToEnd.IngestSteps, AllStored;
    Others(db, if normalized.Ok? then normalized.value else []);
    db.CarriesOn([]);
    var status := if Retries(error) then Journal.RECEIVED else Journal.FAILED;
    ok, written := db.Transition(event, status, Some(Some("Processing failed.")), false, write);
    if !ok {
      db.RecordThrow();
    }
  }
}
