/**
  The inbound pipeline end to end: journal, outbox, job queue, and the runs that process events.
  Journaling is one transaction; every other read, write and queue operation is its own step.
 */
module Pipeline {
  import opened Common
  import Outbox
  import Journal

  type Id = Outbox.Id

  /** `vynor.webhooks.process` allows five retries after the first attempt. */
  const WEBHOOK_ATTEMPTS := 6

  /** Where a run of `process` stands. */
  datatype Phase = Started | Dropping | Marking | Working | Returning | Throwing

  datatype State = State(
    ob: Outbox.State,
    events: map<Id, Journal.Event>,
    index: map<(Journal.Account, Journal.Key), Id>,
    runs: map<Id, Phase>)

  datatype Step =
    | OutboxStep(a: Outbox.Step)
    | JournalBatch(account: Journal.Account, inputs: seq<Journal.EventInput>,
                   ids: seq<Id>, outboxIds: seq<Id>)
    | StartRun(o: Id)
    | ReadEvent(o: Id, channelDeleted: bool)
    | WriteIgnored(o: Id)
    | WriteProcessing(o: Id)
    | WriteOutcome(o: Id, status: Journal.EventStatus)
    | WriteOutcomeLost(o: Id, status: Journal.EventStatus)
    | Throw(o: Id)
    | Finish(o: Id)
    | CrashRun(o: Id, stalledTooOften: bool)
    | Forget(o: Id)
    | Overwrite(event: Id, status: Journal.EventStatus)

  function Tables(s: State): Journal.Tables {
    Journal.Tables(s.events, s.index, s.ob.rows)
  }

  predicate IsEventRow(s: State, o: Id) {
    o in s.ob.rows && s.ob.rows[o].eventType == Journal.PROVIDER_EVENT_RECEIVED
  }

  function Subject(s: State, o: Id): Id
    requires o in s.ob.rows
  {
    s.ob.rows[o].subject
  }

  function Key(o: Id): string {
    Outbox.JobKey(o)
  }

  predicate InPhase(s: State, o: Id, p: Phase) {
    o in s.runs && s.runs[o] == p && IsEventRow(s, o)
  }

  predicate WorksOn(s: State, o: Id, p: Phase) {
    InPhase(s, o, p) && Subject(s, o) in s.events
  }

  ghost predicate Enabled(s: State, a: Step) {
    match a
    case OutboxStep(b) =>
      Outbox.Enabled(s.ob, b) && (b.Create? ==> b.eventType != Journal.PROVIDER_EVENT_RECEIVED)
    case JournalBatch(_, inputs, ids, outboxIds) =>
      && Journal.FreshIds(Tables(s), ids, outboxIds)
      && |inputs| <= |ids| && |inputs| <= |outboxIds|
      && |Journal.NewInputs(Tables(s), a.account, inputs)| <= |inputs|
    case StartRun(o) =>
      IsEventRow(s, o) && o !in s.runs && Key(o) in s.ob.queue && s.ob.queue[Key(o)].Waiting?
    case ReadEvent(o, _) => InPhase(s, o, Started)
    case WriteIgnored(o) => WorksOn(s, o, Dropping)
    case WriteProcessing(o) => WorksOn(s, o, Marking)
    case WriteOutcome(o, status) => WorksOn(s, o, Working) && status != Journal.PROCESSING
    case WriteOutcomeLost(o, status) =>
      || (WorksOn(s, o, Working) && status != Journal.PROCESSING)
      || (WorksOn(s, o, Dropping) && status == Journal.IGNORED)
    case Throw(o) => o in s.runs && s.runs[o] != Returning
    case Finish(o) =>
      && o in s.runs && (s.runs[o] == Returning || s.runs[o] == Throwing)
      && Key(o) in s.ob.queue && s.ob.queue[Key(o)].Active?
    case CrashRun(o, _) => o in s.runs && Key(o) in s.ob.queue && s.ob.queue[Key(o)].Active?
    case Forget(o) => Key(o) in s.ob.queue
    case Overwrite(e, _) => e in s.events
  }

  /** The status update; marking an event PROCESSING counts an attempt. */
  function Rewritten(event: Journal.Event, status: Journal.EventStatus): Journal.Event {
    event.(status := status,
           processingAttempts := event.processingAttempts + if status == Journal.PROCESSING then 1 else 0)
  }

  function SetStatus(s: State, e: Id, status: Journal.EventStatus): State
    requires e in s.events
  {
    s.(events := s.events[e := Rewritten(s.events[e], status)])
  }

  function SetPhase(s: State, o: Id, p: Phase): State {
    s.(runs := s.runs[o := p])
  }

  function SetJob(s: State, o: Id, j: Outbox.Job): State {
    s.(ob := s.ob.(queue := s.ob.queue[Key(o) := j]))
  }

  function EndRun(s: State, o: Id, j: Outbox.Job): State {
    SetJob(s, o, j).(runs := s.runs - {o})
  }

  predicate Settled(status: Journal.EventStatus) {
    status == Journal.PROCESSED || status == Journal.IGNORED
  }

  ghost function Next(s: State, a: Step): State
    requires Enabled(s, a)
  {
    match a
    case OutboxStep(b) => s.(ob := Outbox.Next(s.ob, b))
    case JournalBatch(account, inputs, ids, outboxIds) =>
      var t := Journal.Journaled(Tables(s), account, inputs, ids, outboxIds, s.ob.now);
      s.(ob := s.ob.(rows := t.outbox), events := t.events, index := t.index)
    case StartRun(o) => SetPhase(SetJob(s, o, Outbox.Active(s.ob.queue[Key(o)].attemptsMade)), o, Started)
    case ReadEvent(o, channelDeleted) =>
      var e := Subject(s, o);
      SetPhase(s, o,
        if e !in s.events || Settled(s.events[e].status) then Returning
        else if channelDeleted then Dropping else Marking)
    case WriteIgnored(o) => SetPhase(SetStatus(s, Subject(s, o), Journal.IGNORED), o, Returning)
    case WriteProcessing(o) => SetPhase(SetStatus(s, Subject(s, o), Journal.PROCESSING), o, Working)
    case WriteOutcome(o, status) =>
      SetPhase(SetStatus(s, Subject(s, o), status), o,
               if status == Journal.RECEIVED then Throwing else Returning)
    case WriteOutcomeLost(o, status) => SetStatus(s, Subject(s, o), status)
    case Throw(o) => SetPhase(s, o, Throwing)
    case Finish(o) =>
      var made := s.ob.queue[Key(o)].attemptsMade + 1;
      EndRun(s, o, if s.runs[o] == Returning then Outbox.Done
                   else if made < WEBHOOK_ATTEMPTS then Outbox.Waiting(made) else Outbox.Exhausted)
    case CrashRun(o, stalledTooOften) =>
      EndRun(s, o, if stalledTooOften then Outbox.Exhausted
                   else Outbox.Waiting(s.ob.queue[Key(o)].attemptsMade))
    case Forget(o) => s.(ob := s.ob.(queue := s.ob.queue - {Key(o)}), runs := s.runs - {o})
    case Overwrite(e, status) => SetStatus(s, e, status)
  }

  ghost function Run(s: State, run: seq<Step>): Option<State>
    decreases run
  {
    if run == [] then Some(s)
    else if Enabled(s, run[0]) then Run(Next(s, run[0]), run[1..])
    else None
  }

  const Empty := State(Outbox.Empty, map[], map[], map[])

  // ---------------------------------------------------------------------------
  // No silent loss
  // ---------------------------------------------------------------------------

  predicate Terminal(s: State, e: Id)
    requires e in s.events
  {
    IsFinal(s.events[e].status)
  }

  /** Somebody still has to do something about the row: the dispatcher, an operator, or the queue. */
  predicate Held(s: State, o: Id)
    requires o in s.ob.rows
  {
    || s.ob.rows[o].status != Outbox.COMPLETED
    || (Key(o) in s.ob.queue && !s.ob.queue[Key(o)].Done?)
  }

  ghost predicate NotLost(s: State, e: Id)
    requires e in s.events
  {
    Terminal(s, e) || exists o :: IsEventRow(s, o) && Subject(s, o) == e && Held(s, o)
  }

  /** The row's event is terminal once the queue finished its job, or dropped it. */
  ghost predicate RowOk(s: State, o: Id) {
    IsEventRow(s, o) ==>
      var e, k := Subject(s, o), Key(o);
      && e in s.events
      && (k in s.ob.accepted && k !in s.ob.queue ==> Terminal(s, e))
      && (k in s.ob.queue && s.ob.queue[k].Done? ==> Terminal(s, e))
      && (o in s.runs && s.runs[o] == Returning ==> Terminal(s, e))
  }

  ghost predicate RunOk(s: State, o: Id) {
    o in s.runs ==> IsEventRow(s, o) && Key(o) in s.ob.queue && s.ob.queue[Key(o)].Active?
  }

  /** What every step keeps, whoever acts how. */
  ghost predicate BaseInv(s: State) {
    Outbox.Inv(s.ob) && Journal.Sound(Tables(s))
  }

  ghost predicate Inv(s: State) {
    && BaseInv(s)
    && (forall o :: RowOk(s, o))
    && (forall o :: RunOk(s, o))
    && (forall o :: Key(o) in s.ob.accepted ==> o in s.ob.rows)
  }

  predicate IsFinal(status: Journal.EventStatus) {
    Settled(status) || status == Journal.FAILED
  }

  /** No run will look at the row's event again: its job is done, dropped, or about to be done. */
  predicate Spent(s: State, o: Id) {
    || (Key(o) in s.ob.accepted && Key(o) !in s.ob.queue)
    || (Key(o) in s.ob.queue && s.ob.queue[Key(o)].Done?)
    || (o in s.runs && s.runs[o] == Returning)
  }

  /** The event may be given this status: it is final, or the event's job is still to be finished. */
  ghost predicate MayWrite(s: State, e: Id, status: Journal.EventStatus) {
    IsFinal(status) || forall o | IsEventRow(s, o) && Subject(s, o) == e :: !Spent(s, o)
  }

  /** The queue may drop the job: it completed, or its event is not to be processed any more. */
  predicate MayForget(s: State, o: Id) {
    IsEventRow(s, o) && Subject(s, o) in s.events && Key(o) in s.ob.queue && !s.ob.queue[Key(o)].Done?
    ==> IsFinal(s.events[Subject(s, o)].status)
  }

  /**
    What a replay, or a write by a run that no longer has its job, must respect, and what the queue
    must when it drops jobs: failed ones after a while, or any when its own storage loses them.
   */
  ghost predicate Orderly(s: State, a: Step) {
    match a
    case Overwrite(e, status) => MayWrite(s, e, status)
    case Forget(o) => MayForget(s, o)
    case _ => true
  }

  ghost predicate OrderlyRun(s: State, run: seq<Step>)
    decreases run
  {
    run == [] ||
    (Enabled(s, run[0]) && Orderly(s, run[0]) && OrderlyRun(Next(s, run[0]), run[1..]))
  }

  lemma InvMeansNotLost(s: State, e: Id)
    requires Inv(s) && e in s.events
    ensures NotLost(s, e)
  {
    var o :| Journal.IsRowOf(Tables(s), o, e);
    assert IsEventRow(s, o) && RowOk(s, o);
    if !Held(s, o) {
      assert Outbox.RowInv(s.ob, o);
    }
  }

  /** Two event rows never share an event. */
  lemma RowsDiffer(s: State, o: Id, p: Id)
    requires BaseInv(s) && IsEventRow(s, o) && IsEventRow(s, p) && Subject(s, o) == Subject(s, p)
    ensures o == p
  {
    SubjectJournaled(s, o);
    assert Journal.IsRowOf(Tables(s), o, Subject(s, o)) && Journal.IsRowOf(Tables(s), p, Subject(s, o));
  }

  lemma SoundTransfers(t: Journal.Tables, u: Journal.Tables)
    requires Journal.Sound(t) && u.index == t.index && u.events.Keys == t.events.Keys
    requires forall e <- t.events ::
               u.events[e].account == t.events[e].account && u.events[e].input == t.events[e].input
    requires forall o, e :: Journal.IsRowOf(u, o, e) <==> Journal.IsRowOf(t, o, e)
    ensures Journal.Sound(u)
  {
    forall e | e in u.events
      ensures Journal.OneRow(u, e)
    {
      assert Journal.OneRow(t, e);
      var o :| Journal.IsRowOf(t, o, e);
      assert Journal.IsRowOf(u, o, e);
    }
    forall o | o in u.outbox && u.outbox[o].eventType == Journal.PROVIDER_EVENT_RECEIVED
      ensures u.outbox[o].subject in u.events
    {
      assert Journal.IsRowOf(u, o, u.outbox[o].subject);
      assert Journal.IsRowOf(t, o, u.outbox[o].subject);
    }
  }

  lemma OutboxInvTransfers(s: Outbox.State, t: Outbox.State)
    requires Outbox.Inv(s) && t.hands == s.hands && t.accepted == s.accepted
    requires t.queue.Keys <= t.accepted
    requires forall o <- s.rows :: o in t.rows && t.rows[o] == s.rows[o]
    requires forall o <- t.rows | o !in s.rows ::
               t.rows[o] == Outbox.NewRow(Journal.PROVIDER_EVENT_RECEIVED, t.rows[o].subject, s.now)
    ensures Outbox.Inv(t)
  {
    forall o | o in t.rows
      ensures Outbox.RowInv(t, o)
    {
      if o in s.rows {
        assert Outbox.RowInv(s, o);
      }
    }
    forall w
      ensures Outbox.HandInv(t, w)
    {
      assert Outbox.HandInv(s, w);
      assert Outbox.Hand(t, w) == Outbox.Hand(s, w);
    }
  }

  // ---------------------------------------------------------------------------
  // Preservation: outbox steps
  // ---------------------------------------------------------------------------

  /** An outbox step adds jobs to the queue only for rows it has, and never changes a job. */
  lemma QueueStep(s: Outbox.State, b: Outbox.Step, o: Id)
    requires Outbox.Enabled(s, b) && Outbox.Inv(s)
    ensures var t, k := Outbox.Next(s, b), Key(o);
            && (k in s.queue ==> k in t.queue && t.queue[k] == s.queue[k])
            && (k in t.queue && k !in s.queue ==> t.queue[k] == Outbox.Waiting(0))
            && (k in t.accepted && k !in s.accepted ==> o in s.rows && k in t.queue)
  {
    if b.SendAccepted? || b.SendLost? {
      assert Outbox.HandInv(s, b.worker);
      Outbox.JobKeyInjective(Outbox.Hand(s, b.worker)[0].id, o);
    }
  }

  lemma RowIdentityStep(s: Outbox.State, b: Outbox.Step, o: Id)
    requires Outbox.Enabled(s, b)
    ensures var t := Outbox.Next(s, b);
            && (o in s.rows ==> o in t.rows && t.rows[o].eventType == s.rows[o].eventType
                                && t.rows[o].subject == s.rows[o].subject)
            && (o in t.rows && o !in s.rows ==> b.Create? && t.rows[o].eventType == b.eventType)
  {
    if o in s.rows {
      Outbox.StepActsRowwise(s, b, o);
    } else if o in Outbox.Next(s, b).rows {
      Outbox.RowsAppear(s, b, o);
    }
  }

  lemma OutboxStepKeepsSound(s: State, b: Outbox.Step)
    requires BaseInv(s) && Enabled(s, OutboxStep(b))
    ensures Journal.Sound(Tables(Next(s, OutboxStep(b))))
  {
    var t := Next(s, OutboxStep(b));
    forall o
      ensures IsEventRow(t, o) <==> IsEventRow(s, o)
      ensures IsEventRow(t, o) ==> Subject(t, o) == Subject(s, o)
    {
      RowIdentityStep(s.ob, b, o);
    }
    assert t.events == s.events && t.index == s.index;
    hide Next, Enabled;
    forall e, o
      ensures Journal.IsRowOf(Tables(t), o, e) <==> Journal.IsRowOf(Tables(s), o, e)
    {
      assert Journal.IsRowOf(Tables(t), o, e) <==> IsEventRow(t, o) && Subject(t, o) == e;
      assert Journal.IsRowOf(Tables(s), o, e) <==> IsEventRow(s, o) && Subject(s, o) == e;
    }
    SoundTransfers(Tables(s), Tables(t));
  }

  lemma OutboxStepKeepsRow(s: State, b: Outbox.Step, o: Id)
    requires Inv(s) && Enabled(s, OutboxStep(b))
    ensures RowOk(Next(s, OutboxStep(b)), o) && RunOk(Next(s, OutboxStep(b)), o)
    ensures Key(o) in Next(s, OutboxStep(b)).ob.accepted ==> o in Next(s, OutboxStep(b)).ob.rows
  {
    assert RowOk(s, o) && RunOk(s, o);
    RowIdentityStep(s.ob, b, o);
    QueueStep(s.ob, b, o);
    Outbox.AcceptedGrows(s.ob, b);
  }

  lemma OutboxStepKeeps(s: State, b: Outbox.Step)
    requires Inv(s) && Enabled(s, OutboxStep(b))
    ensures Inv(Next(s, OutboxStep(b)))
  {
    Outbox.InvKept(s.ob, b);
    OutboxStepKeepsSound(s, b);
    forall o
      ensures RowOk(Next(s, OutboxStep(b)), o) && RunOk(Next(s, OutboxStep(b)), o)
      ensures Key(o) in Next(s, OutboxStep(b)).ob.accepted ==> o in Next(s, OutboxStep(b)).ob.rows
    {
      OutboxStepKeepsRow(s, b, o);
    }
  }

  // ---------------------------------------------------------------------------
  // Preservation: journaling
  // ---------------------------------------------------------------------------

  lemma JournalKeepsSound(s: State, a: Step)
    requires BaseInv(s) && Enabled(s, a) && a.JournalBatch?
    ensures Journal.Sound(Tables(Next(s, a)))
  {
    Journal.JournalingKeepsSound(Tables(s), a.account, a.inputs, a.ids, a.outboxIds, s.ob.now);
  }

  lemma JournalAddsEvents(s: State, a: Step)
    requires Enabled(s, a) && a.JournalBatch?
    ensures forall e <- s.events :: e in Next(s, a).events && Next(s, a).events[e] == s.events[e]
  {
    var created := Journal.NewInputs(Tables(s), a.account, a.inputs);
    Journal.InsertAdds(Tables(s), a.account, created, a.ids);
    hide Journal.Insert, Journal.NewInputs;
  }

  /** The outbox differs by pending rows for the new events. */
  ghost predicate OutboxGrew(s: Outbox.State, t: Outbox.State) {
    && t == s.(rows := t.rows)
    && (forall o <- s.rows :: o in t.rows && t.rows[o] == s.rows[o])
    && (forall o <- t.rows | o !in s.rows ::
          t.rows[o] == Outbox.NewRow(Journal.PROVIDER_EVENT_RECEIVED, t.rows[o].subject, s.now))
  }

  lemma JournalAddsRows(s: State, a: Step)
    requires Enabled(s, a) && a.JournalBatch?
    ensures OutboxGrew(s.ob, Next(s, a).ob) && Next(s, a).runs == s.runs
  {
    hide Journal.Insert, Journal.AddRows, Journal.NewInputs;
    var created := Journal.NewInputs(Tables(s), a.account, a.inputs);
    var subjects := a.ids[..|created|];
    assert Journal.Insert(Tables(s), a.account, created, a.ids).outbox == s.ob.rows by {
      Journal.InsertAdds(Tables(s), a.account, created, a.ids);
    }
    Journal.AddRowsAdds(s.ob.rows, subjects, a.outboxIds, s.ob.now);
    var t := Next(s, a);
    forall o | o in t.ob.rows && o !in s.ob.rows
      ensures t.ob.rows[o] == Outbox.NewRow(Journal.PROVIDER_EVENT_RECEIVED, t.ob.rows[o].subject, s.ob.now)
    {
      var i :| 0 <= i < |subjects| && a.outboxIds[..|subjects|][i] == o;
    }
  }

  lemma JournalKeepsRow(s: State, t: State, o: Id)
    requires RowOk(s, o) && RunOk(s, o) && OutboxGrew(s.ob, t.ob) && t.runs == s.runs
    requires forall e <- s.events :: e in t.events && t.events[e] == s.events[e]
    requires Journal.Sound(Tables(t))
    requires Key(o) in s.ob.accepted ==> o in s.ob.rows
    requires s.ob.queue.Keys <= s.ob.accepted
    ensures RowOk(t, o) && RunOk(t, o)
  {
    if IsEventRow(t, o) {
      SubjectJournaled(t, o);
    }
    hide Journal.Sound;
  }

  lemma JournalKeeps(s: State, a: Step)
    requires Inv(s) && Enabled(s, a) && a.JournalBatch?
    ensures Inv(Next(s, a))
  {
    JournalKeepsSound(s, a);
    JournalAddsEvents(s, a);
    JournalAddsRows(s, a);
    var t := Next(s, a);
    hide Next, Enabled, RowOk, RunOk;
    OutboxInvTransfers(s.ob, t.ob);
    forall o
      ensures RowOk(t, o) && RunOk(t, o)
    {
      JournalKeepsRow(s, t, o);
    }
  }

  lemma SubjectJournaled(s: State, o: Id)
    requires Journal.Sound(Tables(s)) && IsEventRow(s, o)
    ensures Subject(s, o) in s.events
  {
    assert o in Tables(s).outbox;
  }

  // ---------------------------------------------------------------------------
  // Preservation: processing
  // ---------------------------------------------------------------------------

  lemma ProcessingKeepsEvents(s: State, a: Step)
    requires Enabled(s, a) && !a.OutboxStep? && !a.JournalBatch?
    ensures var t := Next(s, a);
            && t.index == s.index && t.events.Keys == s.events.Keys
            && (forall e <- s.events :: t.events[e].account == s.events[e].account
                                        && t.events[e].input == s.events[e].input)
  {
  }

  lemma ProcessingKeepsQueue(s: State, a: Step)
    requires Enabled(s, a) && !a.OutboxStep? && !a.JournalBatch?
    ensures var t := Next(s, a);
            t.ob == s.ob.(queue := t.ob.queue) && t.ob.queue.Keys <= s.ob.queue.Keys
  {
  }

  /** A step of one run leaves other runs, other jobs and other events as they are. */
  lemma ProcessingIsLocal(s: State, a: Step, o: Id)
    requires Enabled(s, a) && !a.OutboxStep? && !a.JournalBatch? && !a.Overwrite? && a.o != o
    ensures var t := Next(s, a);
            && (o in t.runs <==> o in s.runs) && (o in s.runs ==> t.runs[o] == s.runs[o])
            && (Key(o) in t.ob.queue <==> Key(o) in s.ob.queue)
            && (Key(o) in s.ob.queue ==> t.ob.queue[Key(o)] == s.ob.queue[Key(o)])
  {
    Outbox.JobKeyInjective(a.o, o);
    hide Outbox.JobKey;
  }

  lemma EventsAreLocal(s: State, a: Step, e: Id)
    requires Enabled(s, a) && !a.OutboxStep? && !a.JournalBatch? && !a.Overwrite? && e in s.events
    requires IsEventRow(s, a.o) ==> Subject(s, a.o) != e
    ensures e in Next(s, a).events && Next(s, a).events[e] == s.events[e]
  {
  }

  lemma ProcessingKeepsSound(s: State, a: Step)
    requires BaseInv(s) && Enabled(s, a) && !a.OutboxStep? && !a.JournalBatch?
    ensures BaseInv(Next(s, a))
  {
    ProcessingKeepsEvents(s, a);
    ProcessingKeepsQueue(s, a);
    hide Next, Enabled, Journal.Sound;
    var t := Next(s, a);
    OutboxInvTransfers(s.ob, t.ob);
    assert forall o, e :: Journal.IsRowOf(Tables(t), o, e) <==> Journal.IsRowOf(Tables(s), o, e);
    SoundTransfers(Tables(s), Tables(t));
  }

  lemma OverwriteKeepsRow(s: State, a: Step, o: Id)
    requires Inv(s) && Enabled(s, a) && Orderly(s, a) && a.Overwrite?
    ensures RowOk(Next(s, a), o) && RunOk(Next(s, a), o)
  {
    assert RowOk(s, o) && RunOk(s, o);
  }

  predicate EndsRun(a: Step) {
    a.Finish? || a.CrashRun? || a.Forget?
  }

  predicate WritesEvent(a: Step) {
    a.WriteIgnored? || a.WriteProcessing? || a.WriteOutcome? || a.WriteOutcomeLost?
  }

  predicate MovesRun(a: Step) {
    a.StartRun? || a.ReadEvent? || a.Throw?
  }

  lemma RunEnds(s: State, a: Step)
    requires EndsRun(a) && Enabled(s, a) && Orderly(s, a) && RowOk(s, a.o) && RunOk(s, a.o)
    ensures RowOk(Next(s, a), a.o) && RunOk(Next(s, a), a.o)
  {
  }

  lemma RunWrites(s: State, a: Step)
    requires WritesEvent(a) && Enabled(s, a) && RowOk(s, a.o) && RunOk(s, a.o)
    ensures RowOk(Next(s, a), a.o) && RunOk(Next(s, a), a.o)
  {
  }

  lemma RunMoves(s: State, a: Step)
    requires MovesRun(a) && Enabled(s, a) && RowOk(s, a.o) && RunOk(s, a.o)
    ensures RowOk(Next(s, a), a.o) && RunOk(Next(s, a), a.o)
  {
  }

  /** A step of the run of `o` changes that run, its job, and the event of that row. */
  lemma OwnRowStep(s: State, a: Step)
    requires EndsRun(a) || WritesEvent(a) || MovesRun(a)
    requires Inv(s) && Enabled(s, a) && Orderly(s, a)
    ensures RowOk(Next(s, a), a.o) && RunOk(Next(s, a), a.o)
  {
    InvOf(s, a.o);
    hide RowOk, RunOk, Next, Enabled, Orderly, Inv;
    if EndsRun(a) {
      RunEnds(s, a);
    } else if WritesEvent(a) {
      RunWrites(s, a);
    } else {
      RunMoves(s, a);
    }
  }

  lemma OtherRowStep(s: State, a: Step, o: Id)
    requires Inv(s) && Enabled(s, a)
    requires !a.OutboxStep? && !a.JournalBatch? && !a.Overwrite? && a.o != o
    ensures RowOk(Next(s, a), o) && RunOk(Next(s, a), o)
  {
    hide Next;
    ProcessingIsLocal(s, a, o);
    ProcessingKeepsQueue(s, a);
    InvOf(s, o);
    if IsEventRow(s, o) {
      if IsEventRow(s, a.o) && Subject(s, o) == Subject(s, a.o) {
        RowsDiffer(s, o, a.o);
      } else {
        EventsAreLocal(s, a, Subject(s, o));
      }
    }
  }

  lemma InvOf(s: State, o: Id)
    requires Inv(s)
    ensures RowOk(s, o) && RunOk(s, o)
  {
  }

  lemma InvKept(s: State, a: Step)
    requires Inv(s) && Enabled(s, a) && Orderly(s, a)
    ensures Inv(Next(s, a))
  {
    if a.OutboxStep? {
      OutboxStepKeeps(s, a.a);
    } else if a.JournalBatch? {
      JournalKeeps(s, a);
    } else {
      ProcessingKeepsQueue(s, a);
      ProcessingKeepsSound(s, a);
      forall o
        ensures RowOk(Next(s, a), o) && RunOk(Next(s, a), o)
      {
        if a.Overwrite? {
          OverwriteKeepsRow(s, a, o);
        } else if a.o == o {
          OwnRowStep(s, a);
        } else {
          OtherRowStep(s, a, o);
        }
      }
    }
  }

  lemma BaseInvKept(s: State, a: Step)
    requires BaseInv(s) && Enabled(s, a)
    ensures BaseInv(Next(s, a))
  {
    if a.OutboxStep? {
      Outbox.InvKept(s.ob, a.a);
      OutboxStepKeepsSound(s, a.a);
    } else if a.JournalBatch? {
      JournalKeepsSound(s, a);
      JournalAddsRows(s, a);
      var t := Next(s, a);
      hide Next, Enabled;
      OutboxInvTransfers(s.ob, t.ob);
    } else {
      ProcessingKeepsSound(s, a);
    }
  }

  lemma {:induction false} BaseInvHolds(s: State, run: seq<Step>)
    requires BaseInv(s) && Run(s, run).Some?
    ensures BaseInv(Run(s, run).value)
    decreases run
  {
    if run != [] {
      BaseInvKept(s, run[0]);
      hide BaseInv, Next;
      BaseInvHolds(Next(s, run[0]), run[1..]);
    }
  }

  lemma {:induction false} InvHolds(s: State, run: seq<Step>)
    requires Inv(s) && OrderlyRun(s, run)
    ensures Run(s, run).Some? && Inv(Run(s, run).value)
    decreases run
  {
    if run != [] {
      InvKept(s, run[0]);
      InvHolds(Next(s, run[0]), run[1..]);
    }
  }

  lemma EmptyIsSound()
    ensures Inv(Empty)
  {
    assert Outbox.Inv(Outbox.Empty);
  }

  /**
    No silent loss: at every point of every orderly run, a journaled event is terminal, or its row
    is not completed, or the queue holds a job for it that has not finished successfully.
   */
  lemma NoSilentLoss(run: seq<Step>, e: Id)
    requires OrderlyRun(Empty, run) && Run(Empty, run).Some? && e in Run(Empty, run).value.events
    ensures NotLost(Run(Empty, run).value, e)
  {
    EmptyIsSound();
    InvHolds(Empty, run);
    InvMeansNotLost(Run(Empty, run).value, e);
  }

  // ---------------------------------------------------------------------------
  // Replays and superseded runs
  // ---------------------------------------------------------------------------

  /** The invariant survives an overwrite exactly when the guard holds. */
  lemma OverwriteKeepsInvExactlyWhen(s: State, e: Id, status: Journal.EventStatus)
    requires Inv(s) && e in s.events
    ensures Enabled(s, Overwrite(e, status))
    ensures Inv(Next(s, Overwrite(e, status))) <==> MayWrite(s, e, status)
  {
    var a := Overwrite(e, status);
    var t := Next(s, a);
    if MayWrite(s, e, status) {
      InvKept(s, a);
    } else {
      var o :| IsEventRow(s, o) && Subject(s, o) == e && Spent(s, o);
      assert !RowOk(t, o);
    }
  }

  ghost predicate Lost(s: State, e: Id) {
    e in s.events && !NotLost(s, e)
  }

  /** Lost now, or as soon as the run that is already returning finishes. */
  ghost predicate LostOrAboutTo(s: State, o: Id, e: Id) {
    Lost(s, e) || (Enabled(s, Finish(o)) && Lost(Next(s, Finish(o)), e))
  }

  lemma OverwriteEffect(s: State, e: Id, status: Journal.EventStatus)
    requires e in s.events
    ensures Enabled(s, Overwrite(e, status))
    ensures var t := Next(s, Overwrite(e, status));
            t == s.(events := t.events) && t.events.Keys == s.events.Keys && t.events[e].status == status
  {
  }

  lemma FinishEffect(s: State, o: Id)
    ensures Enabled(s, Finish(o)) <==>
            && o in s.runs && (s.runs[o] == Returning || s.runs[o] == Throwing)
            && Key(o) in s.ob.queue && s.ob.queue[Key(o)].Active?
    ensures Enabled(s, Finish(o)) ==>
              var t := Next(s, Finish(o));
              && t.ob.rows == s.ob.rows && t.events == s.events
              && Key(o) in t.ob.queue && (t.ob.queue[Key(o)].Done? <==> s.runs[o] == Returning)
  {
    hide Outbox.JobKey;
  }

  /**
    When an overwrite costs a dispatched event, for every state the invariant allows: exactly when
    the new status is not final and the event's job is spent.
   */
  lemma OverwriteLosesExactlyWhen(s: State, o: Id, status: Journal.EventStatus)
    requires Inv(s) && IsEventRow(s, o) && s.ob.rows[o].status == Outbox.COMPLETED
    ensures Subject(s, o) in s.events && Enabled(s, Overwrite(Subject(s, o), status))
    ensures LostOrAboutTo(Next(s, Overwrite(Subject(s, o), status)), o, Subject(s, o))
            <==> !IsFinal(status) && Spent(s, o)
  {
    InvOf(s, o);
    assert Key(o) in s.ob.accepted by {
      assert Outbox.RowInv(s.ob, o);
    }
    var e := Subject(s, o);
    OverwriteEffect(s, e, status);
    var t := Next(s, Overwrite(e, status));
    OnlyRow(s, t, o);
    FinishEffect(t, o);
    hide Inv, NotLost, Outbox.JobKey, Next, Enabled;
    if Enabled(t, Finish(o)) {
      OnlyRow(s, Next(t, Finish(o)), o);
    }
  }

  /** With its one row, an event is lost exactly when it is not final and that row is not held. */
  lemma OnlyRow(s: State, t: State, o: Id)
    requires BaseInv(s) && IsEventRow(s, o) && t.ob.rows == s.ob.rows && t.events.Keys == s.events.Keys
    ensures Subject(s, o) in t.events
    ensures NotLost(t, Subject(s, o)) <==> Terminal(t, Subject(s, o)) || Held(t, o)
  {
    SubjectJournaled(s, o);
    forall p | IsEventRow(t, p) && Subject(t, p) == Subject(s, o)
      ensures p == o
    {
      RowsDiffer(s, o, p);
    }
    assert IsEventRow(t, o) && Subject(t, o) == Subject(s, o);
  }

  // ---------------------------------------------------------------------------
  // Jobs the queue drops
  // ---------------------------------------------------------------------------

  lemma ForgetEffect(s: State, o: Id)
    requires Enabled(s, Forget(o))
    ensures var t := Next(s, Forget(o));
            && t.ob == s.ob.(queue := t.ob.queue) && t.events == s.events && Key(o) !in t.ob.queue
  {
  }

  /** The invariant survives the removal of a job exactly when the guard holds. */
  lemma ForgetKeepsInvExactlyWhen(s: State, o: Id)
    requires Inv(s) && Enabled(s, Forget(o))
    ensures Inv(Next(s, Forget(o))) <==> MayForget(s, o)
  {
    if MayForget(s, o) {
      InvKept(s, Forget(o));
    } else {
      ForgetEffect(s, o);
      hide Next, Outbox.JobKey;
      assert !RowOk(Next(s, Forget(o)), o);
    }
  }

  /**
    When the removal of a job, completed, failed or lost, costs a dispatched event: exactly when the
    event's status is not final.
   */
  lemma ForgetLosesExactlyWhen(s: State, o: Id)
    requires Inv(s) && Enabled(s, Forget(o))
    requires IsEventRow(s, o) && s.ob.rows[o].status == Outbox.COMPLETED
    ensures Subject(s, o) in s.events
    ensures Lost(Next(s, Forget(o)), Subject(s, o)) <==> !IsFinal(s.events[Subject(s, o)].status)
  {
    ForgetEffect(s, o);
    OnlyRow(s, Next(s, Forget(o)), o);
    hide Inv, NotLost, Outbox.JobKey, Next, Enabled;
  }

  /** One step keeps the invariant exactly when it is orderly. */
  lemma StepKeepsInvExactlyWhen(s: State, a: Step)
    requires Inv(s) && Enabled(s, a)
    ensures Inv(Next(s, a)) <==> Orderly(s, a)
  {
    if Orderly(s, a) {
      InvKept(s, a);
    } else if a.Overwrite? {
      OverwriteKeepsInvExactlyWhen(s, a.event, a.status);
    } else {
      ForgetKeepsInvExactlyWhen(s, a.o);
    }
  }

  ghost predicate InvThroughout(s: State, run: seq<Step>)
    requires Run(s, run).Some?
    decreases run
  {
    Inv(s) && (run == [] || InvThroughout(Next(s, run[0]), run[1..]))
  }

  /** The invariant holds at every point of a run exactly when the run is orderly. */
  lemma {:induction false} OrderlyExactlyWhen(s: State, run: seq<Step>)
    requires Inv(s) && Run(s, run).Some?
    ensures InvThroughout(s, run) <==> OrderlyRun(s, run)
    decreases run
  {
    if run != [] {
      StepKeepsInvExactlyWhen(s, run[0]);
      hide Inv, Next, Orderly;
      if Inv(Next(s, run[0])) {
        OrderlyExactlyWhen(Next(s, run[0]), run[1..]);
      }
    }
  }

  // ---------------------------------------------------------------------------
  // Runs that lose an event
  // ---------------------------------------------------------------------------

  // A replay that loses its event, step by step. The run has written PROCESSED and is about to
  // return when the event is reset; then the queue marks the job done.

  ghost const Input := Journal.EventInput("k", false, "{}")
  ghost const Row1 := Outbox.NewRow(Journal.PROVIDER_EVENT_RECEIVED, "e", 0)
  ghost const Row2 := Outbox.ClaimedRow(Row1, "w", 0)
  ghost const Row3 := Outbox.CompletedRow(Row2, 0)
  ghost const Journal1 := map["e" := Journal.Event("acc", Input, Journal.RECEIVED, 0)]
  ghost const Index1 := map[("acc", "k") := "e"]
  ghost const Hand1 := [Outbox.Claim("o", 0, 60_000, Outbox.Fresh)]
  ghost const Hand2 := [Outbox.Claim("o", 0, 60_000, Outbox.Handed)]
  ghost const P1 := State(Outbox.State(0, map["o" := Row1], map[], map[], {}), Journal1, Index1, map[])
  ghost const P2 :=
    P1.(ob := P1.ob.(rows := map["o" := Row2], hands := map["w" := Hand1]))
  ghost const P3 :=
    P2.(ob := P2.ob.(hands := map["w" := Hand2], queue := map[Key("o") := Outbox.Waiting(0)],
                     accepted := {Key("o")}))
  ghost const P4 := P3.(ob := P3.ob.(rows := map["o" := Row3], hands := map["w" := []]))
  ghost const P5 :=
    P4.(ob := P4.ob.(queue := map[Key("o") := Outbox.Active(0)]), runs := map["o" := Started])
  ghost const P6 := P5.(runs := map["o" := Marking])
  ghost const P7 :=
    P6.(events := map["e" := Journal.Event("acc", Input, Journal.PROCESSING, 1)], runs := map["o" := Working])
  ghost const P8 :=
    P7.(events := map["e" := Journal.Event("acc", Input, Journal.PROCESSED, 1)], runs := map["o" := Returning])
  ghost const P9 := P8.(events := map["e" := Journal.Event("acc", Input, Journal.RECEIVED, 1)])
  ghost const P10 := P9.(ob := P9.ob.(queue := map[Key("o") := Outbox.Done]), runs := map[])

  lemma Journals()
    ensures Enabled(Empty, JournalBatch("acc", [Input], ["e"], ["o"]))
    ensures Next(Empty, JournalBatch("acc", [Input], ["e"], ["o"])) == P1
  {
    var t := Tables(Empty);
    assert [Input][..0] == [] && [Input][1..] == [] && ["e"][..0] == [];
    assert Journal.Put([], Input) == [Input];
    assert Journal.Dedup([]) == [] && Journal.Dedup([Input]) == [Input];
    assert Journal.Created(t, "acc", []) == [] && Journal.Created(t, "acc", [Input]) == [Input];
    assert Journal.NewInputs(t, "acc", [Input]) == [Input];
    assert Journal.Insert(t, "acc", [Input], ["e"]) == Journal.Tables(Journal1, Index1, map[]);
    assert Journal.AddRows(map[], ["e"], ["o"], 0) == map["o" := Row1];
    assert ["e"][..1] == ["e"];
  }

  lemma Claims()
    ensures Enabled(P1, OutboxStep(Outbox.ClaimBatch("w", ["o"], {})))
    ensures Next(P1, OutboxStep(Outbox.ClaimBatch("w", ["o"], {}))) == P2
  {
    assert Outbox.Claims(P1.ob, ["o"]) == Hand1;
  }

  lemma Sends()
    ensures Enabled(P2, OutboxStep(Outbox.SendAccepted("w")))
    ensures Next(P2, OutboxStep(Outbox.SendAccepted("w"))) == P3
  {
    hide Outbox.JobKey;
    assert Hand1[0 := Hand1[0].(phase := Outbox.Handed)] == Hand2;
  }

  lemma Completes()
    ensures Enabled(P3, OutboxStep(Outbox.Complete("w"))) && Next(P3, OutboxStep(Outbox.Complete("w"))) == P4
  {
    hide Outbox.JobKey;
    assert Hand2[1..] == [];
  }

  lemma Starts()
    ensures Enabled(P4, StartRun("o")) && Next(P4, StartRun("o")) == P5
    ensures Enabled(P5, ReadEvent("o", false)) && Next(P5, ReadEvent("o", false)) == P6
  {
    hide Outbox.JobKey;
  }

  lemma Marks()
    ensures Enabled(P6, WriteProcessing("o")) && Next(P6, WriteProcessing("o")) == P7
  {
    hide Outbox.JobKey;
  }

  lemma Works()
    ensures Enabled(P7, WriteOutcome("o", Journal.PROCESSED))
    ensures Next(P7, WriteOutcome("o", Journal.PROCESSED)) == P8
  {
    hide Outbox.JobKey;
  }

  lemma Resets()
    ensures Enabled(P8, Overwrite("e", Journal.RECEIVED)) && Next(P8, Overwrite("e", Journal.RECEIVED)) == P9
    ensures NotLost(P9, "e")
  {
    hide Outbox.JobKey;
    assert IsEventRow(P9, "o") && Subject(P9, "o") == "e" && Held(P9, "o");
  }

  lemma Finishes()
    ensures Enabled(P9, Finish("o")) && Next(P9, Finish("o")) == P10
  {
    hide Outbox.JobKey, Outbox.ClaimSelects, Journal.FreshIds, Outbox.Enabled;
    FinishEffect(P9, "o");
    assert P9.runs - {"o"} == map[];
    assert P9.ob.queue[Key("o") := Outbox.Done] == map[Key("o") := Outbox.Done];
  }

  lemma IsLost()
    ensures "e" in P10.events && !NotLost(P10, "e")
  {
    hide Outbox.JobKey;
  }

  lemma RunCons(s: State, a: Step, rest: seq<Step>)
    requires Enabled(s, a)
    ensures Run(s, [a] + rest) == Run(Next(s, a), rest)
  {
    assert ([a] + rest)[0] == a && ([a] + rest)[1..] == rest;
  }

  /** Journaled, claimed, sent and recorded as sent. */
  lemma Dispatched(rest: seq<Step>) returns (run: seq<Step>)
    ensures Run(Empty, run) == Run(P4, rest)
    ensures WithoutOverwrite(rest) ==> WithoutOverwrite(run)
    ensures |run| == 4 + |rest|
  {
    Journals();
    Claims();
    Sends();
    Completes();
    hide Next, Enabled, Run;
    var r2 := [OutboxStep(Outbox.SendAccepted("w"))] + ([OutboxStep(Outbox.Complete("w"))] + rest);
    var r1 := [OutboxStep(Outbox.ClaimBatch("w", ["o"], {}))] + r2;
    run := [JournalBatch("acc", [Input], ["e"], ["o"])] + r1;
    RunCons(P3, OutboxStep(Outbox.Complete("w")), rest);
    RunCons(P2, OutboxStep(Outbox.SendAccepted("w")), [OutboxStep(Outbox.Complete("w"))] + rest);
    RunCons(P1, OutboxStep(Outbox.ClaimBatch("w", ["o"], {})), r2);
    RunCons(Empty, JournalBatch("acc", [Input], ["e"], ["o"]), r1);
  }

  /** A run from the empty tables in which a replay loses the event one step later. */
  lemma ReplayLosesEvent() returns (run: seq<Step>)
    ensures Run(Empty, run) == Some(P10) && Lost(P10, "e")
  {
    Starts();
    Marks();
    Works();
    Resets();
    Finishes();
    IsLost();
    hide Next, Enabled, Run;
    var r3 := [Overwrite("e", Journal.RECEIVED)] + ([Finish("o")] + []);
    var r2 := [WriteProcessing("o")] + ([WriteOutcome("o", Journal.PROCESSED)] + r3);
    var r1 := [StartRun("o")] + ([ReadEvent("o", false)] + r2);
    run := Dispatched(r1);
    RunNil(P10);
    RunCons(P9, Finish("o"), []);
    RunCons(P8, Overwrite("e", Journal.RECEIVED), [Finish("o")] + []);
    RunCons(P7, WriteOutcome("o", Journal.PROCESSED), r3);
    RunCons(P6, WriteProcessing("o"), [WriteOutcome("o", Journal.PROCESSED)] + r3);
    RunCons(P5, ReadEvent("o", false), r2);
    RunCons(P4, StartRun("o"), [ReadEvent("o", false)] + r2);
  }

  lemma RunNil(s: State)
    ensures Run(s, []) == Some(s)
  {
  }

  // Six attempts meet a retryable failure, each records RECEIVED and throws; then the failed job is
  // dropped.

  /** After `n` failed attempts. */
  ghost function Failing(n: nat): State {
    P4.(ob := P4.ob.(queue := map[Key("o") := if n < WEBHOOK_ATTEMPTS then Outbox.Waiting(n) else Outbox.Exhausted]),
        events := map["e" := Journal.Event("acc", Input, Journal.RECEIVED, n)])
  }

  /** The states within the attempt after `n` failed ones. */
  ghost function Within(n: nat, status: Journal.EventStatus, attempts: nat, phase: Phase): State {
    P4.(ob := P4.ob.(queue := map[Key("o") := Outbox.Active(n)]),
        events := map["e" := Journal.Event("acc", Input, status, attempts)], runs := map["o" := phase])
  }

  lemma AttemptStarts(n: nat)
    requires n < WEBHOOK_ATTEMPTS
    ensures Enabled(Failing(n), StartRun("o"))
    ensures Next(Failing(n), StartRun("o")) == Within(n, Journal.RECEIVED, n, Started)
    ensures Enabled(Within(n, Journal.RECEIVED, n, Started), ReadEvent("o", false))
    ensures Next(Within(n, Journal.RECEIVED, n, Started), ReadEvent("o", false))
            == Within(n, Journal.RECEIVED, n, Marking)
  {
    hide Outbox.JobKey, Outbox.ClaimSelects, Outbox.Enabled, Outbox.Next, Journal.FreshIds, Journal.Journaled;
  }

  lemma AttemptMarks(n: nat)
    ensures Enabled(Within(n, Journal.RECEIVED, n, Marking), WriteProcessing("o"))
    ensures Next(Within(n, Journal.RECEIVED, n, Marking), WriteProcessing("o"))
            == Within(n, Journal.PROCESSING, n + 1, Working)
  {
    hide Outbox.JobKey, Outbox.ClaimSelects, Outbox.Enabled, Outbox.Next, Journal.FreshIds, Journal.Journaled;
  }

  lemma AttemptGivesUp(n: nat)
    ensures Enabled(Within(n, Journal.PROCESSING, n + 1, Working), WriteOutcome("o", Journal.RECEIVED))
    ensures Next(Within(n, Journal.PROCESSING, n + 1, Working), WriteOutcome("o", Journal.RECEIVED))
            == Within(n, Journal.RECEIVED, n + 1, Throwing)
  {
    hide Outbox.JobKey, Outbox.ClaimSelects, Outbox.Enabled, Outbox.Next, Journal.FreshIds, Journal.Journaled;
  }

  lemma AttemptFails(n: nat)
    requires n < WEBHOOK_ATTEMPTS
    ensures Enabled(Within(n, Journal.RECEIVED, n + 1, Throwing), Finish("o"))
    ensures Next(Within(n, Journal.RECEIVED, n + 1, Throwing), Finish("o")) == Failing(n + 1)
  {
    hide Outbox.JobKey, Outbox.ClaimSelects, Outbox.Enabled, Outbox.Next, Journal.FreshIds, Journal.Journaled;
    var s := Within(n, Journal.RECEIVED, n + 1, Throwing);
    assert s.runs - {"o"} == map[];
    FinishEffect(s, "o");
    assert s.ob.queue[Key("o") := Outbox.Waiting(n + 1)] == map[Key("o") := Outbox.Waiting(n + 1)];
    assert s.ob.queue[Key("o") := Outbox.Exhausted] == map[Key("o") := Outbox.Exhausted];
  }

  ghost const Forgotten := Failing(WEBHOOK_ATTEMPTS).(ob := P4.ob.(queue := map[]))

  lemma Forgets()
    ensures Enabled(Failing(WEBHOOK_ATTEMPTS), Forget("o"))
    ensures Next(Failing(WEBHOOK_ATTEMPTS), Forget("o")) == Forgotten
    ensures "e" in Forgotten.events && !NotLost(Forgotten, "e")
  {
    hide Outbox.JobKey;
    assert Failing(WEBHOOK_ATTEMPTS).ob.queue - {Key("o")} == map[] && P4.runs - {"o"} == map[];
  }

  /** Five steps in a row. */
  lemma FiveSteps(s: State, a: Step, t: State, b: Step, u: State, c: Step, v: State, d: Step, w: State,
                  e: Step, x: State, rest: seq<Step>)
    returns (run: seq<Step>)
    requires Enabled(s, a) && Next(s, a) == t && Enabled(t, b) && Next(t, b) == u
    requires Enabled(u, c) && Next(u, c) == v && Enabled(v, d) && Next(v, d) == w
    requires Enabled(w, e) && Next(w, e) == x
    ensures Run(s, run) == Run(x, rest) && run == [a, b, c, d, e] + rest
  {
    hide Next, Enabled, Run;
    RunCons(w, e, rest);
    RunCons(v, d, [e] + rest);
    RunCons(u, c, [d] + ([e] + rest));
    RunCons(t, b, [c] + ([d] + ([e] + rest)));
    RunCons(s, a, [b] + ([c] + ([d] + ([e] + rest))));
    run := [a] + ([b] + ([c] + ([d] + ([e] + rest))));
  }

  ghost predicate WithoutOverwrite(run: seq<Step>) {
    forall i | 0 <= i < |run| :: !run[i].Overwrite?
  }

  lemma AttemptInFull(n: nat, later: seq<Step>) returns (run: seq<Step>)
    requires n < WEBHOOK_ATTEMPTS
    ensures Run(Failing(n), run) == Run(Failing(n + 1), later)
    ensures WithoutOverwrite(later) ==> WithoutOverwrite(run)
    ensures |run| == 5 + |later|
  {
    hide Next, Enabled, Run, Failing, Within;
    AttemptStarts(n);
    AttemptMarks(n);
    AttemptGivesUp(n);
    AttemptFails(n);
    run := FiveSteps(
      Failing(n), StartRun("o"),
      Within(n, Journal.RECEIVED, n, Started), ReadEvent("o", false),
      Within(n, Journal.RECEIVED, n, Marking), WriteProcessing("o"),
      Within(n, Journal.PROCESSING, n + 1, Working), WriteOutcome("o", Journal.RECEIVED),
      Within(n, Journal.RECEIVED, n + 1, Throwing), Finish("o"),
      Failing(n + 1), later);
  }

  lemma {:induction false} FailsUntilForgotten(n: nat) returns (run: seq<Step>)
    requires n <= WEBHOOK_ATTEMPTS
    ensures Run(Failing(n), run) == Some(Forgotten) && WithoutOverwrite(run)
    ensures |run| == 5 * (WEBHOOK_ATTEMPTS - n) + 1
    decreases WEBHOOK_ATTEMPTS - n
  {
    hide Failing, Within, Enabled, Next, Run, Outbox.JobKey;
    if n == WEBHOOK_ATTEMPTS {
      Forgets();
      RunNil(Forgotten);
      RunCons(Failing(n), Forget("o"), []);
      run := [Forget("o")] + [];
    } else {
      var later := FailsUntilForgotten(n + 1);
      run := AttemptInFull(n, later);
    }
  }

  /** A run from the empty tables, without any overwrite, in which the queue drops the event's failed job. */
  lemma ForgottenFailureLosesEvent() returns (run: seq<Step>)
    ensures Run(Empty, run) == Some(Forgotten) && Lost(Forgotten, "e") && WithoutOverwrite(run)
    // Four steps to dispatch it, six attempts of five steps, and the removal.
    ensures |run| == 4 + 6 * 5 + 1
  {
    var failing := FailsUntilForgotten(0);
    run := Dispatched(failing);
    Forgets();
    hide Next, Enabled, Run, NotLost;
  }
}
