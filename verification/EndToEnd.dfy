/**
  The pipeline and the Conversation Core together: journal, outbox, queue and processing runs on one
  side, ingest transactions of any number of runs on the other.
 */
module EndToEnd {
  import opened Common
  import Outbox
  import Journal
  import Pipeline
  import Ingest

  type Id = Outbox.Id
  type Messages = set<Ingest.ProviderMessageId>

  /** The deterministic adapter: the messages an event's payload carries. */
  type Adapter = Journal.EventInput -> Messages

  /** `confirmed` are the messages a processing run has ingested or found stored so far. */
  datatype State = State(p: Pipeline.State, c: Ingest.State, confirmed: map<Id, Messages>)

  datatype Step =
    | PipelineStep(a: Pipeline.Step)
    | IngestStep(b: Ingest.Step)
    | Confirm(o: Id, message: Ingest.ProviderMessageId)

  function Confirmed(s: State, o: Id): Messages {
    if o in s.confirmed then s.confirmed[o] else {}
  }

  /** The event a pipeline step marks PROCESSED, if it does. */
  function Processes(s: Pipeline.State, a: Pipeline.Step): Option<Id> {
    match a
    case WriteOutcome(o, status) =>
      if status == Journal.PROCESSED && o in s.ob.rows then Some(Pipeline.Subject(s, o)) else None
    case WriteOutcomeLost(o, status) =>
      if status == Journal.PROCESSED && o in s.ob.rows then Some(Pipeline.Subject(s, o)) else None
    case Overwrite(e, status) => if status == Journal.PROCESSED then Some(e) else None
    case _ => None
  }

  /**
    A run writes PROCESSED only after every message of its event was confirmed; a superseded run,
    whose confirmations are no longer recorded here, only after they were stored.
   */
  ghost predicate MayProcess(s: State, a: Pipeline.Step, adapter: Adapter) {
    var e := Processes(s.p, a);
    e.Some? && e.value in s.p.events ==>
      adapter(s.p.events[e.value].input) <= if a.Overwrite? then s.c.messages.Keys else Confirmed(s, a.o)
  }

  ghost predicate Enabled(s: State, a: Step, adapter: Adapter) {
    match a
    case PipelineStep(b) => Pipeline.Enabled(s.p, b) && MayProcess(s, b, adapter)
    case IngestStep(b) => Ingest.Enabled(s.c, b)
    case Confirm(o, m) => Pipeline.InPhase(s.p, o, Pipeline.Working) && m in s.c.messages
  }

  ghost function Next(s: State, a: Step, adapter: Adapter): State
    requires Enabled(s, a, adapter)
  {
    match a
    case PipelineStep(b) =>
      s.(p := Pipeline.Next(s.p, b), confirmed := if b.StartRun? then s.confirmed[b.o := {}] else s.confirmed)
    case IngestStep(b) => s.(c := Ingest.Next(s.c, b))
    case Confirm(o, m) => s.(confirmed := s.confirmed[o := Confirmed(s, o) + {m}])
  }

  ghost function Run(s: State, run: seq<Step>, adapter: Adapter): Option<State>
    decreases run
  {
    if run == [] then Some(s)
    else if Enabled(s, run[0], adapter) then Run(Next(s, run[0], adapter), run[1..], adapter)
    else None
  }

  const Empty := State(Pipeline.Empty, Ingest.Empty, map[])

  lemma {:induction false} RunSnoc(s: State, run: seq<Step>, a: Step, adapter: Adapter)
    requires Run(s, run, adapter).Some? && Enabled(Run(s, run, adapter).value, a, adapter)
    ensures Run(s, run + [a], adapter) == Some(Next(Run(s, run, adapter).value, a, adapter))
    decreases run
  {
    hide Enabled, Next;
    if run == [] {
      assert run + [a] == [a];
      assert Run(Next(s, a, adapter), [a][1..], adapter) == Some(Next(s, a, adapter));
    } else {
      assert (run + [a])[0] == run[0] && (run + [a])[1..] == run[1..] + [a];
      RunSnoc(Next(s, run[0], adapter), run[1..], a, adapter);
    }
  }

  /** The ingest transactions' part of a run. */
  function IngestSteps(run: seq<Step>): seq<Ingest.Step> {
    if run == [] then []
    else
      var last := run[|run| - 1];
      IngestSteps(run[..|run| - 1]) + if last.IngestStep? then [last.b] else []
  }

  /** The statuses a pipeline step writes. */
  function Written(a: Pipeline.Step): seq<Journal.EventStatus> {
    match a
    case WriteIgnored(_) => [Journal.IGNORED]
    case WriteProcessing(_) => [Journal.PROCESSING]
    case WriteOutcome(_, status) => [status]
    case WriteOutcomeLost(_, status) => [status]
    case Overwrite(_, status) => [status]
    case _ => []
  }

  /** The statuses written in a run, in order. */
  function Statuses(run: seq<Step>): seq<Journal.EventStatus> {
    if run == [] then []
    else
      var last := run[|run| - 1];
      Statuses(run[..|run| - 1]) + if last.PipelineStep? then Written(last.a) else []
  }

  lemma PartsSnoc(run: seq<Step>, a: Step)
    ensures IngestSteps(run + [a]) == IngestSteps(run) + if a.IngestStep? then [a.b] else []
    ensures Statuses(run + [a]) == Statuses(run) + if a.PipelineStep? then Written(a.a) else []
  {
    assert (run + [a])[..|run|] == run;
  }

  lemma EventStays(s: Pipeline.State, a: Pipeline.Step, e: Id)
    requires Pipeline.Enabled(s, a) && e in s.events
    ensures e in Pipeline.Next(s, a).events && Pipeline.Next(s, a).events[e].input == s.events[e].input
  {
    if a.JournalBatch? {
      Pipeline.JournalAddsEvents(s, a);
    }
  }

  /** A journaled event's payload never changes. */
  lemma {:induction false} InputsStay(s: State, run: seq<Step>, more: seq<Step>, adapter: Adapter, e: Id)
    requires run <= more && Run(s, run, adapter).Some? && Run(s, more, adapter).Some?
    requires e in Run(s, run, adapter).value.p.events
    ensures var t, u := Run(s, run, adapter).value, Run(s, more, adapter).value;
            e in u.p.events && u.p.events[e].input == t.p.events[e].input
    decreases more
  {
    if more != [] {
      if run == [] {
        if more[0].PipelineStep? {
          EventStays(s.p, more[0].a, e);
        }
        hide Pipeline.Next, Pipeline.Enabled, Ingest.Next, Ingest.Enabled;
        InputsStay(Next(s, more[0], adapter), [], more[1..], adapter, e);
      } else {
        InputsStay(Next(s, run[0], adapter), run[1..], more[1..], adapter, e);
      }
    }
  }

  // ---------------------------------------------------------------------------
  // Processed means stored
  // ---------------------------------------------------------------------------

  ghost predicate EventOk(s: State, e: Id, adapter: Adapter) {
    e in s.p.events && s.p.events[e].status == Journal.PROCESSED ==>
      adapter(s.p.events[e].input) <= s.c.messages.Keys
  }

  ghost predicate Inv(s: State, adapter: Adapter) {
    && Ingest.Inv(s.c)
    && (forall e <- s.p.events :: EventOk(s, e, adapter))
    && (forall o :: Confirmed(s, o) <= s.c.messages.Keys)
  }

  lemma NewEventsAreReceived(s: Pipeline.State, a: Pipeline.Step, e: Id)
    requires Pipeline.Enabled(s, a) && a.JournalBatch? && e in Pipeline.Next(s, a).events
    ensures if e in s.events then Pipeline.Next(s, a).events[e] == s.events[e]
            else Pipeline.Next(s, a).events[e].status == Journal.RECEIVED
  {
    var t := Pipeline.Tables(s);
    var created := Journal.NewInputs(t, a.account, a.inputs);
    Journal.InsertAdds(t, a.account, created, a.ids);
    hide Journal.Insert, Journal.NewInputs;
    if e !in s.events {
      var i :| 0 <= i < |created| && a.ids[..|created|][i] == e;
      assert a.ids[i] == e;
    }
  }

  /** An event is PROCESSED after a step because it was before, or because the step wrote it. */
  lemma ProcessedBy(s: Pipeline.State, a: Pipeline.Step, e: Id)
    requires Pipeline.Enabled(s, a) && e in Pipeline.Next(s, a).events
    requires Pipeline.Next(s, a).events[e].status == Journal.PROCESSED
    ensures e in s.events && Pipeline.Next(s, a).events[e].input == s.events[e].input
    ensures s.events[e].status == Journal.PROCESSED || Processes(s, a) == Some(e)
  {
    if a.JournalBatch? {
      NewEventsAreReceived(s, a, e);
    }
  }

  lemma PipelineStepKeeps(s: State, a: Pipeline.Step, adapter: Adapter)
    requires Inv(s, adapter) && Enabled(s, PipelineStep(a), adapter)
    ensures Inv(Next(s, PipelineStep(a), adapter), adapter)
  {
    var t := Next(s, PipelineStep(a), adapter);
    forall e | e in t.p.events
      ensures EventOk(t, e, adapter)
    {
      if t.p.events[e].status == Journal.PROCESSED {
        ProcessedBy(s.p, a, e);
        assert EventOk(s, e, adapter);
        if !a.Overwrite? && Processes(s.p, a) == Some(e) {
          assert Confirmed(s, a.o) <= s.c.messages.Keys;
        }
      }
    }
    forall o
      ensures Confirmed(t, o) <= t.c.messages.Keys
    {
      assert Confirmed(s, o) <= s.c.messages.Keys;
    }
  }

  lemma InvKept(s: State, a: Step, adapter: Adapter)
    requires Inv(s, adapter) && Enabled(s, a, adapter)
    ensures Inv(Next(s, a, adapter), adapter)
  {
    match a
    case PipelineStep(b) => PipelineStepKeeps(s, b, adapter);
    case IngestStep(b) =>
      Ingest.InvKept(s.c, b);
      MessagesGrow(s.c, b);
      hide Ingest.Next, Ingest.Inv;
      forall e | e in s.p.events
        ensures EventOk(Next(s, a, adapter), e, adapter)
      {
        assert EventOk(s, e, adapter);
      }
      forall o
        ensures Confirmed(Next(s, a, adapter), o) <= Next(s, a, adapter).c.messages.Keys
      {
        assert Confirmed(s, o) <= s.c.messages.Keys;
      }
    case Confirm(o, m) =>
      forall e | e in s.p.events
        ensures EventOk(Next(s, a, adapter), e, adapter)
      {
        assert EventOk(s, e, adapter);
      }
      forall q
        ensures Confirmed(Next(s, a, adapter), q) <= s.c.messages.Keys
      {
        assert Confirmed(s, q) <= s.c.messages.Keys;
      }
  }

  lemma MessagesGrow(s: Ingest.State, b: Ingest.Step)
    requires Ingest.Enabled(s, b)
    ensures s.messages.Keys <= Ingest.Next(s, b).messages.Keys
  {
  }

  lemma {:induction false} InvHolds(s: State, run: seq<Step>, adapter: Adapter)
    requires Inv(s, adapter) && Run(s, run, adapter).Some?
    ensures Inv(Run(s, run, adapter).value, adapter)
    decreases run
  {
    if run != [] {
      InvKept(s, run[0], adapter);
      InvHolds(Next(s, run[0], adapter), run[1..], adapter);
    }
  }

  ghost predicate Delivered(s: State, e: Id, adapter: Adapter)
    requires e in s.p.events
  {
    forall m <- adapter(s.p.events[e].input) ::
      m in s.c.messages && Ingest.TimesStored(s.c.log, m) == 1
  }

  /**
    In every run, retries, crashes, superseded runs and replays included: a PROCESSED event has each
    of its messages stored, and counted, exactly once.
   */
  lemma ProcessedEventsAreDelivered(run: seq<Step>, adapter: Adapter, e: Id)
    requires Run(Empty, run, adapter).Some?
    requires var s := Run(Empty, run, adapter).value; e in s.p.events && s.p.events[e].status == Journal.PROCESSED
    ensures Delivered(Run(Empty, run, adapter).value, e, adapter)
  {
    InvHolds(Empty, run, adapter);
    assert EventOk(Run(Empty, run, adapter).value, e, adapter);
  }

  // ---------------------------------------------------------------------------
  // Held or delivered
  // ---------------------------------------------------------------------------

  /**
    No replay or superseded run reopens an event whose job is spent, and the queue drops no job of an
    event that is still to be processed.
   */
  ghost predicate OrderlyRun(s: State, run: seq<Step>, adapter: Adapter)
    decreases run
  {
    run == [] ||
    (&& Enabled(s, run[0], adapter)
     && (run[0].PipelineStep? ==> Pipeline.Orderly(s.p, run[0].a))
     && OrderlyRun(Next(s, run[0], adapter), run[1..], adapter))
  }

  lemma {:induction false} PipelineInvHolds(s: State, run: seq<Step>, adapter: Adapter)
    requires Pipeline.Inv(s.p) && OrderlyRun(s, run, adapter)
    ensures Run(s, run, adapter).Some? && Pipeline.Inv(Run(s, run, adapter).value.p)
    decreases run
  {
    if run != [] {
      if run[0].PipelineStep? {
        Pipeline.InvKept(s.p, run[0].a);
      }
      hide Pipeline.Inv, Pipeline.Next, Ingest.Next;
      PipelineInvHolds(Next(s, run[0], adapter), run[1..], adapter);
    }
  }

  /** A row that is still to be dispatched or dead-lettered, or a job that has not succeeded. */
  ghost predicate IsHeld(s: State, e: Id) {
    exists o :: Pipeline.IsEventRow(s.p, o) && Pipeline.Subject(s.p, o) == e && Pipeline.Held(s.p, o)
  }

  /**
    What the pipeline promises for a journaled event at any time: it is still held somewhere, or all
    its messages are stored exactly once, or it was ignored or failed for good.
   */
  lemma EveryEventIsHeldOrDelivered(run: seq<Step>, adapter: Adapter, e: Id)
    requires OrderlyRun(Empty, run, adapter) && Run(Empty, run, adapter).Some?
    requires e in Run(Empty, run, adapter).value.p.events
    ensures var s := Run(Empty, run, adapter).value;
            var status := s.p.events[e].status;
            || IsHeld(s, e)
            || (status == Journal.PROCESSED && Delivered(s, e, adapter))
            || status == Journal.IGNORED || status == Journal.FAILED
  {
    Pipeline.EmptyIsSound();
    PipelineInvHolds(Empty, run, adapter);
    var s := Run(Empty, run, adapter).value;
    Pipeline.InvMeansNotLost(s.p, e);
    if s.p.events[e].status == Journal.PROCESSED {
      ProcessedEventsAreDelivered(run, adapter, e);
    }
  }
}
