/**
  The reconciliation check: which dispatched inbound events it reports to an operator, compared with
  the events that are in fact lost, in every run of the pipeline.
 */
module Reconciliation {
  import opened Common
  import Outbox
  import Journal
  import Pipeline

  type Id = Outbox.Id

  const STALE_AFTER_MS := 10 * 60_000
  const LOOKBACK_MS := 24 * 60 * 60_000

  predicate InWindow(dispatchedAt: Option<int>, now: int) {
    dispatchedAt.Some? && now - LOOKBACK_MS <= dispatchedAt.value <= now - STALE_AFTER_MS
  }

  /** The query: a completed row of the last day whose event is still to be processed. */
  predicate IsCandidate(s: Pipeline.State, o: Id, now: int) {
    && Pipeline.IsEventRow(s, o) && s.ob.rows[o].status == Outbox.COMPLETED
    && InWindow(s.ob.rows[o].dispatchedAt, now)
    && Pipeline.Subject(s, o) in s.events
    && (s.events[Pipeline.Subject(s, o)].status == Journal.RECEIVED
        || s.events[Pipeline.Subject(s, o)].status == Journal.PROCESSING)
  }

  /** A candidate the queue holds no job for, in any state. */
  predicate IsReported(s: Pipeline.State, o: Id, now: int) {
    IsCandidate(s, o, now) && Pipeline.Key(o) !in s.ob.queue
  }

  /**
    What the check is worth, in every run, losing ones included: it reports a row exactly when its
    event is lost, the queue has dropped the job, and the row was dispatched within the window.
   */
  lemma ReportedExactlyWhen(run: seq<Pipeline.Step>, o: Id, now: int)
    requires Pipeline.Run(Pipeline.Empty, run).Some?
    requires o in Pipeline.Run(Pipeline.Empty, run).value.ob.rows
    requires Pipeline.Run(Pipeline.Empty, run).value.ob.rows[o].eventType == "webhook.received"
    ensures var s := Pipeline.Run(Pipeline.Empty, run).value;
            IsReported(s, o, now) <==>
              && Pipeline.Lost(s, Pipeline.Subject(s, o)) && "outbox-" + o !in s.ob.queue
              && s.ob.rows[o].dispatchedAt.Some?
              && 600_000 <= now - s.ob.rows[o].dispatchedAt.value <= 86_400_000
  {
    Pipeline.EmptyIsSound();
    Pipeline.BaseInvHolds(Pipeline.Empty, run);
    var s := Pipeline.Run(Pipeline.Empty, run).value;
    Pipeline.OnlyRow(s, s, o);
    hide Pipeline.Run, Pipeline.BaseInv, Pipeline.NotLost;
  }

  /** It raises no false alarm: in orderly runs, in which nothing is lost, it reports nothing. */
  lemma OrderlyRunsAreNotReported(run: seq<Pipeline.Step>, o: Id, now: int)
    requires Pipeline.OrderlyRun(Pipeline.Empty, run) && Pipeline.Run(Pipeline.Empty, run).Some?
    ensures !IsReported(Pipeline.Run(Pipeline.Empty, run).value, o, now)
  {
    hide Pipeline.Run, Pipeline.OrderlyRun;
    var s := Pipeline.Run(Pipeline.Empty, run).value;
    if IsReported(s, o, now) {
      ReportedExactlyWhen(run, o, now);
      Pipeline.NoSilentLoss(run, Pipeline.Subject(s, o));
    }
  }

  /** A replay that loses its event is never reported while the queue keeps the completed job. */
  lemma ReplayLossIsNotReported() returns (run: seq<Pipeline.Step>)
    ensures Pipeline.Run(Pipeline.Empty, run).Some? && Pipeline.Lost(Pipeline.Run(Pipeline.Empty, run).value, "e")
    ensures forall o, now: int :: !IsReported(Pipeline.Run(Pipeline.Empty, run).value, o, now)
  {
    run := Pipeline.ReplayLosesEvent();
    hide Pipeline.Run, Pipeline.NotLost, Outbox.JobKey;
    assert forall o :: Pipeline.IsEventRow(Pipeline.P10, o) ==> o == "o";
  }
}
