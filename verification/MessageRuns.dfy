/**
  One outbound message written by several actors at once: receipts (a read, then a write guarded
  by the status that was read), send results and the stuck-message sweep (writes guarded by
  PENDING), and an agent's retry (a read of FAILED, then an unguarded write of PENDING).
 */
module MessageRuns {
  import opened Common
  import opened DeliveryStatus
  import Outbound

  type Actor = nat

  datatype Flight =
    | ReceiptFlight(seen: Status, next: Status)
    | RetryFlight

  datatype State = State(status: Status, flights: map<Actor, Flight>)

  datatype Step =
    | ReadReceipt(actor: Actor, next: Status)
    | WriteReceipt(actor: Actor)
    | MarkSent
    | MarkFailed
    | ReadRetry(actor: Actor)
    | WriteRetry(actor: Actor)
    | Drop(actor: Actor)

  predicate Enabled(s: State, a: Step) {
    match a
    case ReadReceipt(x, _) => x !in s.flights
    case WriteReceipt(x) => x in s.flights && s.flights[x].ReceiptFlight?
    case MarkSent => true
    case MarkFailed => true
    case ReadRetry(x) => x !in s.flights && s.status == FAILED
    case WriteRetry(x) => x in s.flights && s.flights[x].RetryFlight?
    case Drop(x) => x in s.flights
  }

  function Next(s: State, a: Step): State
    requires Enabled(s, a)
  {
    match a
    case ReadReceipt(x, next) =>
      if !IsMonotonic(s.status, next) || s.status == next then s
      else s.(flights := s.flights[x := ReceiptFlight(s.status, next)])
    case WriteReceipt(x) =>
      var f := s.flights[x];
      State(if s.status == f.seen then f.next else s.status, s.flights - {x})
    case MarkSent => s.(status := if s.status == PENDING then SENT else s.status)
    case MarkFailed => s.(status := if s.status == PENDING then FAILED else s.status)
    case ReadRetry(x) => s.(flights := s.flights[x := RetryFlight])
    case WriteRetry(x) => State(PENDING, s.flights - {x})
    case Drop(x) => s.(flights := s.flights - {x})
  }

  /** The state after a whole run, or None when some step of it could not be taken. */
  function Run(s: State, run: seq<Step>): Option<State>
    decreases run
  {
    if run == [] then Some(s)
    else if Enabled(s, run[0]) then Run(Next(s, run[0]), run[1..])
    else None
  }

  const Created := State(PENDING, map[])

  /** Receipts in flight were checked against the status they read. */
  ghost predicate Inv(s: State) {
    forall x | x in s.flights && s.flights[x].ReceiptFlight? ::
      && s.flights[x].seen != s.flights[x].next
      && IsMonotonic(s.flights[x].seen, s.flights[x].next)
  }

  lemma InvKept(s: State, a: Step)
    requires Inv(s) && Enabled(s, a)
    ensures Inv(Next(s, a))
  {
  }

  /** The send results and the sweep write here what the sender writes. */
  lemma WritersAgree(s: State, o: Outbound.State)
    requires o.status == s.status
    ensures Next(s, MarkSent).status == Outbound.Marked(o).status
    ensures Next(s, MarkFailed).status == Outbound.Failed(o).status
  {
  }

  // ---------------------------------------------------------------------------
  // How often a message can change
  // ---------------------------------------------------------------------------

  datatype Tally = Tally(changes: nat, retries: nat, staleRetries: nat)

  /** Status changes, FAILED to PENDING changes, and changes to PENDING from any other status. */
  ghost function Count(s: State, run: seq<Step>): Tally
    requires Run(s, run).Some?
    decreases run
  {
    if run == [] then Tally(0, 0, 0)
    else
      var next := Next(s, run[0]);
      var rest := Count(next, run[1..]);
      if next.status == s.status then rest
      else Tally(
          rest.changes + 1,
          rest.retries + (if s.status == FAILED && next.status == PENDING then 1 else 0),
          rest.staleRetries + (if s.status != FAILED && next.status == PENDING then 1 else 0))
  }

  /** In every interleaving, each return to PENDING buys at most four changes. */
  lemma {:induction false} ChangesAreBounded(s: State, run: seq<Step>)
    requires Inv(s) && Run(s, run).Some?
    ensures var t := Count(s, run);
            t.changes <= 3 - Stage(s.status) + 4 * (t.retries + t.staleRetries)
    decreases run
  {
    if run != [] {
      var next := Next(s, run[0]);
      InvKept(s, run[0]);
      ChangesAreBounded(next, run[1..]);
      assert next.status == s.status || next.status == PENDING || Stage(s.status) < Stage(next.status);
    }
  }

  /** Every retry write of the run lands on a message that is still FAILED (or PENDING already). */
  ghost predicate RetriesLandOnFailed(s: State, run: seq<Step>)
    requires Run(s, run).Some?
    decreases run
  {
    run == [] ||
    (&& (run[0].WriteRetry? ==> s.status == FAILED || s.status == PENDING)
     && RetriesLandOnFailed(Next(s, run[0]), run[1..]))
  }

  /** No stale restart happens exactly in the runs whose retry writes land on FAILED messages. */
  lemma {:induction false} NoStaleRetriesExactlyWhen(s: State, run: seq<Step>)
    requires Inv(s) && Run(s, run).Some?
    ensures Count(s, run).staleRetries == 0 <==> RetriesLandOnFailed(s, run)
    decreases run
  {
    if run != [] {
      InvKept(s, run[0]);
      NoStaleRetriesExactlyWhen(Next(s, run[0]), run[1..]);
    }
  }

  /** A message with k retries (none of them stale) changes status at most 3 + 4k times. */
  lemma AtMostThreePlusFourPerRetry(run: seq<Step>)
    requires Run(Created, run).Some? && RetriesLandOnFailed(Created, run)
    ensures Count(Created, run).changes <= 3 + 4 * Count(Created, run).retries
  {
    ChangesAreBounded(Created, run);
    NoStaleRetriesExactlyWhen(Created, run);
  }

  // ---------------------------------------------------------------------------
  // READ
  // ---------------------------------------------------------------------------

  ghost predicate StaysRead(s: State, run: seq<Step>)
    requires Run(s, run).Some?
    decreases run
  {
    s.status == READ && (run == [] || StaysRead(Next(s, run[0]), run[1..]))
  }

  /** A message that is READ stays READ exactly as long as no retry writes it. */
  lemma {:induction false} ReadIsLeftOnlyByRetryWrites(s: State, run: seq<Step>)
    requires Inv(s) && s.status == READ && Run(s, run).Some?
    ensures StaysRead(s, run) <==> forall a | a in run :: !a.WriteRetry?
    decreases run
  {
    if run != [] {
      assert run == [run[0]] + run[1..];
      InvKept(s, run[0]);
      if run[0].WriteRetry? {
        assert run[0] in run && !StaysRead(Next(s, run[0]), run[1..]);
      } else {
        ReadIsLeftOnlyByRetryWrites(Next(s, run[0]), run[1..]);
      }
    }
  }

  /** READ is absorbing in every run whose retry writes land on FAILED messages. */
  lemma {:induction false} ReadIsAbsorbing(s: State, run: seq<Step>)
    requires Inv(s) && s.status == READ && Run(s, run).Some?
    requires RetriesLandOnFailed(s, run)
    ensures StaysRead(s, run) && Run(s, run).value.status == READ
    decreases run
  {
    if run != [] {
      InvKept(s, run[0]);
      ReadIsAbsorbing(Next(s, run[0]), run[1..]);
    }
  }

  lemma {:induction false} RunSnoc(s: State, run: seq<Step>, a: Step)
    requires Run(s, run).Some? && Enabled(Run(s, run).value, a)
    ensures Run(s, run + [a]) == Some(Next(Run(s, run).value, a))
    decreases run
  {
    if run == [] {
      assert run + [a] == [a];
      assert Run(Next(s, a), [a][1..]) == Some(Next(s, a));
    } else {
      assert (run + [a])[1..] == run[1..] + [a];
      RunSnoc(Next(s, run[0]), run[1..], a);
    }
  }

  /** Two agents retry the same failed message; the slower write undoes a READ. */
  lemma StaleRetryUndoesRead() returns (toRead: seq<Step>, undo: Step)
    ensures Run(Created, toRead).Some? && Run(Created, toRead).value.status == READ
    ensures Enabled(Run(Created, toRead).value, undo)
    ensures Next(Run(Created, toRead).value, undo).status == PENDING
  {
    toRead := [];
    RunSnoc(Created, toRead, MarkFailed);
    toRead := toRead + [MarkFailed];
    RunSnoc(Created, toRead, ReadRetry(1));
    toRead := toRead + [ReadRetry(1)];
    RunSnoc(Created, toRead, ReadRetry(2));
    toRead := toRead + [ReadRetry(2)];
    RunSnoc(Created, toRead, WriteRetry(1));
    toRead := toRead + [WriteRetry(1)];
    RunSnoc(Created, toRead, MarkSent);
    toRead := toRead + [MarkSent];
    RunSnoc(Created, toRead, ReadReceipt(3, READ));
    toRead := toRead + [ReadReceipt(3, READ)];
    RunSnoc(Created, toRead, WriteReceipt(3));
    toRead := toRead + [WriteReceipt(3)];
    undo := WriteRetry(2);
  }

  // ---------------------------------------------------------------------------
  // Lost receipts
  // ---------------------------------------------------------------------------

  /** Without a restart the status only moves forward, so one that was left does not come back. */
  lemma {:induction false} StagesGrow(s: State, run: seq<Step>)
    requires Inv(s) && Run(s, run).Some?
    requires Count(s, run).retries == 0 && Count(s, run).staleRetries == 0
    ensures var t := Run(s, run).value;
            if Count(s, run).changes == 0 then t.status == s.status else Stage(t.status) > Stage(s.status)
    decreases run
  {
    if run != [] {
      InvKept(s, run[0]);
      StagesGrow(Next(s, run[0]), run[1..]);
    }
  }

  lemma {:induction false} FlightStays(s: State, run: seq<Step>, x: Actor)
    requires Run(s, run).Some? && x in s.flights && s.flights[x].ReceiptFlight?
    requires WriteReceipt(x) !in run && Drop(x) !in run
    ensures x in Run(s, run).value.flights && Run(s, run).value.flights[x] == s.flights[x]
    decreases run
  {
    if run != [] {
      assert run == [run[0]] + run[1..];
      FlightStays(Next(s, run[0]), run[1..], x);
    }
  }

  /**
    A receipt that was read, and is written after any run of the other writers without a restart,
    takes effect exactly when the status did not change in between; otherwise it is lost.
   */
  lemma ReceiptIsLostExactlyWhen(s: State, x: Actor, next: Status, run: seq<Step>)
    requires Inv(s) && Enabled(s, ReadReceipt(x, next)) && IsMonotonic(s.status, next) && s.status != next
    requires Run(Next(s, ReadReceipt(x, next)), run).Some?
    requires WriteReceipt(x) !in run && Drop(x) !in run
    requires var c := Count(Next(s, ReadReceipt(x, next)), run); c.retries == 0 && c.staleRetries == 0
    ensures var read := Next(s, ReadReceipt(x, next));
            var t := Run(read, run).value;
            && Enabled(t, WriteReceipt(x))
            && Next(t, WriteReceipt(x)).status == (if Count(read, run).changes == 0 then next else t.status)
            && (Next(t, WriteReceipt(x)).status != t.status <==> Count(read, run).changes == 0)
  {
    var read := Next(s, ReadReceipt(x, next));
    InvKept(s, ReadReceipt(x, next));
    StagesGrow(read, run);
    FlightStays(read, run, x);
  }

  // ---------------------------------------------------------------------------
  // Interleaved receipts and the maximum
  // ---------------------------------------------------------------------------

  /** The state before the k-th step. */
  function At(s: State, run: seq<Step>, k: nat): State
    requires Run(s, run).Some? && k <= |run|
    decreases run
  {
    if k == 0 then s else At(Next(s, run[0]), run[1..], k - 1)
  }

  lemma {:induction false} AtStep(s: State, run: seq<Step>, k: nat)
    requires Run(s, run).Some? && k < |run|
    ensures Enabled(At(s, run, k), run[k]) && At(s, run, k + 1) == Next(At(s, run, k), run[k])
    decreases run
  {
    if k > 0 {
      AtStep(Next(s, run[0]), run[1..], k - 1);
    }
  }

  lemma {:induction false} AtEnd(s: State, run: seq<Step>)
    requires Run(s, run).Some?
    ensures At(s, run, |run|) == Run(s, run).value
    decreases run
  {
    if run != [] {
      AtEnd(Next(s, run[0]), run[1..]);
    }
  }

  /** Reads and writes of SENT, DELIVERED and READ receipts, none above `top`. */
  ghost predicate ForwardReceipts(run: seq<Step>, top: Status) {
    forall a <- run ::
      match a
      case ReadReceipt(_, n) => n != PENDING && n != FAILED && Rank(n) <= Rank(top)
      case WriteReceipt(_) => true
      case Drop(_) => true
      case _ => false
  }

  ghost predicate BoundedBy(s: State, top: Status) {
    && s.status != FAILED && Rank(s.status) <= Rank(top)
    && (forall x <- s.flights :: s.flights[x].ReceiptFlight? && s.flights[x].next != FAILED
                                 && Rank(s.flights[x].seen) < Rank(s.flights[x].next) <= Rank(top))
  }

  lemma ForwardStep(s: State, a: Step, top: Status)
    requires BoundedBy(s, top) && Enabled(s, a) && ForwardReceipts([a], top)
    ensures BoundedBy(Next(s, a), top) && Rank(s.status) <= Rank(Next(s, a).status)
  {
    assert a in [a];
  }

  /** Statuses between two steps of such a run only grow. */
  lemma {:induction false} ForwardBetween(s: State, run: seq<Step>, top: Status, i: nat, j: nat)
    requires BoundedBy(s, top) && Run(s, run).Some? && ForwardReceipts(run, top) && i <= j <= |run|
    ensures BoundedBy(At(s, run, i), top) && BoundedBy(At(s, run, j), top)
    ensures Rank(At(s, run, i).status) <= Rank(At(s, run, j).status)
    decreases j
  {
    if j > 0 {
      AtStep(s, run, j - 1);
      assert run[j - 1] in run;
      if i < j {
        ForwardBetween(s, run, top, i, j - 1);
      } else {
        ForwardBetween(s, run, top, i - 1, j - 1);
      }
      ForwardStep(At(s, run, j - 1), run[j - 1], top);
    }
  }

  /** The receipt read at `i` is the one written at `j`, and nothing changed the status in between. */
  ghost predicate Undisturbed(s: State, run: seq<Step>, i: nat, j: nat, x: Actor, next: Status)
    requires Run(s, run).Some?
  {
    && i < j < |run| && run[i] == ReadReceipt(x, next) && run[j] == WriteReceipt(x)
    && At(s, run, i).status != next
    && (forall k | i < k < j :: run[k] != WriteReceipt(x) && run[k] != Drop(x))
    && (forall k | i <= k <= j :: At(s, run, k).status == At(s, run, i).status)
  }

  /** A flight was put up by a read of that receipt at the status it has seen. */
  lemma {:induction false} FlightOrigin(s: State, run: seq<Step>, k: nat, x: Actor) returns (i: nat)
    requires Run(s, run).Some? && s.flights == map[] && k <= |run|
    requires x in At(s, run, k).flights && At(s, run, k).flights[x].ReceiptFlight?
    ensures var f := At(s, run, k).flights[x];
            && i < k && run[i] == ReadReceipt(x, f.next) && At(s, run, i).status == f.seen
            && f.seen != f.next
            && (forall m | i < m < k :: run[m] != WriteReceipt(x) && run[m] != Drop(x))
    decreases k
  {
    AtStep(s, run, k - 1);
    var before := At(s, run, k - 1);
    if x in before.flights {
      assert At(s, run, k).flights[x] == before.flights[x];
      i := FlightOrigin(s, run, k - 1, x);
    } else {
      i := k - 1;
    }
  }

  /** A read that was accepted stays in flight until it is written or dropped. */
  lemma {:induction false} FlightAt(s: State, run: seq<Step>, i: nat, j: nat, x: Actor, next: Status)
    requires Run(s, run).Some? && i < j <= |run| && run[i] == ReadReceipt(x, next)
    requires IsMonotonic(At(s, run, i).status, next) && At(s, run, i).status != next
    requires forall k | i < k < j :: run[k] != WriteReceipt(x) && run[k] != Drop(x)
    ensures x in At(s, run, j).flights
    ensures At(s, run, j).flights[x] == ReceiptFlight(At(s, run, i).status, next)
    decreases j
  {
    AtStep(s, run, j - 1);
    if j - 1 > i {
      FlightAt(s, run, i, j - 1, x, next);
    }
  }

  /** The step at which the top status is reached. */
  lemma {:induction false} FirstReached(s: State, run: seq<Step>, top: Status, n: nat) returns (j: nat)
    requires Run(s, run).Some? && s.status != top && n <= |run| && At(s, run, n).status == top
    ensures j < n && At(s, run, j).status != top && At(s, run, j + 1).status == top
    decreases n
  {
    if At(s, run, n - 1).status != top {
      j := n - 1;
    } else {
      j := FirstReached(s, run, top, n - 1);
    }
  }

  /**
    Interleaved SENT, DELIVERED and READ receipts end in the greatest of them exactly when one that
    carries it is written with no change of status since it was read.
   */
  lemma ReceiptsEndInMaximumExactlyWhen(s: State, run: seq<Step>, top: Status)
    requires s.status != FAILED && s.flights == map[] && Run(s, run).Some?
    requires Rank(s.status) < Rank(top) && ForwardReceipts(run, top)
    ensures Run(s, run).value.status == top <==> exists i: nat, j: nat, x :: Undisturbed(s, run, i, j, x, top)
  {
    AtEnd(s, run);
    if Run(s, run).value.status == top {
      var j := FirstReached(s, run, top, |run|);
      WrittenAt(s, run, top, j);
    }
    if i: nat, j: nat, x :| Undisturbed(s, run, i, j, x, top) {
      ForwardBetween(s, run, top, 0, i);
      FlightAt(s, run, i, j, x, top);
      AtStep(s, run, j);
      assert At(s, run, j).status == At(s, run, i).status;
      ForwardBetween(s, run, top, j + 1, |run|);
    }
  }

  lemma WrittenAt(s: State, run: seq<Step>, top: Status, j: nat)
    requires s.status != FAILED && s.flights == map[] && Run(s, run).Some?
    requires Rank(s.status) < Rank(top) && ForwardReceipts(run, top)
    requires j < |run| && At(s, run, j).status != top && At(s, run, j + 1).status == top
    ensures exists i: nat, x :: Undisturbed(s, run, i, j, x, top)
  {
    AtStep(s, run, j);
    assert run[j] in run;
    var x := run[j].actor;
    var i := FlightOrigin(s, run, j, x);
    forall k | i <= k <= j
      ensures At(s, run, k).status == At(s, run, i).status
    {
      ForwardBetween(s, run, top, i, k);
      ForwardBetween(s, run, top, k, j);
    }
    assert Undisturbed(s, run, i, j, x, top);
  }

  /** Two receipts read at once: the one written second is lost, here READ to DELIVERED. */
  lemma ReadIsLostToDelivered() returns (run: seq<Step>)
    ensures Run(Created, run).Some? && ForwardReceipts(run, READ) && ReadReceipt(2, READ) in run
    ensures Run(Created, run).value == State(DELIVERED, map[])
  {
    run := [];
    RunSnoc(Created, run, ReadReceipt(1, DELIVERED));
    run := run + [ReadReceipt(1, DELIVERED)];
    RunSnoc(Created, run, ReadReceipt(2, READ));
    run := run + [ReadReceipt(2, READ)];
    RunSnoc(Created, run, WriteReceipt(1));
    run := run + [WriteReceipt(1)];
    RunSnoc(Created, run, WriteReceipt(2));
    run := run + [WriteReceipt(2)];
  }
}
