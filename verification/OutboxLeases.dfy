/**
  The outbox lease protocol in timely runs: a worker writes an outcome only while its lease is
  unexpired.
 */
module OutboxLeases {
  import opened Common
  import opened Outbox

  ghost predicate Timely(s: State, a: Step) {
    match a
    case Complete(w) => Hand(s, w) != [] && s.now <= Hand(s, w)[0].leaseUntil
    case CompleteLost(w) => Hand(s, w) != [] && s.now <= Hand(s, w)[0].leaseUntil
    case Fail(w, _) => Hand(s, w) != [] && s.now <= Hand(s, w)[0].leaseUntil
    case _ => true
  }

  ghost predicate TimelyRun(s: State, run: seq<Step>)
    decreases run
  {
    run == [] ||
    (Enabled(s, run[0]) && Timely(s, run[0]) && TimelyRun(Next(s, run[0]), run[1..]))
  }

  // ---------------------------------------------------------------------------
  // Invariant
  // ---------------------------------------------------------------------------

  /** The row is still the one the claim was made on. */
  ghost predicate Owned(r: Row, c: Claim, w: Worker) {
    && r.status == PROCESSING
    && r.claimedBy == Some(w)
    && r.leaseUntil == Some(c.leaseUntil)
    && r.retryCount == c.retryCount
  }

  /** The claim's completion was committed, although its worker was told otherwise. */
  ghost predicate CompletedBy(r: Row, c: Claim, w: Worker) {
    r.status == COMPLETED && r.claimedBy == Some(w) && r.retryCount == c.retryCount
  }

  ghost predicate ClaimOk(s: State, w: Worker, c: Claim) {
    && c.id in s.rows
    && (s.now <= c.leaseUntil ==>
          if c.phase == Unsure then CompletedBy(s.rows[c.id], c, w)
          else Owned(s.rows[c.id], c, w))
  }

  ghost predicate HandOk(s: State, w: Worker) {
    && (forall c <- Hand(s, w) :: ClaimOk(s, w, c))
    && (forall i, j | 0 <= i < j < |Hand(s, w)| :: Hand(s, w)[i].id != Hand(s, w)[j].id)
    && (forall i | 0 < i < |Hand(s, w)| :: Hand(s, w)[i].phase == Fresh)
  }

  /** Every claim of a row ended in exactly one way, or still holds the row. */
  ghost predicate Conserved(r: Row) {
    var l := r.ledger;
    && l.claimed == l.released + l.failed + l.recovered + l.deadLettered
                    + (if r.status == PROCESSING || r.status == COMPLETED then 1 else 0)
    && r.retryCount == l.failed + l.recovered
    && (r.status == PROCESSING <==> r.leaseUntil.Some?)
    && (r.status != DEAD_LETTER ==> l.deadLettered == 0 && r.retryCount <= 5)
    && (r.status == DEAD_LETTER ==> 5 <= r.retryCount && r.retryCount + l.deadLettered <= 6)
  }

  ghost predicate LeaseInv(s: State) {
    && (forall id <- s.rows :: Conserved(s.rows[id]))
    && (forall w :: HandOk(s, w))
  }

  // ---------------------------------------------------------------------------
  // Preservation
  // ---------------------------------------------------------------------------

  /** The claim an outcome is written for still owns its row. */
  lemma WriterOwns(s: State, a: Step)
    requires LeaseInv(s) && Enabled(s, a) && Timely(s, a)
    requires a.Complete? || a.CompleteLost? || a.Fail?
    ensures var c := Hand(s, a.worker)[0];
            && c.id in s.rows
            && (if c.phase == Unsure then a.Fail? && CompletedBy(s.rows[c.id], c, a.worker)
                else Owned(s.rows[c.id], c, a.worker))
  {
    assert HandOk(s, a.worker);
    assert Hand(s, a.worker)[0] in Hand(s, a.worker);
    assert ClaimOk(s, a.worker, Hand(s, a.worker)[0]);
  }

  lemma LeaseInvOf(s: State, id: Id)
    requires LeaseInv(s) && id in s.rows
    ensures Conserved(s.rows[id])
  {
  }

  lemma ConservedStep(s: State, a: Step, id: Id)
    requires LeaseInv(s) && Enabled(s, a) && Timely(s, a) && id in s.rows
    ensures Conserved(RowAfter(s, a, id))
  {
    hide Next, HandAfter, LeaseInv, HandOk;
    assert Conserved(s.rows[id]) by {
      LeaseInvOf(s, id);
    }
    if a.Complete? || a.CompleteLost? || a.Fail? {
      WriterOwns(s, a);
    } else if a.ClaimBatch? && id in a.batch {
      assert Due(s.rows[id], s.now);
    }
  }

  /** An unexpired claim keeps its row through every step but its own release or outcome. */
  lemma OwnedStep(s: State, a: Step, w: Worker, c: Claim)
    requires LeaseInv(s) && Enabled(s, a) && Timely(s, a)
    requires s.now <= c.leaseUntil && ClaimOk(s, w, c)
    requires a.Release? || a.Complete? || a.CompleteLost? || a.Fail? ==>
               a.worker != w || (Hand(s, w)[0].id != c.id && !a.Release?)
    ensures var r := RowAfter(s, a, c.id);
            if c.phase == Unsure then CompletedBy(r, c, w) else Owned(r, c, w)
  {
    assert Conserved(s.rows[c.id]);
    if a.Complete? || a.CompleteLost? || a.Fail? {
      WriterOwns(s, a);
    }
    assert !Due(s.rows[c.id], s.now);
  }

  lemma NewClaimStep(s: State, a: Step, i: nat)
    requires LeaseInv(s) && Enabled(s, a) && a.ClaimBatch? && i < |a.batch|
    ensures ClaimOk(Next(s, a), a.worker, Claims(s, a.batch)[i])
  {
    assert a.batch[i] in a.batch;
    StepActsRowwise(s, a, a.batch[i]);
  }

  lemma KeptClaimStep(s: State, a: Step, w: Worker, c: Claim, p: Phase)
    requires LeaseInv(s) && Enabled(s, a) && Timely(s, a) && ClaimOk(s, w, c)
    requires a.Release? || a.Complete? || a.CompleteLost? || a.Fail? ==>
               a.worker != w || (Hand(s, w)[0].id != c.id && !a.Release?)
    requires p == Unsure <==> c.phase == Unsure
    ensures ClaimOk(Next(s, a), w, c.(phase := p))
  {
    StepActsRowwise(s, a, c.id);
    assert s.now <= Next(s, a).now;
    hide Next, RowAfter;
    if Next(s, a).now <= c.leaseUntil {
      OwnedStep(s, a, w, c);
    }
  }

  lemma LostCompletionStep(s: State, a: Step)
    requires LeaseInv(s) && Enabled(s, a) && Timely(s, a) && a.CompleteLost?
    ensures ClaimOk(Next(s, a), a.worker, Hand(s, a.worker)[0].(phase := Unsure))
  {
    WriterOwns(s, a);
    StepActsRowwise(s, a, Hand(s, a.worker)[0].id);
  }

  lemma HeldClaimStep(s: State, a: Step, w: Worker, i: nat)
    requires LeaseInv(s) && Enabled(s, a) && Timely(s, a) && i < |HandAfter(s, a, w)|
    ensures ClaimOk(Next(s, a), w, HandAfter(s, a, w)[i])
  {
    hide Next;
    if a.ClaimBatch? && a.worker == w {
      NewClaimStep(s, a, i);
    } else if a.CompleteLost? && a.worker == w && i == 0 {
      LostCompletionStep(s, a);
    } else {
      HandItem(s, a, w, i);
      hide HandAfter, Enabled;
      var h, c := Hand(s, w), HandAfter(s, a, w)[i];
      var k := i + Dropped(a, w);
      assert HandOk(s, w) && h[k] in h;
      assert i > 0 && Hand(s, w) != [] ==> h[0].id != h[k].id;
      KeptClaimStep(s, a, w, h[k], c.phase);
    }
  }

  lemma HandOkStep(s: State, a: Step, w: Worker)
    requires LeaseInv(s) && Enabled(s, a) && Timely(s, a)
    ensures HandOk(Next(s, a), w)
  {
    hide Next;
    assert HandOk(s, w);
    var h := HandAfter(s, a, w);
    StepActsHandwise(s, a, w);
    forall c | c in h
      ensures ClaimOk(Next(s, a), w, c)
    {
      var i :| 0 <= i < |h| && h[i] == c;
      HeldClaimStep(s, a, w, i);
    }
    HandShape(s, a, w);
  }

  lemma HandShape(s: State, a: Step, w: Worker)
    requires Enabled(s, a) && HandOk(s, w)
    ensures var h := HandAfter(s, a, w);
            && (forall i, j | 0 <= i < j < |h| :: h[i].id != h[j].id)
            && (forall i | 0 < i < |h| :: h[i].phase == Fresh)
  {
    hide Next;
    var h, h' := Hand(s, w), HandAfter(s, a, w);
    if a.ClaimBatch? && a.worker == w {
      assert forall i | 0 <= i < |h'| :: h'[i].id == a.batch[i] && h'[i].phase == Fresh;
    } else {
      hide HandAfter;
      forall i | 0 <= i < |h'|
        ensures var k := i + Dropped(a, w);
                k < |h| && h'[i].id == h[k].id && (i > 0 ==> h'[i].phase == h[k].phase)
      {
        HandItem(s, a, w, i);
      }
    }
  }

  lemma FreshRowConserved(eventType: string, subject: string, at: int)
    ensures Conserved(NewRow(eventType, subject, at))
  {
  }

  lemma NewRowConserved(s: State, a: Step, id: Id)
    requires Enabled(s, a) && id !in s.rows && id in Next(s, a).rows
    ensures Conserved(Next(s, a).rows[id])
  {
    var r := Next(s, a).rows[id];
    assert a.Create? && r == NewRow(a.eventType, a.subject, a.scheduledAt) by {
      RowsAppear(s, a, id);
    }
    FreshRowConserved(a.eventType, a.subject, a.scheduledAt);
  }

  lemma OldRowConserved(s: State, a: Step, id: Id)
    requires LeaseInv(s) && Enabled(s, a) && Timely(s, a) && id in s.rows
    ensures id in Next(s, a).rows && Conserved(Next(s, a).rows[id])
  {
    var r := RowAfter(s, a, id);
    assert Conserved(r) by {
      ConservedStep(s, a, id);
    }
    assert id in Next(s, a).rows && Next(s, a).rows[id] == r by {
      StepActsRowwise(s, a, id);
    }
  }

  lemma LeaseInvKept(s: State, a: Step)
    requires LeaseInv(s) && Enabled(s, a) && Timely(s, a)
    ensures LeaseInv(Next(s, a))
  {
    var t := Next(s, a);
    forall id | id in t.rows
      ensures Conserved(t.rows[id])
    {
      if id in s.rows {
        OldRowConserved(s, a, id);
      } else {
        NewRowConserved(s, a, id);
      }
    }
    forall w
      ensures HandOk(t, w)
    {
      HandOkStep(s, a, w);
    }
  }

  lemma {:induction false} LeaseInvHolds(s: State, run: seq<Step>)
    requires LeaseInv(s) && TimelyRun(s, run)
    ensures Run(s, run).Some? && LeaseInv(Run(s, run).value)
    decreases run
  {
    if run != [] {
      LeaseInvKept(s, run[0]);
      LeaseInvHolds(Next(s, run[0]), run[1..]);
    }
  }

  // ---------------------------------------------------------------------------
  // What timely runs guarantee
  // ---------------------------------------------------------------------------

  /** Two unexpired claims on the same row are one claim of one worker. */
  lemma AtMostOneOwner(run: seq<Step>, v: Worker, w: Worker, c: Claim, d: Claim)
    requires TimelyRun(Empty, run) && Run(Empty, run).Some?
    requires var s := Run(Empty, run).value;
             && c in Hand(s, v) && d in Hand(s, w) && c.id == d.id
             && s.now <= c.leaseUntil && s.now <= d.leaseUntil
    ensures v == w && c == d
  {
    LeaseInvHolds(Empty, run);
    var s := Run(Empty, run).value;
    assert HandOk(s, v) && HandOk(s, w);
    assert ClaimOk(s, v, c) && ClaimOk(s, w, d);
  }

  /** Claims of a row that ended otherwise than by a release. */
  ghost function Spent(r: Row): int {
    r.ledger.claimed - r.ledger.released - if r.status == PROCESSING then 1 else 0
  }

  /** Retry counts stay within the limits, and at most six claims of an event are spent. */
  lemma RetriesAreBounded(run: seq<Step>, id: Id)
    requires TimelyRun(Empty, run) && Run(Empty, run).Some? && id in Run(Empty, run).value.rows
    ensures var r := Run(Empty, run).value.rows[id];
            && (r.status == PENDING || r.status == PROCESSING ==> r.retryCount <= 5)
            && (r.status == DEAD_LETTER ==> r.retryCount == 5 || r.retryCount == 6)
            && Spent(r) <= 6
  {
    LeaseInvHolds(Empty, run);
    assert Conserved(Run(Empty, run).value.rows[id]);
  }

  /** Claims are conserved: each was released, failed, overtaken or dead-lettered, or the row is its. */
  lemma ClaimsAreConserved(run: seq<Step>, id: Id)
    requires TimelyRun(Empty, run) && Run(Empty, run).Some? && id in Run(Empty, run).value.rows
    ensures var r := Run(Empty, run).value.rows[id];
            var l := r.ledger;
            l.claimed == l.released + l.failed + l.recovered + l.deadLettered
                         + (if r.status == PROCESSING || r.status == COMPLETED then 1 else 0)
  {
    LeaseInvHolds(Empty, run);
    assert Conserved(Run(Empty, run).value.rows[id]);
  }

  /** A failure recorded for a dispatch whose completion was committed but reported as an error. */
  ghost predicate OverwritesCompletion(s: State, a: Step) {
    a.Fail? && HeadIs(s, a.worker, Unsure)
  }

  /** A timely step leaves COMPLETED exactly when it records such a failure for that row. */
  lemma TimelyStepLeavesCompletedExactlyWhen(s: State, a: Step, id: Id)
    requires LeaseInv(s) && Enabled(s, a) && Timely(s, a) && id in s.rows && s.rows[id].status == COMPLETED
    ensures id in Next(s, a).rows
    ensures Next(s, a).rows[id].status != COMPLETED <==>
            OverwritesCompletion(s, a) && Hand(s, a.worker)[0].id == id
    ensures Next(s, a).rows[id].status == COMPLETED ==> Next(s, a).rows[id] == s.rows[id]
  {
    StepActsRowwise(s, a, id);
    hide Next;
    if a.Complete? || a.CompleteLost? || a.Fail? {
      WriterOwns(s, a);
    }
    assert Conserved(s.rows[id]) by {
      LeaseInvOf(s, id);
    }
  }

  /** DEAD_LETTER is never left. */
  lemma TimelyStepKeepsDeadLetter(s: State, a: Step, id: Id)
    requires LeaseInv(s) && Enabled(s, a) && Timely(s, a) && id in s.rows && s.rows[id].status == DEAD_LETTER
    ensures id in Next(s, a).rows && Next(s, a).rows[id] == s.rows[id]
  {
    StepActsRowwise(s, a, id);
    hide Next;
    if a.Complete? || a.CompleteLost? || a.Fail? {
      WriterOwns(s, a);
    }
    assert Conserved(s.rows[id]) by {
      LeaseInvOf(s, id);
    }
  }

  ghost predicate NoneOverwritten(s: State, run: seq<Step>)
    decreases run
  {
    run == [] ||
    (Enabled(s, run[0]) && !OverwritesCompletion(s, run[0]) && NoneOverwritten(Next(s, run[0]), run[1..]))
  }

  /** Dead letters stay; completed rows stay unless a failure overwrites an unreported completion. */
  lemma {:induction false} EndStatesAreAbsorbing(s: State, run: seq<Step>, id: Id)
    requires LeaseInv(s) && TimelyRun(s, run) && id in s.rows
    requires s.rows[id].status == DEAD_LETTER || (s.rows[id].status == COMPLETED && NoneOverwritten(s, run))
    ensures Run(s, run).Some? && id in Run(s, run).value.rows
    ensures Run(s, run).value.rows[id] == s.rows[id]
    decreases run
  {
    if run != [] {
      LeaseInvKept(s, run[0]);
      if s.rows[id].status == DEAD_LETTER {
        TimelyStepKeepsDeadLetter(s, run[0], id);
      } else {
        TimelyStepLeavesCompletedExactlyWhen(s, run[0], id);
      }
      EndStatesAreAbsorbing(Next(s, run[0]), run[1..], id);
    }
  }

  // A late failure, step by step: "a" is overtaken by recovery, then "b" dispatches the event.

  ghost const New := NewRow("webhook.received", "p", 0)
  ghost const ByA := ClaimedRow(New, "a", 0)
  ghost const Back := RecoveredRow(ByA)
  ghost const ByB := ClaimedRow(Back, "b", 60_001)
  ghost const HandA := [Claim("e", 0, 60_000, Fresh)]
  ghost const HandB := [Claim("e", 1, 120_001, Fresh)]
  ghost const S1 := State(0, map["e" := New], map[], map[], {})
  ghost const S2 := State(0, map["e" := ByA], map["a" := HandA], map[], {})
  ghost const S3 := S2.(now := 60_001)
  ghost const S4 := S3.(rows := map["e" := Back])
  ghost const S5 := S4.(rows := map["e" := ByB], hands := map["a" := HandA, "b" := HandB])
  ghost const S6 := Enqueue(SetPhase(S5, "b", Handed), "e")

  lemma FirstClaim()
    ensures Enabled(Empty, Create("e", "webhook.received", "p", 0))
    ensures Next(Empty, Create("e", "webhook.received", "p", 0)) == S1
    ensures Enabled(S1, ClaimBatch("a", ["e"], {})) && Next(S1, ClaimBatch("a", ["e"], {})) == S2
  {
    assert Claims(S1, ["e"]) == HandA;
  }

  lemma SecondClaim()
    ensures Enabled(S2, Tick(60_001)) && Next(S2, Tick(60_001)) == S3
    ensures Enabled(S3, RecoverPending) && Next(S3, RecoverPending) == S4
    ensures Enabled(S4, ClaimBatch("b", ["e"], {})) && Next(S4, ClaimBatch("b", ["e"], {})) == S5
  {
    assert Claims(S4, ["e"]) == HandB;
  }

  lemma LateWrite(s: State)
    requires s == S6
    ensures Enabled(S5, SendAccepted("b")) && Next(S5, SendAccepted("b")) == s
    ensures Enabled(s, Complete("b"))
    ensures var t := Next(s, Complete("b"));
            && Enabled(t, SendRejected("a"))
            && var u := Next(t, SendRejected("a"));
            && u.rows["e"].status == COMPLETED
            && Enabled(u, Fail("a", "timeout")) && !Timely(u, Fail("a", "timeout"))
            && Next(u, Fail("a", "timeout")).rows["e"].status == PENDING
  {
  }

  /** Untimely runs break this: a failure written late takes a completed row back to PENDING. */
  lemma LateFailureUndoesCompletion() returns (run: seq<Step>, late: Step)
    ensures Run(Empty, run).Some?
    ensures var s := Run(Empty, run).value;
            && "e" in s.rows && s.rows["e"].status == COMPLETED
            && Enabled(s, late) && !Timely(s, late)
            && "e" in Next(s, late).rows && Next(s, late).rows["e"].status == PENDING
  {
    FirstClaim();
    SecondClaim();
    LateWrite(S6);
    run := [];
    RunSnoc(run, Empty, Create("e", "webhook.received", "p", 0));
    run := run + [Create("e", "webhook.received", "p", 0)];
    RunSnoc(run, S1, ClaimBatch("a", ["e"], {}));
    run := run + [ClaimBatch("a", ["e"], {})];
    RunSnoc(run, S2, Tick(60_001));
    run := run + [Tick(60_001)];
    RunSnoc(run, S3, RecoverPending);
    run := run + [RecoverPending];
    RunSnoc(run, S4, ClaimBatch("b", ["e"], {}));
    run := run + [ClaimBatch("b", ["e"], {})];
    RunSnoc(run, S5, SendAccepted("b"));
    run := run + [SendAccepted("b")];
    RunSnoc(run, S6, Complete("b"));
    run := run + [Complete("b")];
    RunSnoc(run, Next(S6, Complete("b")), SendRejected("a"));
    run := run + [SendRejected("a")];
    late := Fail("a", "timeout");
  }

  // The same within the lease: the completion is committed, its report is lost, and the failure is
  // recorded over it.

  ghost const Sent := Enqueue(SetPhase(S2, "a", Handed), "e")
  ghost const Unreported := Next(Sent, CompleteLost("a"))

  lemma UnreportedCompletion()
    ensures Enabled(S2, SendAccepted("a")) && Next(S2, SendAccepted("a")) == Sent
    ensures Enabled(Sent, CompleteLost("a")) && Timely(Sent, CompleteLost("a"))
    ensures "e" in Unreported.rows && Unreported.rows["e"].status == COMPLETED
    ensures Enabled(Unreported, Fail("a", "timeout")) && Timely(Unreported, Fail("a", "timeout"))
    ensures "e" in Next(Unreported, Fail("a", "timeout")).rows
    ensures Next(Unreported, Fail("a", "timeout")).rows["e"].status == PENDING
  {
  }

  /** Timely runs break it too: an in-lease failure after an unreported completion. */
  lemma InLeaseFailureUndoesCompletion() returns (run: seq<Step>, fail: Step)
    ensures Run(Empty, run).Some?
    ensures var s := Run(Empty, run).value;
            && "e" in s.rows && s.rows["e"].status == COMPLETED
            && Enabled(s, fail) && Timely(s, fail)
            && "e" in Next(s, fail).rows && Next(s, fail).rows["e"].status == PENDING
  {
    FirstClaim();
    UnreportedCompletion();
    run := [];
    RunSnoc(run, Empty, Create("e", "webhook.received", "p", 0));
    run := run + [Create("e", "webhook.received", "p", 0)];
    RunSnoc(run, S1, ClaimBatch("a", ["e"], {}));
    run := run + [ClaimBatch("a", ["e"], {})];
    RunSnoc(run, S2, SendAccepted("a"));
    run := run + [SendAccepted("a")];
    RunSnoc(run, Sent, CompleteLost("a"));
    run := run + [CompleteLost("a")];
    fail := Fail("a", "timeout");
  }
}
