/**
  The transactional outbox: the table's statements, and the dispatch protocol several workers run
  over it. Every statement and every call to the job queue is one step, so a worker may crash, be
  overtaken by lease recovery, or write an outcome late between any two of them.
 */
module Outbox {
  import opened Common

  type Id = string
  type Worker = string

  const CLAIM_BATCH_SIZE := 50
  const CLAIM_LEASE_MS := 60_000
  const MAX_DISPATCH_ATTEMPTS := 5

  datatype Status = PENDING | PROCESSING | COMPLETED | DEAD_LETTER

  /** How the claims of one row began and ended so far. */
  datatype Ledger = Ledger(
    claimed: nat, released: nat, failed: nat, recovered: nat, deadLettered: nat)

  /** One row; its ledger is history, not a column. */
  datatype Row = Row(
    eventType: string,
    subject: string,
    status: Status,
    retryCount: nat,
    lastError: Option<string>,
    claimedBy: Option<Worker>,
    claimedAt: Option<int>,
    leaseUntil: Option<int>,
    scheduledAt: int,
    dispatchedAt: Option<int>,
    ledger: Ledger)

  type Table = map<Id, Row>

  const NoClaims := Ledger(0, 0, 0, 0, 0)

  // ---------------------------------------------------------------------------
  // Statements
  // ---------------------------------------------------------------------------

  function NewRow(eventType: string, subject: string, scheduledAt: int): Row {
    Row(eventType, subject, PENDING, 0, None, None, None, None, scheduledAt, None, NoClaims)
  }

  predicate Due(r: Row, now: int) {
    r.status == PENDING && r.scheduledAt <= now
  }

  /** The rows a claim may return: due, not locked by another claim, oldest first, up to a limit. */
  ghost predicate ClaimSelects(t: Table, now: int, locked: set<Id>, limit: nat, batch: seq<Id>) {
    && |batch| <= limit
    && (forall i, j | 0 <= i < j < |batch| :: batch[i] != batch[j])
    && (forall id <- batch :: id in t && id !in locked && Due(t[id], now))
    && (forall id <- t | id !in batch && id !in locked && Due(t[id], now) ::
          |batch| == limit && forall taken <- batch :: t[taken].scheduledAt <= t[id].scheduledAt)
  }

  function ClaimedRow(r: Row, w: Worker, now: int): Row {
    r.(status := PROCESSING, claimedBy := Some(w), claimedAt := Some(now),
       leaseUntil := Some(now + CLAIM_LEASE_MS),
       ledger := r.ledger.(claimed := r.ledger.claimed + 1))
  }

  predicate LeaseExpired(r: Row, now: int) {
    r.status == PROCESSING && r.leaseUntil.Some? && r.leaseUntil.value < now
  }

  predicate Recoverable(r: Row, now: int) {
    LeaseExpired(r, now) && r.retryCount < MAX_DISPATCH_ATTEMPTS
  }

  predicate DeadOnRecovery(r: Row, now: int) {
    LeaseExpired(r, now) && r.retryCount >= MAX_DISPATCH_ATTEMPTS
  }

  function RecoveredRow(r: Row): Row {
    r.(status := PENDING, claimedBy := None, claimedAt := None, leaseUntil := None,
       retryCount := r.retryCount + 1,
       lastError := Some("Lease expired without completion (worker recovery)"),
       ledger := r.ledger.(recovered := r.ledger.recovered + 1))
  }

  function DeadRow(r: Row): Row {
    r.(status := DEAD_LETTER, claimedBy := None, leaseUntil := None,
       lastError := Some("Exceeded maximum retries upon lease expiration"),
       ledger := r.ledger.(deadLettered := r.ledger.deadLettered + 1))
  }

  /** Unguarded: written whatever the row holds by then. */
  function CompletedRow(r: Row, now: int): Row {
    r.(status := COMPLETED, dispatchedAt := Some(now), leaseUntil := None)
  }

  /** Unguarded too; whether the event is exhausted was decided on the claimed copy. */
  function FailedRow(r: Row, exhausted: bool, error: string): Row {
    r.(status := if exhausted then DEAD_LETTER else PENDING, retryCount := r.retryCount + 1,
       lastError := Some(error), leaseUntil := None,
       ledger := r.ledger.(failed := r.ledger.failed + 1))
  }

  predicate Releasable(r: Row, w: Worker) {
    r.status == PROCESSING && r.claimedBy == Some(w)
  }

  function ReleasedRow(r: Row): Row {
    r.(status := PENDING, claimedBy := None, claimedAt := None, leaseUntil := None,
       ledger := r.ledger.(released := r.ledger.released + 1))
  }

  function JobKey(id: Id): string {
    "outbox-" + id
  }

  lemma JobKeyInjective(a: Id, b: Id)
    ensures JobKey(a) == JobKey(b) ==> a == b
  {
    assert JobKey(a)[7..] == a && JobKey(b)[7..] == b;
  }

  // ---------------------------------------------------------------------------
  // Protocol
  // ---------------------------------------------------------------------------

  /** A job the queue holds; deduplicated by key, whatever its state. */
  datatype Job = Waiting(attemptsMade: nat) | Active(attemptsMade: nat) | Done | Exhausted

  /**
    Where a worker stands with the event it dispatches: nothing done yet, the queue took the job,
    something threw, or something threw although the row was in fact completed.
   */
  datatype Phase = Fresh | Handed | Failing | Unsure

  /** A claimed event as the worker's copy shows it. */
  datatype Claim = Claim(id: Id, retryCount: nat, leaseUntil: int, phase: Phase)

  datatype State = State(
    now: int,
    rows: Table,
    hands: map<Worker, seq<Claim>>,
    queue: map<string, Job>,
    accepted: set<string>)

  datatype Step =
    | Tick(elapsed: nat)
    | Create(id: Id, eventType: string, subject: string, scheduledAt: int)
    | ClaimBatch(worker: Worker, batch: seq<Id>, locked: set<Id>)
    | SendAccepted(worker: Worker)
    | SendLost(worker: Worker)
    | SendRejected(worker: Worker)
    | Complete(worker: Worker)
    | CompleteLost(worker: Worker)
    | CompleteError(worker: Worker)
    | Fail(worker: Worker, error: string)
    | Release(worker: Worker)
    | Abandon(worker: Worker)
    | RecoverPending
    | RecoverDead

  /** The claimed events a worker has not finished with, the current one first. */
  function Hand(s: State, w: Worker): seq<Claim> {
    if w in s.hands then s.hands[w] else []
  }

  predicate HeadIs(s: State, w: Worker, p: Phase) {
    Hand(s, w) != [] && Hand(s, w)[0].phase == p
  }

  ghost predicate Enabled(s: State, a: Step) {
    match a
    case Tick(_) => true
    case Create(id, _, _, _) => id !in s.rows
    case ClaimBatch(w, batch, locked) =>
      Hand(s, w) == [] && ClaimSelects(s.rows, s.now, locked, CLAIM_BATCH_SIZE, batch)
    case SendAccepted(w) => HeadIs(s, w, Fresh)
    case SendLost(w) => HeadIs(s, w, Fresh)
    case SendRejected(w) => HeadIs(s, w, Fresh)
    case Complete(w) => HeadIs(s, w, Handed) && Hand(s, w)[0].id in s.rows
    case CompleteLost(w) => HeadIs(s, w, Handed) && Hand(s, w)[0].id in s.rows
    case CompleteError(w) => HeadIs(s, w, Handed)
    case Fail(w, _) =>
      (HeadIs(s, w, Failing) || HeadIs(s, w, Unsure)) && Hand(s, w)[0].id in s.rows
    case Release(w) => HeadIs(s, w, Fresh)
    case Abandon(w) => true
    case RecoverPending => true
    case RecoverDead => true
  }

  function Claims(s: State, batch: seq<Id>): (cs: seq<Claim>)
    requires forall id <- batch :: id in s.rows
  {
    seq(|batch|, i requires 0 <= i < |batch| =>
      Claim(batch[i], s.rows[batch[i]].retryCount, s.now + CLAIM_LEASE_MS, Fresh))
  }

  function SetHand(s: State, w: Worker, hand: seq<Claim>): State {
    s.(hands := s.hands[w := hand])
  }

  function SetPhase(s: State, w: Worker, p: Phase): State
    requires Hand(s, w) != []
  {
    SetHand(s, w, Hand(s, w)[0 := Hand(s, w)[0].(phase := p)])
  }

  /** The queue takes a job unless it already holds one under the key. */
  function Enqueue(s: State, id: Id): State {
    var key := JobKey(id);
    s.(queue := if key in s.queue then s.queue else s.queue[key := Waiting(0)],
       accepted := s.accepted + {key})
  }

  function SetRow(s: State, id: Id, r: Row): State {
    s.(rows := s.rows[id := r])
  }

  predicate Exhausting(c: Claim) {
    c.retryCount + 1 >= MAX_DISPATCH_ATTEMPTS
  }

  ghost function Next(s: State, a: Step): State
    requires Enabled(s, a)
  {
    match a
    case Tick(d) => s.(now := s.now + d)
    case Create(id, eventType, subject, at) => SetRow(s, id, NewRow(eventType, subject, at))
    case ClaimBatch(w, batch, _) =>
      SetHand(s, w, Claims(s, batch)).(
        rows := map id | id in s.rows ::
          if id in batch then ClaimedRow(s.rows[id], w, s.now) else s.rows[id])
    case SendAccepted(w) => Enqueue(SetPhase(s, w, Handed), Hand(s, w)[0].id)
    case SendLost(w) => Enqueue(SetPhase(s, w, Failing), Hand(s, w)[0].id)
    case SendRejected(w) => SetPhase(s, w, Failing)
    case Complete(w) =>
      var id := Hand(s, w)[0].id;
      SetHand(SetRow(s, id, CompletedRow(s.rows[id], s.now)), w, Hand(s, w)[1..])
    case CompleteLost(w) =>
      var id := Hand(s, w)[0].id;
      SetPhase(SetRow(s, id, CompletedRow(s.rows[id], s.now)), w, Unsure)
    case CompleteError(w) => SetPhase(s, w, Failing)
    case Fail(w, error) =>
      var c := Hand(s, w)[0];
      SetHand(SetRow(s, c.id, FailedRow(s.rows[c.id], Exhausting(c), error)), w, Hand(s, w)[1..])
    case Release(w) =>
      SetHand(s, w, []).(
        rows := map id | id in s.rows ::
          if Releases(s, w, id) then ReleasedRow(s.rows[id]) else s.rows[id])
    case Abandon(w) => SetHand(s, w, [])
    case RecoverPending =>
      s.(rows := map id | id in s.rows ::
           if Recoverable(s.rows[id], s.now) then RecoveredRow(s.rows[id]) else s.rows[id])
    case RecoverDead =>
      s.(rows := map id | id in s.rows ::
           if DeadOnRecovery(s.rows[id], s.now) then DeadRow(s.rows[id]) else s.rows[id])
  }

  /** What a step does to one row that exists already. */
  ghost function RowAfter(s: State, a: Step, id: Id): Row
    requires Enabled(s, a) && id in s.rows
  {
    var r := s.rows[id];
    match a
    case ClaimBatch(w, batch, _) => if id in batch then ClaimedRow(r, w, s.now) else r
    case Complete(w) => if Hand(s, w)[0].id == id then CompletedRow(r, s.now) else r
    case CompleteLost(w) => if Hand(s, w)[0].id == id then CompletedRow(r, s.now) else r
    case Fail(w, error) =>
      if Hand(s, w)[0].id == id then FailedRow(r, Exhausting(Hand(s, w)[0]), error) else r
    case Release(w) => if Releases(s, w, id) then ReleasedRow(r) else r
    case RecoverPending => if Recoverable(r, s.now) then RecoveredRow(r) else r
    case RecoverDead => if DeadOnRecovery(r, s.now) then DeadRow(r) else r
    case _ => r
  }

  lemma StepActsRowwise(s: State, a: Step, id: Id)
    requires Enabled(s, a) && id in s.rows
    ensures id in Next(s, a).rows && Next(s, a).rows[id] == RowAfter(s, a, id)
  {
  }

  lemma RowsAppear(s: State, a: Step, id: Id)
    requires Enabled(s, a) && id !in s.rows && id in Next(s, a).rows
    ensures a.Create? && a.id == id && Next(s, a).rows[id] == NewRow(a.eventType, a.subject, a.scheduledAt)
  {
  }

  /** What a step does to the events a worker has in hand. */
  ghost function HandAfter(s: State, a: Step, w: Worker): seq<Claim>
    requires Enabled(s, a)
  {
    var h := Hand(s, w);
    if a.Tick? || a.Create? || a.RecoverPending? || a.RecoverDead? || a.worker != w then h
    else match a
      case ClaimBatch(_, batch, _) => Claims(s, batch)
      case SendAccepted(_) => h[0 := h[0].(phase := Handed)]
      case SendLost(_) => h[0 := h[0].(phase := Failing)]
      case SendRejected(_) => h[0 := h[0].(phase := Failing)]
      case Complete(_) => h[1..]
      case CompleteLost(_) => h[0 := h[0].(phase := Unsure)]
      case CompleteError(_) => h[0 := h[0].(phase := Failing)]
      case Fail(_, _) => h[1..]
      case _ => []
  }

  lemma StepActsHandwise(s: State, a: Step, w: Worker)
    requires Enabled(s, a)
    ensures Hand(Next(s, a), w) == HandAfter(s, a, w)
  {
  }

  predicate InHand(hand: seq<Claim>, id: Id) {
    exists c <- hand :: c.id == id
  }

  predicate Releases(s: State, w: Worker, id: Id) {
    InHand(Hand(s, w), id) && id in s.rows && Releasable(s.rows[id], w)
  }

  function Dropped(a: Step, w: Worker): nat {
    if (a.Complete? || a.Fail?) && a.worker == w then 1 else 0
  }

  /** Except for a new claim, a hand only loses its head or the whole of it. */
  lemma HandItem(s: State, a: Step, w: Worker, i: nat)
    requires Enabled(s, a) && !(a.ClaimBatch? && a.worker == w) && i < |HandAfter(s, a, w)|
    ensures var h, c, k := Hand(s, w), HandAfter(s, a, w)[i], i + Dropped(a, w);
            && k < |h|
            && c == h[k].(phase := c.phase)
            && (i > 0 ==> c.phase == h[k].phase)
            && !(a.Release? && a.worker == w)
            && (if a.CompleteLost? && a.worker == w && i == 0 then c.phase == Unsure
                else (c.phase == Unsure <==> h[k].phase == Unsure))
  {
    hide Next;
  }

  ghost function Run(s: State, run: seq<Step>): Option<State>
    decreases run
  {
    if run == [] then Some(s)
    else if Enabled(s, run[0]) then Run(Next(s, run[0]), run[1..])
    else None
  }

  lemma {:induction false} RunConcat(s: State, a: seq<Step>, b: seq<Step>)
    requires Run(s, a).Some?
    ensures Run(s, a + b) == Run(Run(s, a).value, b)
    decreases a
  {
    if a == [] {
      assert a + b == b;
    } else {
      assert (a + b)[0] == a[0] && (a + b)[1..] == a[1..] + b;
      RunConcat(Next(s, a[0]), a[1..], b);
    }
  }

  lemma RunSnoc(run: seq<Step>, s: State, a: Step)
    requires Run(Empty, run) == Some(s) && Enabled(s, a)
    ensures Run(Empty, run + [a]) == Some(Next(s, a))
  {
    RunConcat(Empty, run, [a]);
    assert Run(Next(s, a), [a][1..]) == Some(Next(s, a));
  }

  // ---------------------------------------------------------------------------
  // What every run keeps, stale workers included
  // ---------------------------------------------------------------------------

  ghost predicate RowSound(r: Row, id: Id, accepted: set<string>) {
    && (r.status == PROCESSING <==> r.leaseUntil.Some?)
    && (r.status == PROCESSING ==> r.claimedBy.Some? && r.claimedAt.Some?)
    && (r.status == COMPLETED ==> JobKey(id) in accepted)
    && r.retryCount == r.ledger.failed + r.ledger.recovered
  }

  ghost predicate RowInv(s: State, id: Id)
    requires id in s.rows
  {
    RowSound(s.rows[id], id, s.accepted)
  }

  ghost predicate HandInv(s: State, w: Worker) {
    && (forall c <- Hand(s, w) :: c.id in s.rows)
    && (forall i | 0 < i < |Hand(s, w)| :: Hand(s, w)[i].phase == Fresh)
    && (HeadIs(s, w, Handed) ==> JobKey(Hand(s, w)[0].id) in s.accepted)
  }

  ghost predicate Inv(s: State) {
    && (forall id <- s.rows :: RowInv(s, id))
    && (forall w :: HandInv(s, w))
    && s.queue.Keys <= s.accepted
  }

  const Empty := State(0, map[], map[], map[], {})

  lemma NewRowKeeps(s: State, a: Step, id: Id)
    requires Inv(s) && Enabled(s, a) && id !in s.rows && id in Next(s, a).rows
    ensures RowInv(Next(s, a), id)
  {
    RowsAppear(s, a, id);
  }

  lemma OldRowKeeps(s: State, a: Step, id: Id)
    requires Inv(s) && Enabled(s, a) && id in s.rows
    ensures id in Next(s, a).rows && RowInv(Next(s, a), id)
  {
    StepActsRowwise(s, a, id);
    AcceptedGrows(s, a);
    if a.Complete? || a.CompleteLost? {
      assert HandInv(s, a.worker);
    }
    assert RowInv(s, id);
    RowAfterSound(s, a, id, Next(s, a).accepted);
  }

  lemma RowAfterSound(s: State, a: Step, id: Id, accepted: set<string>)
    requires Enabled(s, a) && id in s.rows && RowSound(s.rows[id], id, s.accepted)
    requires s.accepted <= accepted
    requires a.Complete? || a.CompleteLost? ==> JobKey(Hand(s, a.worker)[0].id) in s.accepted
    ensures RowSound(RowAfter(s, a, id), id, accepted)
  {
    hide Next, JobKey;
  }

  lemma AcceptedGrows(s: State, a: Step)
    requires Enabled(s, a)
    ensures s.rows.Keys <= Next(s, a).rows.Keys && s.accepted <= Next(s, a).accepted
    ensures a.SendAccepted? || a.SendLost? ==> JobKey(Hand(s, a.worker)[0].id) in Next(s, a).accepted
    ensures s.queue.Keys <= s.accepted ==> Next(s, a).queue.Keys <= Next(s, a).accepted
  {
    forall id | id in s.rows
      ensures id in Next(s, a).rows
    {
      StepActsRowwise(s, a, id);
    }
  }

  lemma HandStep(s: State, a: Step, w: Worker)
    requires Enabled(s, a) && HandInv(s, w)
    ensures HandInv(Next(s, a), w)
  {
    hide Next;
    var h, h' := Hand(s, w), HandAfter(s, a, w);
    StepActsHandwise(s, a, w);
    AcceptedGrows(s, a);
    forall c | c in h'
      ensures c.id in s.rows
    {
      var i :| 0 <= i < |h'| && h'[i] == c;
      if a.ClaimBatch? && a.worker == w {
        assert a.batch[i] in a.batch;
      } else {
        HandItem(s, a, w, i);
      }
    }
  }

  lemma InvKept(s: State, a: Step)
    requires Inv(s) && Enabled(s, a)
    ensures Inv(Next(s, a))
  {
    forall id | id in Next(s, a).rows
      ensures RowInv(Next(s, a), id)
    {
      if id in s.rows {
        OldRowKeeps(s, a, id);
      } else {
        NewRowKeeps(s, a, id);
      }
    }
    forall w
      ensures HandInv(Next(s, a), w)
    {
      HandStep(s, a, w);
    }
    AcceptedGrows(s, a);
  }

  lemma {:induction false} InvHolds(s: State, run: seq<Step>)
    requires Inv(s) && Run(s, run).Some?
    ensures Inv(Run(s, run).value)
    decreases run
  {
    if run != [] {
      InvKept(s, run[0]);
      InvHolds(Next(s, run[0]), run[1..]);
    }
  }

  /** In every run, stale workers included: leases, accepted jobs and the retry count. */
  lemma OutboxSafety(run: seq<Step>, id: Id)
    requires Run(Empty, run).Some? && id in Run(Empty, run).value.rows
    ensures var s := Run(Empty, run).value;
            var r := s.rows[id];
            && (r.status == PROCESSING <==> r.leaseUntil.Some?)
            && (r.status == COMPLETED ==> JobKey(id) in s.accepted)
            && r.retryCount == r.ledger.failed + r.ledger.recovered
  {
    InvHolds(Empty, run);
    assert RowInv(Run(Empty, run).value, id);
  }

  /** COMPLETED is left exactly when a worker writes a failure for that row. */
  lemma CompletedIsLeftExactlyBy(s: State, a: Step, id: Id)
    requires Inv(s) && Enabled(s, a) && id in s.rows && s.rows[id].status == COMPLETED
    ensures id in Next(s, a).rows
    ensures Next(s, a).rows[id].status != COMPLETED <==>
            a.Fail? && Hand(s, a.worker)[0].id == id
  {
    assert RowInv(s, id);
  }

  /** DEAD_LETTER is left exactly by a completion, or by a failure whose copy had attempts left. */
  lemma DeadLetterIsLeftExactlyBy(s: State, a: Step, id: Id)
    requires Inv(s) && Enabled(s, a) && id in s.rows && s.rows[id].status == DEAD_LETTER
    ensures id in Next(s, a).rows
    ensures Next(s, a).rows[id].status != DEAD_LETTER <==>
            || ((a.Complete? || a.CompleteLost?) && Hand(s, a.worker)[0].id == id)
            || (a.Fail? && Hand(s, a.worker)[0].id == id && !Exhausting(Hand(s, a.worker)[0]))
  {
    assert RowInv(s, id);
  }

  // ---------------------------------------------------------------------------
  // Progress: nothing a row has been through keeps it from being dispatched or given up
  // ---------------------------------------------------------------------------

  lemma RunCons(s: State, a: Step, rest: seq<Step>)
    requires Enabled(s, a)
    ensures Run(s, [a] + rest) == Run(Next(s, a), rest)
  {
    assert ([a] + rest)[0] == a && ([a] + rest)[1..] == rest;
  }

  lemma RunNil(s: State)
    ensures Run(s, []) == Some(s)
  {
  }

  /** A waiting row as a worker finds it that has come late enough and has all other rows locked. */
  ghost function Claimed(s: State, w: Worker, id: Id, elapsed: nat): State
    requires id in s.rows
  {
    var now := s.now + elapsed;
    s.(now := now, rows := s.rows[id := ClaimedRow(s.rows[id], w, now)],
       hands := s.hands[w := [Claim(id, s.rows[id].retryCount, now + CLAIM_LEASE_MS, Fresh)]])
  }

  /** A waiting row can be claimed by an idle worker, however often it was tried before. */
  lemma ClaimsWaiting(s: State, w: Worker, id: Id, elapsed: nat, rest: seq<Step>) returns (run: seq<Step>)
    requires id in s.rows && s.rows[id].status == PENDING && s.rows[id].scheduledAt <= s.now + elapsed
    requires Hand(s, w) == []
    ensures Run(s, run) == Run(Claimed(s, w, id, elapsed), rest)
  {
    var later := s.(now := s.now + elapsed);
    var claim := ClaimBatch(w, [id], s.rows.Keys - {id});
    RunCons(s, Tick(elapsed), [claim] + rest);
    assert Claims(later, [id]) == [Claim(id, s.rows[id].retryCount, later.now + CLAIM_LEASE_MS, Fresh)];
    RunCons(later, claim, rest);
    assert Next(later, claim).rows == Claimed(s, w, id, elapsed).rows;
    run := [Tick(elapsed)] + ([claim] + rest);
  }

  /** The time until a row is due. */
  function Wait(s: State, id: Id): nat
    requires id in s.rows
  {
    if s.rows[id].scheduledAt <= s.now then 0 else s.rows[id].scheduledAt - s.now
  }

  /** From any state a waiting row can be dispatched by an idle worker: its job is taken, the row completed. */
  lemma WaitingRowsCanComplete(s: State, w: Worker, id: Id) returns (run: seq<Step>)
    requires id in s.rows && s.rows[id].status == PENDING && Hand(s, w) == []
    ensures Run(s, run).Some?
    ensures var t := Run(s, run).value;
            && id in t.rows && t.rows[id].status == COMPLETED && t.rows[id].dispatchedAt == Some(t.now)
            && t.rows[id].retryCount == s.rows[id].retryCount && t.rows[id].leaseUntil == None
            && JobKey(id) in t.queue && JobKey(id) in t.accepted && Hand(t, w) == []
  {
    var c := Claimed(s, w, id, Wait(s, id));
    hide JobKey;
    var sent := Next(c, SendAccepted(w));
    RunNil(Next(sent, Complete(w)));
    RunCons(sent, Complete(w), []);
    RunCons(c, SendAccepted(w), [Complete(w)] + []);
    run := ClaimsWaiting(s, w, id, Wait(s, id), [SendAccepted(w)] + ([Complete(w)] + []));
  }

  /**
    A dispatch that is refused puts the row back for another one, and gives it up on the fifth
    failure; neither touches other rows.
   */
  lemma RefusedRowsWaitOrDie(s: State, w: Worker, id: Id, error: string) returns (run: seq<Step>)
    requires id in s.rows && s.rows[id].status == PENDING && Hand(s, w) == []
    ensures Run(s, run).Some?
    ensures var t := Run(s, run).value;
            && id in t.rows && t.rows[id].retryCount == s.rows[id].retryCount + 1
            && t.rows[id].status == (if s.rows[id].retryCount < 4 then PENDING else DEAD_LETTER)
            && t.rows[id].lastError == Some(error) && t.rows[id].leaseUntil == None
            && t.rows[id].dispatchedAt == s.rows[id].dispatchedAt
            && t.rows[id].scheduledAt == s.rows[id].scheduledAt
            && t.queue == s.queue && t.rows - {id} == s.rows - {id}
  {
    var c := Claimed(s, w, id, Wait(s, id));
    var refused := Next(c, SendRejected(w));
    RunNil(Next(refused, Fail(w, error)));
    RunCons(refused, Fail(w, error), []);
    RunCons(c, SendRejected(w), [Fail(w, error)] + []);
    run := ClaimsWaiting(s, w, id, Wait(s, id), [SendRejected(w)] + ([Fail(w, error)] + []));
  }

  /**
    A row whose worker is gone is recovered once its lease is over: it waits again, unclaimed, or is
    given up after five tries.
   */
  lemma AbandonedRowsAreRecovered(s: State, id: Id) returns (run: seq<Step>)
    requires Inv(s) && id in s.rows && s.rows[id].status == PROCESSING
    ensures Run(s, run).Some?
    ensures var t := Run(s, run).value;
            && id in t.rows && t.rows[id].leaseUntil == None && t.rows[id].claimedBy == None
            && t.rows[id].status == (if s.rows[id].retryCount < 5 then PENDING else DEAD_LETTER)
            && t.rows[id].retryCount == s.rows[id].retryCount + (if s.rows[id].retryCount < 5 then 1 else 0)
            && t.rows[id].lastError.Some? && t.rows[id].dispatchedAt == s.rows[id].dispatchedAt
            && t.rows[id].scheduledAt == s.rows[id].scheduledAt
            && (s.rows[id].retryCount < 5 ==> t.rows[id].claimedAt == None)
  {
    assert RowInv(s, id);
    var lease := s.rows[id].leaseUntil.value;
    hide Inv, JobKey, ClaimSelects, RowSound;
    var elapsed := if lease < s.now then 0 else lease + 1 - s.now;
    var later := s.(now := s.now + elapsed);
    var a := if s.rows[id].retryCount < 5 then RecoverPending else RecoverDead;
    RunNil(Next(later, a));
    RunCons(later, a, []);
    RunCons(s, Tick(elapsed), [a] + []);
    run := [Tick(elapsed)] + ([a] + []);
  }

  /** Recovery leaves a row alone while its lease lasts, and any row that is not being processed. */
  lemma LeasesAreHonoured(s: State, a: Step, id: Id)
    requires (a.RecoverPending? || a.RecoverDead?) && id in s.rows
    requires s.rows[id].status != PROCESSING || (s.rows[id].leaseUntil.Some? && s.now <= s.rows[id].leaseUntil.value)
    ensures id in Next(s, a).rows && Next(s, a).rows[id] == s.rows[id]
  {
  }
}
