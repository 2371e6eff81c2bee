/**
  The dispatcher loop of one worker over the shared outbox table and job queue. Between any two of
  its statements the other workers, the clock and lease recovery may take any steps of the
  protocol; whatever they do, the loop is a run of the protocol, and the worker's own steps form
  one dispatch cycle.
 */
module OutboxDispatcher {
  import opened Common
  import opened Outbox

  // ---------------------------------------------------------------------------
  // One worker's part of a run
  // ---------------------------------------------------------------------------

  ghost predicate Own(a: Step, w: Worker) {
    match a
    case Tick(_) => false
    case Create(_, _, _, _) => false
    case RecoverPending => false
    case RecoverDead => false
    case _ => a.worker == w
  }

  ghost function Mine(run: seq<Step>, w: Worker): seq<Step> {
    if run == [] then []
    else
      var last := run[|run| - 1];
      Mine(run[..|run| - 1], w) + if Own(last, w) then [last] else []
  }

  lemma {:induction false} MineConcat(a: seq<Step>, b: seq<Step>, w: Worker)
    ensures Mine(a + b, w) == Mine(a, w) + Mine(b, w)
    decreases |b|
  {
    if b == [] {
      assert a + b == a;
    } else {
      assert (a + b)[..|a + b| - 1] == a + b[..|b| - 1];
      MineConcat(a, b[..|b| - 1], w);
    }
  }

  /** In this worker's hands for a minute. */
  ghost predicate IsClaimed(r: Row, w: Worker, now: int) {
    && r.status == PROCESSING && r.claimedBy == Some(w) && r.claimedAt == Some(now)
    && r.leaseUntil == Some(now + 60_000)
  }

  lemma ClaimedColumns(r: Row, w: Worker, now: int)
    ensures IsClaimed(ClaimedRow(r, w, now), w, now) && ClaimedRow(r, w, now).retryCount == r.retryCount
  {
  }

  lemma ClaimIs(s: State, w: Worker, batch: seq<Id>, locked: set<Id>)
    requires Hand(s, w) == [] && ClaimSelects(s.rows, s.now, locked, CLAIM_BATCH_SIZE, batch)
    ensures var a := ClaimBatch(w, batch, locked);
            && Enabled(s, a) && HandAfter(s, a, w) == Claims(s, batch)
            && Next(s, a).now == s.now && Next(s, a).queue == s.queue
            && Next(s, a).rows == map id | id in s.rows ::
                 if id in batch then ClaimedRow(s.rows[id], w, s.now) else s.rows[id]
  {
  }

  lemma MineSnoc(run: seq<Step>, a: Step, w: Worker)
    ensures Mine(run + [a], w) == Mine(run, w) + if Own(a, w) then [a] else []
  {
    assert (run + [a])[..|run|] == run;
  }

  /** Steps of others leave a worker's hand alone and remove no row. */
  lemma {:induction false} OthersLeaveTheHand(s: State, run: seq<Step>, w: Worker)
    requires Run(s, run).Some? && Mine(run, w) == []
    ensures Hand(Run(s, run).value, w) == Hand(s, w)
    ensures s.rows.Keys <= Run(s, run).value.rows.Keys
    decreases run
  {
    if run != [] {
      var a, rest := run[0], run[1..];
      assert run == [a] + rest;
      MineConcat([a], rest, w);
      assert !Own(a, w) by {
        MineSnoc([], a, w);
        assert [] + [a] == [a];
      }
      StepActsHandwise(s, a, w);
      forall id | id in s.rows
        ensures id in Next(s, a).rows
      {
        StepActsRowwise(s, a, id);
      }
      OthersLeaveTheHand(Next(s, a), rest, w);
    }
  }

  lemma InterferenceLeavesTheHand(s: State, run: seq<Step>, more: seq<Step>, w: Worker)
    requires Run(Empty, run) == Some(s) && run <= more && Run(Empty, more).Some?
    requires Mine(more, w) == Mine(run, w)
    ensures Hand(Run(Empty, more).value, w) == Hand(s, w)
    ensures s.rows.Keys <= Run(Empty, more).value.rows.Keys
  {
    var others := more[|run|..];
    assert more == run + others;
    MineConcat(run, others, w);
    RunConcat(Empty, run, others);
    OthersLeaveTheHand(s, others, w);
  }

  // ---------------------------------------------------------------------------
  // A dispatch cycle
  // ---------------------------------------------------------------------------

  /** The event's job was taken and the row completed. */
  ghost predicate Dispatched(seg: seq<Step>, w: Worker) {
    seg == [SendAccepted(w), Complete(w)]
  }

  /** Sending or completing threw, and the failure was recorded. */
  ghost predicate Refused(seg: seq<Step>, w: Worker) {
    && 2 <= |seg| <= 3
    && seg[|seg| - 1].Fail? && seg[|seg| - 1].worker == w
    && (if |seg| == 2 then seg[0] == SendLost(w) || seg[0] == SendRejected(w)
        else seg[0] == SendAccepted(w) && (seg[1] == CompleteLost(w) || seg[1] == CompleteError(w)))
  }

  ghost function Flat(segs: seq<seq<Step>>): seq<Step> {
    if segs == [] then [] else Flat(segs[..|segs| - 1]) + segs[|segs| - 1]
  }

  ghost function CountDispatched(segs: seq<seq<Step>>, w: Worker): nat {
    if segs == [] then 0
    else CountDispatched(segs[..|segs| - 1], w) + if Dispatched(segs[|segs| - 1], w) then 1 else 0
  }

  /** How a cycle ends: every event done, the rest released, or a write threw. */
  ghost predicate Ending(end: seq<Step>, left: nat, w: Worker) {
    || (end == [] && left == 0)
    || (end == [Release(w)] && left > 0)
    || (0 < |end| <= 4 && end[|end| - 1] == Abandon(w) && left > 0)
  }

  /** The steps of one poll: a claim, one outcome per event in claim order, and the ending. */
  ghost predicate Cycle(steps: seq<Step>, w: Worker, dispatched: nat) {
    || (steps == [] && dispatched == 0)
    || exists segs: seq<seq<Step>>, end: seq<Step> ::
         && steps != [] && steps[0].ClaimBatch? && steps[0].worker == w
         && steps == [steps[0]] + Flat(segs) + end
         && |segs| <= |steps[0].batch|
         && (forall seg <- segs :: Dispatched(seg, w) || Refused(seg, w))
         && dispatched == CountDispatched(segs, w)
         && Ending(end, |steps[0].batch| - |segs|, w)
  }

  // What may go wrong is given to the methods, so that their contracts can say what happens if
  // nothing does.

  /**
    What happens around one poll: whether the queue runs, the claim's failure, the rows others have
    locked by then, and for the k-th event what is found before it and how its calls end.
   */
  datatype Surroundings = Surroundings(
    queueRuns: bool, claimThrows: bool, locked: set<Id>,
    goesOn: nat -> bool, stops: nat -> bool,
    send: nat -> Write, complete: nat -> Write, fail: nat -> Write, releaseThrows: bool)

  /** The steps of one event, from how its calls end. */
  ghost function Outcome(w: Worker, send: Write, complete: Write, fail: Write): seq<Step> {
    Attempt(w, send, complete) + if send == Written && complete == Written then [] else Failure(w, fail)
  }

  ghost function Attempt(w: Worker, send: Write, complete: Write): seq<Step> {
    match send
    case Written => [SendAccepted(w)] +
      (match complete
       case Written => [Complete(w)]
       case Unreported => [CompleteLost(w)]
       case NotWritten => [CompleteError(w)])
    case Unreported => [SendLost(w)]
    case NotWritten => [SendRejected(w)]
  }

  ghost function Failure(w: Worker, fail: Write): seq<Step> {
    match fail
    case Written => [Fail(w, DISPATCH_ERROR)]
    case Unreported => [Fail(w, DISPATCH_ERROR), Abandon(w)]
    case NotWritten => [Abandon(w)]
  }

  const DISPATCH_ERROR := "dispatch error"

  /** The event ends dispatched, or refused with the failure recorded; the poll goes on. */
  predicate Settles(send: Write, complete: Write, fail: Write) {
    (send == Written && complete == Written) || fail == Written
  }

  /** Nothing ends the poll at its k-th event. */
  ghost predicate Continues(around: Surroundings, k: nat) {
    around.goesOn(k) && !around.stops(k) && Settles(around.send(k), around.complete(k), around.fail(k))
  }

  /** Nothing ends the poll before its n-th event. */
  ghost predicate ContinuesUpTo(around: Surroundings, n: nat) {
    forall k: nat | k < n :: Continues(around, k)
  }

  lemma ContinuesFurther(around: Surroundings, n: nat)
    ensures ContinuesUpTo(around, 0)
    ensures ContinuesUpTo(around, n) && Continues(around, n) ==> ContinuesUpTo(around, n + 1)
  {
    hide Continues;
  }

  lemma ContinuesIs(around: Surroundings, k: nat)
    ensures Continues(around, k) <==>
            around.goesOn(k) && !around.stops(k) && Settles(around.send(k), around.complete(k), around.fail(k))
  {
  }

  lemma OutcomeIs(w: Worker, send: Write, complete: Write, fail: Write)
    ensures var seg := Outcome(w, send, complete, fail);
            if send == Written && complete == Written then Dispatched(seg, w)
            else if fail == Written then Refused(seg, w) && !Dispatched(seg, w)
            else 0 < |seg| <= 4 && seg[|seg| - 1] == Abandon(w)
  {
  }

  lemma NoSegments(w: Worker)
    ensures Flat([]) == [] && CountDispatched([], w) == 0
  {
  }

  /** Every event so far has the outcome its calls have. */
  ghost predicate HaveOutcomes(segs: seq<seq<Step>>, w: Worker, around: Surroundings) {
    forall k: nat | k < |segs| :: segs[k] == Outcome(w, around.send(k), around.complete(k), around.fail(k))
  }

  lemma OutcomeAdded(segs: seq<seq<Step>>, seg: seq<Step>, w: Worker, around: Surroundings)
    requires HaveOutcomes(segs, w, around)
    requires seg == Outcome(w, around.send(|segs|), around.complete(|segs|), around.fail(|segs|))
    ensures HaveOutcomes(segs + [seg], w, around)
  {
    hide Outcome;
  }

  lemma SegmentAdded(segs: seq<seq<Step>>, seg: seq<Step>, w: Worker)
    ensures Flat(segs + [seg]) == Flat(segs) + seg
    ensures CountDispatched(segs + [seg], w) == CountDispatched(segs, w) + if Dispatched(seg, w) then 1 else 0
  {
    assert (segs + [seg])[..|segs|] == segs;
  }

  lemma Endings(end: seq<Step>, left: nat, w: Worker)
    ensures Ending([], 0, w)
    ensures left > 0 ==> Ending([Release(w)], left, w) && Ending([Abandon(w)], left, w)
    ensures 0 < |end| <= 4 && end[|end| - 1] == Abandon(w) && left > 0 ==> Ending(end, left, w)
  {
  }

  lemma EmptyCycle(w: Worker)
    ensures Cycle([], w, 0)
  {
  }

  lemma CycleOf(a: Step, segs: seq<seq<Step>>, end: seq<Step>, w: Worker)
    requires a.ClaimBatch? && a.worker == w && |segs| <= |a.batch|
    requires forall seg <- segs :: Dispatched(seg, w) || Refused(seg, w)
    requires Ending(end, |a.batch| - |segs|, w)
    ensures Cycle([a] + Flat(segs) + end, w, CountDispatched(segs, w))
  {
    var steps := [a] + Flat(segs) + end;
    assert steps[0] == a && steps == [steps[0]] + Flat(segs) + end;
  }

  ghost function AllDispatched(w: Worker, n: nat): seq<Step> {
    if n == 0 then [] else AllDispatched(w, n - 1) + [SendAccepted(w), Complete(w)]
  }

  lemma {:induction false} CountAll(segs: seq<seq<Step>>, w: Worker)
    requires forall seg <- segs :: Dispatched(seg, w)
    ensures CountDispatched(segs, w) == |segs| && Flat(segs) == AllDispatched(w, |segs|)
    decreases |segs|
  {
    if segs != [] {
      assert segs[|segs| - 1] in segs;
      CountAll(segs[..|segs| - 1], w);
    }
  }

  /** When nothing goes wrong every claimed event is dispatched. */
  lemma WholeCycle(a: Step, segs: seq<seq<Step>>, end: seq<Step>, w: Worker, around: Surroundings)
    requires a.ClaimBatch? && |segs| <= |a.batch| && Ending(end, |a.batch| - |segs|, w)
    requires ContinuesUpTo(around, |segs|)
    requires HaveOutcomes(segs, w, around)
    requires |segs| < |a.batch| ==> !Continues(around, |segs|)
    ensures forall seg <- segs :: Dispatched(seg, w) || Refused(seg, w)
    ensures (forall k: nat | k < |a.batch| ::
               around.goesOn(k) && !around.stops(k) && around.send(k) == Written && around.complete(k) == Written) ==>
              CountDispatched(segs, w) == |a.batch| && Flat(segs) + end == AllDispatched(w, |a.batch|)
  {
    forall k: nat | k < |segs|
      ensures Dispatched(segs[k], w) || Refused(segs[k], w)
    {
      ContinuesIs(around, k);
      OutcomeIs(w, around.send(k), around.complete(k), around.fail(k));
    }
    if forall k: nat | k < |a.batch| ::
         around.goesOn(k) && !around.stops(k) && around.send(k) == Written && around.complete(k) == Written {
      forall k: nat | k < |a.batch|
        ensures Continues(around, k)
      {
        ContinuesIs(around, k);
      }
      CountAll(segs, w);
    }
  }

  // ---------------------------------------------------------------------------
  // The shared table and queue
  // ---------------------------------------------------------------------------

  /** The table and the queue as every worker shares them, with the run that led here. */
  class Shared {
    var now: int
    var rows: Table
    var queue: map<string, Job>
    ghost var hands: map<Worker, seq<Claim>>
    ghost var accepted: set<string>
    ghost var run: seq<Step>

    ghost function S(): State
      reads this
    {
      State(now, rows, hands, queue, accepted)
    }

    /** The present state is the one the recorded run ends in. */
    ghost predicate Reached()
      reads this
    {
      Run(Empty, run) == Some(S())
    }

    constructor ()
      ensures Reached() && S() == Empty && run == []
    {
      now, rows, queue := 0, map[], map[];
      hands, accepted, run := map[], {}, [];
    }

    /** The columns were just written as the step says; bring the rest of the state along. */
    ghost method Record(before: State, a: Step, w: Worker)
      requires Run(Empty, run) == Some(before) && Enabled(before, a) && Own(a, w)
      requires now == Next(before, a).now && rows == Next(before, a).rows
      requires queue == Next(before, a).queue
      modifies this`hands, this`accepted, this`run
      ensures Reached() && S() == Next(before, a) && run == old(run) + [a]
      ensures Hand(S(), w) == HandAfter(before, a, w)
      ensures Mine(run, w) == old(Mine(run, w)) + [a]
    {
      RunSnoc(run, before, a);
      MineSnoc(run, a, w);
      StepActsHandwise(before, a, w);
      hands, accepted := Next(before, a).hands, Next(before, a).accepted;
      run := run + [a];
    }

    /** Whatever the others do meanwhile: any steps of the protocol that are not this worker's. */
    method Interfere(w: Worker)
      requires Reached()
      modifies this
      ensures Reached() && old(run) <= run && Mine(run, w) == old(Mine(run, w))
    {
    }

    // -------------------------------------------------------------------------
    // Statements of one worker
    // -------------------------------------------------------------------------

    /** The due rows no other claim has locked, oldest first, up to the limit. */
    method SelectDue(locked: set<Id>, limit: nat) returns (batch: seq<Id>)
      ensures ClaimSelects(rows, now, locked, limit, batch)
      ensures forall id <- batch :: id in rows && rows[id].status == PENDING && rows[id].scheduledAt <= now
      ensures forall id <- rows | rows[id].status == PENDING && rows[id].scheduledAt <= now && id !in locked ::
                id in batch || |batch| == limit
    {
      batch := [];
      var left := set id | id in rows && id !in locked && Due(rows[id], now);
      while left != {} && |batch| < limit
        invariant |batch| <= limit
        invariant forall i, j | 0 <= i < j < |batch| :: batch[i] != batch[j]
        invariant forall id <- batch :: id in rows && id !in locked && Due(rows[id], now)
        invariant forall id :: id in left <==>
                    id in rows && id !in locked && Due(rows[id], now) && id !in batch
        invariant forall id <- left, taken <- batch :: rows[taken].scheduledAt <= rows[id].scheduledAt
        decreases left
      {
        var oldest := Oldest(left);
        batch := batch + [oldest];
        left := left - {oldest};
      }
    }

    method Oldest(ids: set<Id>) returns (oldest: Id)
      requires ids != {} && ids <= rows.Keys
      ensures oldest in ids
      ensures forall id <- ids :: rows[oldest].scheduledAt <= rows[id].scheduledAt
    {
      oldest :| oldest in ids;
      var left := ids - {oldest};
      while left != {}
        invariant left <= ids && oldest in ids
        invariant forall id <- ids - left :: rows[oldest].scheduledAt <= rows[id].scheduledAt
        decreases left
      {
        var id :| id in left;
        if rows[id].scheduledAt < rows[oldest].scheduledAt {
          oldest := id;
        }
        left := left - {id};
      }
    }

    /** UPDATE … WHERE id IN (SELECT … FOR UPDATE SKIP LOCKED) RETURNING; it may also throw. */
    method ClaimPending(w: Worker, throws: bool, locked: set<Id>)
      returns (thrown: bool, claimed: seq<Claim>, ghost a: Step)
      requires Reached() && Hand(S(), w) == []
      modifies this
      ensures thrown == throws
      ensures !thrown ==> a.ClaimBatch? && a.locked == locked && |a.batch| <= 50
      ensures !thrown ==> a.ClaimBatch? && forall id <- old(rows) |
                  old(rows)[id].status == PENDING && old(rows)[id].scheduledAt <= old(now) && id !in locked ::
                  id in a.batch || |a.batch| == 50
      ensures !thrown ==> a.ClaimBatch? && (forall id <- a.batch ::
                  && id in rows && id in old(rows) && old(rows)[id].status == PENDING
                  && IsClaimed(rows[id], w, old(now)) && rows[id].retryCount == old(rows)[id].retryCount)
      ensures Reached() && old(run) <= run && Hand(S(), w) == claimed
      ensures thrown ==> S() == old(S()) && run == old(run) && claimed == []
      ensures !thrown ==> a.ClaimBatch? && a.worker == w && Enabled(old(S()), a)
      ensures !thrown ==> claimed == Claims(old(S()), a.batch)
      ensures !thrown ==> rows.Keys == old(rows).Keys && forall id <- rows ::
                  rows[id] == if id in a.batch then ClaimedRow(old(rows)[id], w, old(now)) else old(rows)[id]
      ensures !thrown ==> Mine(run, w) == old(Mine(run, w)) + [a]
      ensures forall c <- claimed :: c.phase == Fresh && c.id in rows
    {
      hide Run, Mine, ClaimedRow, IsClaimed, Enabled, Next, HandAfter, ClaimSelects;
      thrown := throws;
      a := Abandon(w);
      if thrown {
        return true, [], a;
      }
      ghost var before := S();
      var batch := SelectDue(locked, CLAIM_BATCH_SIZE);
      a := ClaimBatch(w, batch, locked);
      var table, at := rows, now;
      ClaimIs(before, w, batch, locked);
      claimed := seq(|batch|, i requires 0 <= i < |batch| && batch[i] in table =>
        Claim(batch[i], table[batch[i]].retryCount, at + CLAIM_LEASE_MS, Fresh));
      rows := map id | id in rows ::
        if id in batch then ClaimedRow(rows[id], w, now) else rows[id];
      Record(before, a, w);
      assert claimed == Claims(before, batch);
      forall id | id in batch
        ensures id in table && id in rows && table[id].status == PENDING
        ensures IsClaimed(rows[id], w, at) && rows[id].retryCount == table[id].retryCount
      {
        ClaimedColumns(table[id], w, at);
      }
    }

    /** `JobQueue.send`: the job is held, or an error is thrown; a timeout leaves that open. */
    method Send(w: Worker, id: Id, end: Write) returns (ok: bool, ghost a: Step)
      requires Reached() && HeadIs(S(), w, Fresh) && Hand(S(), w)[0].id == id
      modifies this
      ensures Reached() && old(run) <= run && rows == old(rows)
      ensures Mine(run, w) == old(Mine(run, w)) + [a]
      ensures var h := old(Hand(S(), w));
              Hand(S(), w) == h[0 := h[0].(phase := if ok then Handed else Failing)]
      ensures ok <==> end == Written
      ensures a == match end
                   case Written => SendAccepted(w)
                   case Unreported => SendLost(w)
                   case NotWritten => SendRejected(w)
      ensures queue == if end == NotWritten || "outbox-" + id in old(queue) then old(queue)
                       else old(queue)["outbox-" + id := Waiting(0)]
    {
      hide Run, Mine;
      ghost var before := S();
      ok := end == Written;
      if end != NotWritten {
        var key := JobKey(id);
        if key !in queue {
          queue := queue[key := Waiting(0)];
        }
      }
      a := if ok then SendAccepted(w) else if end == Unreported then SendLost(w) else SendRejected(w);
      Record(before, a, w);
    }

    /** The unguarded completion; it may throw, before or after the commit. */
    method MarkCompleted(w: Worker, id: Id, end: Write) returns (ok: bool, ghost a: Step)
      requires Reached() && HeadIs(S(), w, Handed) && Hand(S(), w)[0].id == id && id in rows
      modifies this
      ensures Reached() && old(run) <= run && rows.Keys == old(rows.Keys)
      ensures Mine(run, w) == old(Mine(run, w)) + [a]
      ensures ok <==> end == Written
      ensures a == match end
                   case Written => Complete(w)
                   case Unreported => CompleteLost(w)
                   case NotWritten => CompleteError(w)
      ensures end != NotWritten ==>
                && rows[id].status == COMPLETED && rows[id].dispatchedAt == Some(old(now))
                && rows[id].leaseUntil == None && rows[id].retryCount == old(rows)[id].retryCount
      ensures ok ==> Hand(S(), w) == old(Hand(S(), w))[1..]
      ensures rows == if end == NotWritten then old(rows)
                      else old(rows)[id := CompletedRow(old(rows[id]), old(now))]
      ensures !ok ==> exists p | p == Failing || p == Unsure ::
                  Hand(S(), w) == old(Hand(S(), w))[0 := old(Hand(S(), w)[0]).(phase := p)]
    {
      hide Run, Mine;
      ghost var before := S();
      ok := end == Written;
      if end != NotWritten {
        rows := rows[id := CompletedRow(rows[id], now)];
      }
      a := if ok then Complete(w) else if end == Unreported then CompleteLost(w) else CompleteError(w);
      Record(before, a, w);
    }

    /** The unguarded failure; when it throws, the poll cycle ends and the hand is dropped. */
    method MarkFailed(w: Worker, id: Id, exhausted: bool, error: string, end: Write)
      returns (ok: bool, ghost did: seq<Step>)
      requires Reached() && (HeadIs(S(), w, Failing) || HeadIs(S(), w, Unsure))
      requires Hand(S(), w)[0].id == id && id in rows && exhausted == Exhausting(Hand(S(), w)[0])
      modifies this
      ensures Reached() && old(run) <= run && rows.Keys == old(rows.Keys)
      ensures Mine(run, w) == old(Mine(run, w)) + did
      ensures ok <==> end == Written
      ensures did == match end
                     case Written => [Fail(w, error)]
                     case Unreported => [Fail(w, error), Abandon(w)]
                     case NotWritten => [Abandon(w)]
      ensures Hand(S(), w) == if ok then old(Hand(S(), w))[1..] else []
      ensures rows == if end == NotWritten then old(rows)
                      else old(rows)[id := FailedRow(old(rows[id]), exhausted, error)]
      ensures end != NotWritten ==>
                && rows[id].retryCount == old(rows)[id].retryCount + 1
                && rows[id].status == (if exhausted then DEAD_LETTER else PENDING)
                && rows[id].lastError == Some(error) && rows[id].leaseUntil == None
    {
      hide Run, Mine;
      ok := end == Written;
      did := [];
      if end != NotWritten {
        ghost var before := S();
        rows := rows[id := FailedRow(rows[id], exhausted, error)];
        Record(before, Fail(w, error), w);
        did := [Fail(w, error)];
      }
      if !ok {
        GiveUp(w);
        did := did + [Abandon(w)];
      }
    }

    /** The worker forgets what it holds; those rows wait for lease recovery. */
    ghost method GiveUp(w: Worker)
      requires Reached()
      modifies this`hands, this`accepted, this`run
      ensures Reached() && old(run) <= run && Mine(run, w) == old(Mine(run, w)) + [Abandon(w)]
      ensures Hand(S(), w) == []
    {
      hide Run, Mine;
      Record(S(), Abandon(w), w);
    }

    /** `releaseUnattempted`: guarded by the status and the claiming worker. */
    method ReleaseUnattempted(w: Worker, events: seq<Claim>, throws: bool) returns (ghost a: Step)
      requires Reached() && HeadIs(S(), w, Fresh) && Hand(S(), w) == events
      modifies this
      ensures Reached() && old(run) <= run && Mine(run, w) == old(Mine(run, w)) + [a]
      ensures Hand(S(), w) == [] && a == if throws then Abandon(w) else Release(w)
      ensures a == Release(w) ==> forall c <- events | c.id in old(rows) && old(rows)[c.id].status == PROCESSING
                  && old(rows)[c.id].claimedBy == Some(w) ::
                  c.id in rows && rows[c.id].status == PENDING && rows[c.id].claimedBy == None
                  && rows[c.id].claimedAt == None && rows[c.id].leaseUntil == None
                  && rows[c.id].retryCount == old(rows)[c.id].retryCount
      ensures a == Abandon(w) ==> rows == old(rows)
      ensures a == Release(w) ==> rows.Keys == old(rows).Keys && forall id <- rows ::
                  rows[id] == if InHand(events, id) && Releasable(old(rows)[id], w)
                              then ReleasedRow(old(rows)[id]) else old(rows)[id]
    {
      hide Run, Mine;
      ghost var before := S();
      if throws {
        a := Abandon(w);
      } else {
        a := Release(w);
        rows := map id | id in rows ::
          if InHand(events, id) && Releasable(rows[id], w) then ReleasedRow(rows[id]) else rows[id];
      }
      Record(before, a, w);
    }
  }

  // ---------------------------------------------------------------------------
  // The dispatcher
  // ---------------------------------------------------------------------------

  class Dispatcher {
    const workerId: Worker
    const db: Shared
    var isProcessing: bool
    var isShuttingDown: bool

    constructor (workerId: Worker, db: Shared)
      ensures this.workerId == workerId && this.db == db && !isProcessing && !isShuttingDown
    {
      this.workerId, this.db := workerId, db;
      isProcessing, isShuttingDown := false, false;
    }

    /** Others act, and a shutdown may be requested. */
    method Pause(stop: bool)
      requires db.Reached()
      modifies db, this`isShuttingDown
      ensures db.Reached() && old(db.run) <= db.run && (isShuttingDown <==> old(isShuttingDown) || stop)
      ensures Mine(db.run, workerId) == old(Mine(db.run, workerId))
      ensures Hand(db.S(), workerId) == old(Hand(db.S(), workerId))
      ensures old(db.rows.Keys) <= db.rows.Keys
    {
      ghost var before, did := db.S(), db.run;
      db.Interfere(workerId);
      InterferenceLeavesTheHand(before, did, db.run, workerId);
      isShuttingDown := isShuttingDown || stop;
    }

    /** Hands one claimed event to the queue and records the outcome. */
    method DispatchOne(event: Claim, send: Write, complete: Write, fail: Write)
      returns (ok: bool, thrown: bool, ghost seg: seq<Step>)
      requires isProcessing && db.Reached() && HeadIs(db.S(), workerId, Fresh)
      requires Hand(db.S(), workerId)[0] == event && event.id in db.rows
      modifies db, this`isShuttingDown
      ensures isShuttingDown == old(isShuttingDown)
      ensures db.Reached() && old(db.run) <= db.run && old(db.rows.Keys) <= db.rows.Keys
      ensures Mine(db.run, workerId) == old(Mine(db.run, workerId)) + seg
      ensures seg == Outcome(workerId, send, complete, fail)
      ensures ok <==> send == Written && complete == Written
      ensures thrown <==> !Settles(send, complete, fail)
      ensures ok ==> !thrown && Dispatched(seg, workerId)
      ensures !ok && !thrown ==> Refused(seg, workerId) && !Dispatched(seg, workerId)
      ensures thrown ==> 0 < |seg| <= 4 && seg[|seg| - 1] == Abandon(workerId)
      ensures Hand(db.S(), workerId) == if thrown then [] else old(Hand(db.S(), workerId))[1..]
    {
      hide Run, Mine, Next, HandAfter, Hand, CompletedRow, FailedRow, Attempt, Shared.S, Shared.Reached;
      hide Dispatched, Refused;
      OutcomeIs(workerId, send, complete, fail);
      thrown := false;
      ok, seg := HandOver(event, send, complete);
      if !ok {
        var isExhausted := event.retryCount + 1 >= MAX_DISPATCH_ATTEMPTS;
        var written;
        ghost var did;
        written, did := db.MarkFailed(workerId, event.id, isExhausted, DISPATCH_ERROR, fail);
        thrown := !written;
        seg := seg + did;
      }
    }

    /** The try block: send, then complete. */
    method HandOver(event: Claim, send: Write, complete: Write) returns (ok: bool, ghost seg: seq<Step>)
      requires isProcessing && db.Reached() && HeadIs(db.S(), workerId, Fresh)
      requires Hand(db.S(), workerId)[0] == event && event.id in db.rows
      modifies db, this`isShuttingDown
      ensures isShuttingDown == old(isShuttingDown)
      ensures db.Reached() && old(db.run) <= db.run && old(db.rows.Keys) <= db.rows.Keys
      ensures Mine(db.run, workerId) == old(Mine(db.run, workerId)) + seg
      ensures seg == Attempt(workerId, send, complete) && (ok <==> send == Written && complete == Written)
      ensures ok ==> Hand(db.S(), workerId) == old(Hand(db.S(), workerId))[1..]
      ensures !ok ==> exists p | p == Failing || p == Unsure ::
                  Hand(db.S(), workerId) == old(Hand(db.S(), workerId))[0 := event.(phase := p)]
    {
      hide Run, Mine, Next, HandAfter, Hand, CompletedRow, JobKey, Shared.S, Shared.Reached;
      ghost var a;
      ok, a := db.Send(workerId, event.id, send);
      seg := [a];
      Pause(false);
      if ok {
        ok, a := db.MarkCompleted(workerId, event.id, complete);
        seg := seg + [a];
        Pause(false);
      }
    }

    /** Dispatches the claimed events in order, until all are done, a stop, or a write that throws. */
    method DispatchAll(claimed: seq<Claim>, around: Surroundings)
      returns (dispatched: nat, ghost segs: seq<seq<Step>>, ghost end: seq<Step>)
      requires isProcessing && db.Reached() && Hand(db.S(), workerId) == claimed
      requires forall c <- claimed :: c.phase == Fresh && c.id in db.rows
      modifies db, this`isShuttingDown
      ensures db.Reached() && old(db.run) <= db.run && Hand(db.S(), workerId) == []
      ensures Mine(db.run, workerId) == old(Mine(db.run, workerId)) + Flat(segs) + end
      ensures |segs| <= |claimed| && Ending(end, |claimed| - |segs|, workerId)
      ensures dispatched == CountDispatched(segs, workerId)
      // Every event has the outcome its calls have, and the loop goes on while it can.
      ensures HaveOutcomes(segs, workerId, around)
      ensures ContinuesUpTo(around, |segs|)
      ensures |segs| < |claimed| ==> old(isShuttingDown) || !Continues(around, |segs|)
      ensures |segs| < |claimed| && (around.stops(|segs|) || !around.goesOn(|segs|)) ==>
                end == [if around.releaseThrows then Abandon(workerId) else Release(workerId)]
    {
      hide Run, Mine, Next, Hand, Dispatched, Outcome, Continues, Shared.S, Shared.Reached;
      NoSegments(workerId);
      Endings([], 0, workerId);
      assert HaveOutcomes([], workerId, around);
      ContinuesFurther(around, 0);
      hide Flat, CountDispatched, Ending, HaveOutcomes, ContinuesUpTo;
      dispatched, segs, end := 0, [], [];
      var index := 0;
      while index < |claimed|
        invariant 0 <= index <= |claimed| && |segs| == index && end == []
        invariant db.Reached() && old(db.run) <= db.run
        invariant Mine(db.run, workerId) == old(Mine(db.run, workerId)) + Flat(segs)
        invariant dispatched == CountDispatched(segs, workerId)
        invariant Hand(db.S(), workerId) == claimed[index..]
        invariant forall i | 0 <= i < |claimed| :: claimed[i].phase == Fresh && claimed[i].id in db.rows
        invariant HaveOutcomes(segs, workerId, around)
        invariant ContinuesUpTo(around, index)
        invariant isShuttingDown == old(isShuttingDown)
      {
        ghost var seg;
        var ok, goesOn;
        ok, goesOn, seg := DispatchNext(claimed, index, around);
        if !goesOn {
          end := seg;
          return;
        }
        SegmentAdded(segs, seg, workerId);
        OutcomeAdded(segs, seg, workerId, around);
        ContinuesFurther(around, index);
        segs := segs + [seg];
        if ok {
          dispatched := dispatched + 1;
        }
        index := index + 1;
      }
    }

    /** The next event: dispatched, unless the worker is to stop; whether the poll goes on. */
    method DispatchNext(claimed: seq<Claim>, index: nat, around: Surroundings)
      returns (ok: bool, goesOn: bool, ghost seg: seq<Step>)
      requires isProcessing && index < |claimed| && db.Reached() && Hand(db.S(), workerId) == claimed[index..]
      requires claimed[index].phase == Fresh && claimed[index].id in db.rows
      modifies db, this`isShuttingDown
      ensures db.Reached() && old(db.run) <= db.run && old(db.rows.Keys) <= db.rows.Keys
      ensures Mine(db.run, workerId) == old(Mine(db.run, workerId)) + seg
      ensures goesOn <==> !old(isShuttingDown) && Continues(around, index)
      ensures goesOn ==> seg == Outcome(workerId, around.send(index), around.complete(index), around.fail(index))
      ensures goesOn ==> (ok <==> Dispatched(seg, workerId)) && Hand(db.S(), workerId) == claimed[index + 1..]
      ensures goesOn ==> isShuttingDown == old(isShuttingDown)
      ensures !goesOn ==> Ending(seg, |claimed| - index, workerId) && Hand(db.S(), workerId) == []
      ensures old(isShuttingDown) || around.stops(index) || !around.goesOn(index) ==>
                seg == [if around.releaseThrows then Abandon(workerId) else Release(workerId)]
    {
      hide Run, Mine, Next, HandAfter, Dispatched, Refused, Outcome, Shared.S, Shared.Reached;
      hide InHand, Releasable, ReleasedRow;
      Pause(around.stops(index));
      if isShuttingDown || !around.goesOn(index) {
        ghost var last := db.ReleaseUnattempted(workerId, claimed[index..], around.releaseThrows);
        return false, false, [last];
      }
      var thrown;
      ok, thrown, seg := DispatchOne(claimed[index], around.send(index), around.complete(index), around.fail(index));
      goesOn := !thrown;
    }

    /**
      One poll. Whatever the others do in between, the recorded run stays a run of the protocol,
      this worker's part of it is one dispatch cycle, and nothing stays in its hand.
     */
    method PollAndDispatch(around: Surroundings) returns (dispatched: nat, ghost did: seq<Step>)
      requires db.Reached() && (!isProcessing ==> Hand(db.S(), workerId) == [])
      modifies db, this
      ensures db.Reached() && old(db.run) <= db.run
      ensures Mine(db.run, workerId) == old(Mine(db.run, workerId)) + did
      ensures Cycle(did, workerId, dispatched)
      ensures old(isProcessing || isShuttingDown) || !around.queueRuns ==> db.run == old(db.run) && did == []
      // It does nothing else only when the claim throws; when nothing goes wrong it dispatches all it claims.
      ensures !old(isProcessing || isShuttingDown) && around.queueRuns ==> (did == [] <==> around.claimThrows)
      ensures did != [] ==> did[0].ClaimBatch? && did[0].worker == workerId && did[0].locked == around.locked
      ensures did != [] && (forall k: nat | k < |did[0].batch| ::
                around.goesOn(k) && !around.stops(k) && around.send(k) == Written && around.complete(k) == Written) ==>
                dispatched == |did[0].batch| && did == [did[0]] + AllDispatched(workerId, dispatched)
      ensures isProcessing == old(isProcessing)
      ensures !isProcessing ==> Hand(db.S(), workerId) == []
    {
      hide Run, Mine, Next, HandAfter, Hand, Cycle, Flat, CountDispatched, AllDispatched, Outcome, Continues;
      hide Ending, Dispatched, Refused, ClaimedRow, Shared.S, Shared.Reached;
      dispatched, did := 0, [];
      EmptyCycle(workerId);
      if isProcessing || isShuttingDown || !around.queueRuns {
        return;
      }
      isProcessing := true;
      Pause(false);
      var thrown, claimed;
      ghost var a;
      thrown, claimed, a := db.ClaimPending(workerId, around.claimThrows, around.locked);
      if !thrown {
        ghost var segs, end;
        dispatched, segs, end := DispatchAll(claimed, around);
        did := [a] + Flat(segs) + end;
        WholeCycle(a, segs, end, workerId, around);
        CycleOf(a, segs, end, workerId);
      }
      isProcessing := false;
    }
  }
}
