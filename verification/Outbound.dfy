/**
  Sending one reply: the attempts of its job as a protocol, in which every provider answer and every
  write is a step and receipts and the stuck-message sweep act in between.
 */
module Outbound {
  import opened Common
  import opened DeliveryStatus

  /** `retryLimit` of the queue configuration; a job is attempted this often in all. */
  function AttemptsFor(retryLimit: nat): nat {
    retryLimit + 1
  }

  /** What a handler is told about its attempt. */
  datatype JobView = JobView(retryCount: nat, retryLimit: int)

  function ViewOf(attemptsMade: nat, attempts: nat): JobView {
    JobView(attemptsMade, attempts - 1)
  }

  predicate FinalAttempt(job: JobView) {
    job.retryCount >= job.retryLimit
  }

  predicate IsFinal(s: State) {
    FinalAttempt(ViewOf(s.attemptsMade, AttemptsFor(s.retryLimit)))
  }

  // ---------------------------------------------------------------------------
  // Protocol
  // ---------------------------------------------------------------------------

  /** Where the current attempt stands. */
  datatype Phase = Idle | Calling | Marking | Checking | Failing

  /**
    `accepted` (some attempt's call was accepted), `failedByUs` (a send attempt or the sweep wrote
    FAILED) and `calls` are history. `finished` says that the job's handler returned.
   */
  datatype State = State(
    retryLimit: nat,
    status: Status,
    phase: Phase,
    attemptsMade: nat,
    finished: bool,
    accepted: bool,
    failedByUs: bool,
    calls: nat)

  datatype Step =
    | Begin
    | Reject
    | Accept
    | Refuse(retryable: bool)
    | Mark
    | MarkLost
    | MarkThrows
    | Healthy
    | HealthThrows
    | WriteFail
    | FailLost
    | FailThrows
    | Crash
    | Sweep
    | Receipt(next: Status)

  predicate Enabled(s: State, a: Step) {
    match a
    case Begin => s.phase == Idle && !s.finished && s.attemptsMade < AttemptsFor(s.retryLimit)
    case Reject => s.phase == Calling
    case Accept => s.phase == Calling
    case Refuse(_) => s.phase == Calling
    case Mark => s.phase == Marking
    case MarkLost => s.phase == Marking
    case MarkThrows => s.phase == Marking
    case Healthy => s.phase == Checking
    case HealthThrows => s.phase == Checking
    case WriteFail => s.phase == Failing
    case FailLost => s.phase == Failing
    case FailThrows => s.phase == Failing
    case Crash => s.phase != Idle
    case Sweep => true
    case Receipt(next) => next != PENDING
  }

  function Returned(s: State): State {
    s.(phase := Idle, finished := true)
  }

  function Thrown(s: State): State {
    s.(phase := Idle, attemptsMade := s.attemptsMade + 1)
  }

  /** The catch block: another attempt for a retryable error, unless this was the last. */
  function Caught(s: State, retryable: bool): State {
    if retryable && !IsFinal(s) then Thrown(s) else s.(phase := Failing)
  }

  function Marked(s: State): State {
    s.(status := if s.status == PENDING then SENT else s.status)
  }

  function Failed(s: State): State {
    if s.status == PENDING then s.(status := FAILED, failedByUs := true) else s
  }

  function Next(s: State, a: Step): State
    requires Enabled(s, a)
  {
    match a
    case Begin => if s.status == PENDING then s.(phase := Calling) else Returned(s)
    case Reject => s.(phase := Failing)
    case Accept => s.(phase := Marking, accepted := true, calls := s.calls + 1)
    case Refuse(retryable) => Caught(s.(calls := s.calls + 1), retryable)
    case Mark => Marked(s).(phase := Checking)
    case MarkLost => Caught(Marked(s), true)
    case MarkThrows => Caught(s, true)
    case Healthy => Returned(s)
    case HealthThrows => Caught(s, true)
    case WriteFail => Returned(Failed(s))
    case FailLost => Thrown(Failed(s))
    case FailThrows => Thrown(s)
    case Crash => s.(phase := Idle)
    case Sweep => Failed(s)
    case Receipt(next) => if IsMonotonic(s.status, next) then s.(status := next) else s
  }

  function Run(s: State, run: seq<Step>): Option<State>
    decreases run
  {
    if run == [] then Some(s)
    else if Enabled(s, run[0]) then Run(Next(s, run[0]), run[1..])
    else None
  }

  function Created(retryLimit: nat): State {
    State(retryLimit, PENDING, Idle, 0, false, false, false, 0)
  }

  // ---------------------------------------------------------------------------
  // What decides a reply's fate
  // ---------------------------------------------------------------------------

  /** The writes that take a PENDING reply out of PENDING. */
  predicate Moves(a: Step) {
    a.Mark? || a.MarkLost? || a.Receipt? || WritesFailure(a)
  }

  predicate WritesFailure(a: Step) {
    a.WriteFail? || a.FailLost? || a.Sweep?
  }

  /** The first of those writes in the run is a failure. */
  predicate FirstMoveIsFailure(run: seq<Step>) {
    run != [] && if Moves(run[0]) then WritesFailure(run[0]) else FirstMoveIsFailure(run[1..])
  }

  lemma {:induction false} OutOfPendingForGood(s: State, run: seq<Step>)
    requires s.status != PENDING && Run(s, run).Some?
    ensures var t := Run(s, run).value;
            && t.status != PENDING && t.failedByUs == s.failedByUs
            && (s.status == FAILED ==> t.status == FAILED)
    decreases run
  {
    if run != [] {
      OutOfPendingForGood(Next(s, run[0]), run[1..]);
    }
  }

  lemma {:induction false} FirstMoveDecides(s: State, run: seq<Step>)
    requires s.status == PENDING && !s.failedByUs && Run(s, run).Some?
    ensures var t := Run(s, run).value;
            && (t.failedByUs <==> FirstMoveIsFailure(run)) && (t.failedByUs ==> t.status == FAILED)
            && (t.status == PENDING <==> forall a <- run :: !Moves(a))
    decreases run
  {
    if run != [] {
      assert run == [run[0]] + run[1..];
      var n := Next(s, run[0]);
      if Moves(run[0]) {
        assert run[0] in run;
        OutOfPendingForGood(n, run[1..]);
      } else {
        FirstMoveDecides(n, run[1..]);
      }
    }
  }

  lemma {:induction false} AcceptedMeans(s: State, run: seq<Step>)
    requires Run(s, run).Some?
    ensures Run(s, run).value.accepted <==> s.accepted || Accept in run
    decreases run
  {
    if run != [] {
      assert run == [run[0]] + run[1..];
      AcceptedMeans(Next(s, run[0]), run[1..]);
    }
  }

  /**
    Over all runs of a job, crashes and retried attempts included: a reply some attempt had accepted
    ends failed by a worker exactly when a failure is written before any attempt recorded the
    acceptance and before any receipt arrived.
   */
  lemma AcceptedYetFailedExactlyWhen(retryLimit: nat, run: seq<Step>)
    requires Run(Created(retryLimit), run).Some?
    ensures var t := Run(Created(retryLimit), run).value;
            && (t.accepted && t.failedByUs <==> Accept in run && FirstMoveIsFailure(run))
            && (t.failedByUs ==> t.status == FAILED)
  {
    FirstMoveDecides(Created(retryLimit), run);
    AcceptedMeans(Created(retryLimit), run);
  }

  /** No acceptance goes unrecorded: the write succeeds, and no crash or sweep comes before it. */
  predicate Records(s: State, a: Step) {
    && a != MarkThrows
    && (s.phase == Marking ==> a != Crash)
    && (s.phase == Calling || s.phase == Marking ==> a != Sweep)
  }

  predicate RecordedRun(s: State, run: seq<Step>)
    decreases run
  {
    run == [] || (Enabled(s, run[0]) && Records(s, run[0]) && RecordedRun(Next(s, run[0]), run[1..]))
  }

  predicate RecordedInv(s: State) {
    && (s.phase == Calling || s.phase == Marking ==> !s.failedByUs)
    && (s.failedByUs ==> s.status == FAILED)
    && (s.accepted ==> !s.failedByUs && (s.status != PENDING || s.phase == Marking))
  }

  /** In such runs an accepted reply is never failed by a worker. */
  lemma {:induction false} AcceptedIsNeverFailed(s: State, run: seq<Step>)
    requires RecordedInv(s) && RecordedRun(s, run)
    ensures Run(s, run).Some? && RecordedInv(Run(s, run).value)
    ensures Run(s, run).value.accepted ==> !Run(s, run).value.failedByUs
    decreases run
  {
    if run != [] {
      AcceptedIsNeverFailed(Next(s, run[0]), run[1..]);
    }
  }

  // ---------------------------------------------------------------------------
  // How a job ends
  // ---------------------------------------------------------------------------

  predicate JobInv(s: State) {
    && s.attemptsMade <= AttemptsFor(s.retryLimit)
    && (s.phase != Idle ==> !s.finished && s.attemptsMade < AttemptsFor(s.retryLimit))
    && (s.finished || s.attemptsMade == AttemptsFor(s.retryLimit) || s.phase == Checking ==> s.status != PENDING)
  }

  lemma {:induction false} JobInvHolds(s: State, run: seq<Step>)
    requires JobInv(s) && Run(s, run).Some? && FailThrows !in run
    ensures JobInv(Run(s, run).value) && Run(s, run).value.retryLimit == s.retryLimit
    decreases run
  {
    if run != [] {
      assert run == [run[0]] + run[1..];
      JobInvHolds(Next(s, run[0]), run[1..]);
    }
  }

  /**
    With failure writes that succeed, a job that returned or used all its attempts leaves its reply
    out of PENDING: the final attempt is the last one.
   */
  lemma UsedUpJobsLeavePending(retryLimit: nat, run: seq<Step>)
    requires Run(Created(retryLimit), run).Some? && FailThrows !in run
    ensures var t := Run(Created(retryLimit), run).value;
            && t.attemptsMade <= AttemptsFor(retryLimit)
            && (t.finished || t.attemptsMade == AttemptsFor(retryLimit) ==> t.status != PENDING)
  {
    JobInvHolds(Created(retryLimit), run);
  }

  /** Whatever happens, a job is attempted at most once more than it is retried. */
  lemma {:induction false} AttemptsAreBounded(s: State, run: seq<Step>)
    requires s.attemptsMade <= s.retryLimit + 1 && Run(s, run).Some?
    requires s.phase != Idle ==> s.attemptsMade <= s.retryLimit
    ensures var t := Run(s, run).value;
            && t.attemptsMade <= t.retryLimit + 1 && t.retryLimit == s.retryLimit
            && (Enabled(t, Begin) ==> t.attemptsMade <= t.retryLimit)
    decreases run
  {
    if run != [] {
      AttemptsAreBounded(Next(s, run[0]), run[1..]);
    }
  }

  function Refusals(n: nat): seq<Step> {
    if n == 0 then [] else [Begin, Refuse(true)] + Refusals(n - 1)
  }

  /** A reply whose sending is refused for now is tried that often, and fails with the last refusal. */
  lemma {:induction false} RefusedUntilTheLast(s: State, n: nat)
    requires s.status == PENDING && s.phase == Idle && !s.finished && s.attemptsMade + n == s.retryLimit
    ensures Run(s, Refusals(n)).Some?
    ensures var t := Run(s, Refusals(n)).value;
            && t.status == PENDING && t.attemptsMade == s.retryLimit && t.calls == s.calls + n
            && Run(t, [Begin] + ([Refuse(true)] + ([WriteFail] + []))).Some?
            && var u := Run(t, [Begin] + ([Refuse(true)] + ([WriteFail] + []))).value;
               u.status == FAILED && u.finished && u.calls == s.calls + n + 1
    decreases n
  {
    var calling := s.(phase := Calling);
    if n == 0 {
      var failing := s.(phase := Failing, calls := s.calls + 1);
      RunCons(s, Begin, [Refuse(true)] + ([WriteFail] + []));
      RunCons(calling, Refuse(true), [WriteFail] + []);
      RunCons(failing, WriteFail, []);
    } else {
      var later := s.(attemptsMade := s.attemptsMade + 1, calls := s.calls + 1);
      assert Refusals(n) == [Begin] + ([Refuse(true)] + Refusals(n - 1));
      RunCons(s, Begin, [Refuse(true)] + Refusals(n - 1));
      RunCons(calling, Refuse(true), Refusals(n - 1));
      RefusedUntilTheLast(later, n - 1);
    }
  }

  /** After a reply has left PENDING, no later attempt calls the provider or changes it. */
  lemma {:induction false} SettledRepliesAreLeftAlone(s: State, run: seq<Step>)
    requires s.status != PENDING && s.phase == Idle && Run(s, run).Some?
    ensures var t := Run(s, run).value;
            && t.calls == s.calls && t.phase == Idle && t.status != PENDING
            && ((forall a <- run :: !a.Receipt?) ==> t.status == s.status)
    decreases run
  {
    if run != [] {
      assert run == [run[0]] + run[1..];
      SettledRepliesAreLeftAlone(Next(s, run[0]), run[1..]);
    }
  }

  ghost function Crashes(run: seq<Step>): nat {
    if run == [] then 0 else (if run[0] == Crash then 1 else 0) + Crashes(run[1..])
  }

  function Busy(s: State): nat {
    if s.phase == Marking || s.phase == Checking || s.phase == Failing || s.finished then 1 else 0
  }

  /** The provider is called at most once per attempt, and once more per worker that died. */
  lemma {:induction false} CallsAreBounded(s: State, run: seq<Step>)
    requires Run(s, run).Some? && (s.phase != Idle ==> !s.finished)
    ensures var t := Run(s, run).value;
            t.calls - s.calls <= t.attemptsMade - s.attemptsMade + Crashes(run) + Busy(t) - Busy(s)
    decreases run
  {
    if run != [] {
      CallsAreBounded(Next(s, run[0]), run[1..]);
    }
  }

  // ---------------------------------------------------------------------------
  // Accepted, yet failed
  // ---------------------------------------------------------------------------

  lemma RunCons(s: State, a: Step, rest: seq<Step>)
    requires Enabled(s, a)
    ensures Run(s, [a] + rest) == Run(Next(s, a), rest)
  {
    assert ([a] + rest)[0] == a && ([a] + rest)[1..] == rest;
  }

  /** Recording fails on the first of two attempts, and the second is refused for good. */
  lemma LaterRefusalFailsAcceptedReply() returns (run: seq<Step>)
    ensures Run(Created(1), run).Some?
    ensures var t := Run(Created(1), run).value; t.accepted && t.failedByUs && t.status == FAILED
  {
    var r1 := [Refuse(false)] + ([WriteFail] + []);
    var r2 := [MarkThrows] + ([Begin] + r1);
    run := [Begin] + ([Accept] + r2);
    var s := Created(1);
    RunCons(s, Begin, [Accept] + r2);
    RunCons(s.(phase := Calling), Accept, r2);
    var accepted := s.(phase := Marking, accepted := true, calls := 1);
    RunCons(accepted, MarkThrows, [Begin] + r1);
    var again := accepted.(phase := Idle, attemptsMade := 1);
    RunCons(again, Begin, r1);
    RunCons(again.(phase := Calling), Refuse(false), [WriteFail] + []);
    RunCons(again.(phase := Failing, calls := 2), WriteFail, []);
  }

  /** The worker dies after the provider accepted, and the sweep finds the reply still pending. */
  lemma SweepFailsAcceptedReply(retryLimit: nat) returns (run: seq<Step>)
    ensures Run(Created(retryLimit), run).Some?
    ensures var t := Run(Created(retryLimit), run).value; t.accepted && t.failedByUs && t.status == FAILED
  {
    run := [Begin] + ([Accept] + ([Crash] + ([Sweep] + [])));
    var s := Created(retryLimit);
    RunCons(s, Begin, [Accept] + ([Crash] + ([Sweep] + [])));
    RunCons(s.(phase := Calling), Accept, [Crash] + ([Sweep] + []));
    var accepted := s.(phase := Marking, accepted := true, calls := 1);
    RunCons(accepted, Crash, [Sweep] + []);
    RunCons(accepted.(phase := Idle), Sweep, []);
  }

  // ---------------------------------------------------------------------------
  // The dispatcher
  // ---------------------------------------------------------------------------

  datatype Provider = Accepts(id: Option<string>) | Refuses(retryable: bool, recordsHealth: bool)

  /** What happens around one attempt. */
  datatype Attempt = Attempt(provider: Provider, idTaken: bool, mark: Write, health: bool, fail: Write)

  /** An error that is not the provider's own counts as transient. */
  predicate Retryable(a: Attempt) {
    a.provider.Accepts? || a.provider.retryable
  }

  lemma {:induction false} RunSnoc(s: State, run: seq<Step>, a: Step)
    requires Run(s, run).Some? && Enabled(Run(s, run).value, a)
    ensures Run(s, run + [a]) == Some(Next(Run(s, run).value, a))
    decreases run
  {
    if run == [] {
      assert run + [a] == [a];
      assert Run(Next(s, a), [a][1..]) == Some(Next(s, a));
    } else {
      assert (run + [a])[0] == run[0] && (run + [a])[1..] == run[1..] + [a];
      RunSnoc(Next(s, run[0]), run[1..], a);
    }
  }

  lemma OpeningMoves(s: State)
    ensures Enabled(s, Begin) ==> s.phase == Idle && !s.finished
    ensures Enabled(s, Begin) ==>
              Next(s, Begin) == if s.status == PENDING then s.(phase := Calling) else Returned(s)
    ensures s.phase == Calling ==> Enabled(s, Reject) && Next(s, Reject) == s.(phase := Failing)
  {
  }

  lemma DeliveryMoves(s: State)
    ensures s.phase == Calling ==>
              && Enabled(s, Accept) && Next(s, Accept) == s.(phase := Marking, accepted := true, calls := s.calls + 1)
              && (forall retryable :: Enabled(s, Refuse(retryable))
                    && Next(s, Refuse(retryable)) == Caught(s.(calls := s.calls + 1), retryable))
    ensures s.phase == Checking ==>
              && Enabled(s, Healthy) && Next(s, Healthy) == Returned(s)
              && Enabled(s, HealthThrows) && Next(s, HealthThrows) == Caught(s, true)
  {
  }

  /** The protocol's step for the write that records an acceptance. */
  function MarkStep(write: Write): Step {
    match write
    case Written => Mark
    case Unreported => MarkLost
    case NotWritten => MarkThrows
  }

  /** The protocol's step for a failure write. */
  function FailStep(write: Write): Step {
    match write
    case Written => WriteFail
    case Unreported => FailLost
    case NotWritten => FailThrows
  }

  /**
    What an attempt that reaches the provider does. An acceptance is recorded, and what throws after
    it, like a retryable refusal, is thrown on before the last attempt; any other failure is written.
   */
  ghost predicate Attempted(before: seq<Step>, own: seq<Step>, finalAttempt: bool, a: Attempt, thrown: bool) {
    match a.provider
    case Accepts(_) =>
      if a.mark == Written && a.health then own == before + [Accept, Mark, Healthy] && !thrown
      else
        var recorded := match a.mark
          case Written => [Mark, HealthThrows]
          case Unreported => [MarkLost]
          case NotWritten => [MarkThrows];
        if !finalAttempt then own == before + [Accept] + recorded && thrown
        else own == before + [Accept] + recorded + [FailStep(a.fail)] && (thrown <==> a.fail != Written)
    case Refuses(retryable, recordsHealth) =>
      if retryable && !finalAttempt then own == before + [Refuse(true)] && thrown
      else
        var write := if a.fail == Written && recordsHealth && !a.health then Unreported else a.fail;
        own == before + [Refuse(retryable), FailStep(write)] && (thrown <==> write != Written)
  }

  /** One outbound reply and the job that sends it, with the run that led here and the job's own steps in it. */
  class Reply {
    const retryLimit: nat
    var status: Status
    var providerMessageId: Option<string>
    var channelDeleted: bool
    var contentValid: bool
    ghost var s: State
    ghost var run: seq<Step>
    ghost var own: seq<Step>

    ghost predicate Reached()
      reads this
    {
      Run(Created(retryLimit), run) == Some(s) && s.status == status && s.retryLimit == retryLimit
    }

    constructor (retryLimit: nat)
      ensures Reached() && this.retryLimit == retryLimit && s == Created(retryLimit) && own == []
      ensures status == PENDING && !channelDeleted && contentValid
    {
      this.retryLimit := retryLimit;
      status, providerMessageId, channelDeleted, contentValid := PENDING, None, false, true;
      s, run, own := Created(retryLimit), [], [];
    }

    ghost method Record(a: Step)
      requires Run(Created(retryLimit), run) == Some(s) && s.retryLimit == retryLimit
      requires Enabled(s, a) && Next(s, a).status == status
      modifies `s, `run, `own
      ensures Reached() && s == Next(old(s), a) && run == old(run) + [a] && own == old(own) + [a]
    {
      RunSnoc(Created(retryLimit), run, a);
      s := Next(s, a);
      run, own := run + [a], own + [a];
    }

    /** Receipts, the sweep and channel changes; they leave the attempt where it is. */
    method Others()
      requires Reached()
      modifies this
      ensures Reached() && old(run) <= run && own == old(own)
      ensures s == old(s).(status := s.status, failedByUs := s.failedByUs)
      ensures old(status) != PENDING ==> status != PENDING
      ensures FailThrows in run ==> FailThrows in old(run)
    {
    }

    /** Guarded by PENDING; a provider id already in use is dropped, not the sent state. */
    method MarkSent(id: Option<string>, idTaken: bool, write: Write) returns (thrown: bool)
      requires Reached() && s.phase == Marking
      modifies this
      ensures Reached() && thrown == (write != Written)
      ensures run == old(run) + [MarkStep(write)] && own == old(own) + [MarkStep(write)]
      ensures s == match write
                   case Written => Marked(old(s)).(phase := Checking)
                   case Unreported => Caught(Marked(old(s)), true)
                   case NotWritten => Caught(old(s), true)
      ensures status == if old(status) == PENDING && write != NotWritten then SENT else old(status)
      ensures providerMessageId ==
              if old(status) == PENDING && write != NotWritten then (if idTaken then None else id)
              else old(providerMessageId)
    {
      if write != NotWritten && status == PENDING {
        status := SENT;
        providerMessageId := if id.Some? && idTaken then None else id;
      }
      Record(MarkStep(write));
      thrown := write != Written;
    }

    /** Guarded by PENDING too. */
    method Fail(write: Write) returns (thrown: bool)
      requires Reached() && s.phase == Failing
      modifies `status, `s, `run, `own
      ensures Reached() && thrown == (write != Written)
      ensures run == old(run) + [FailStep(write)] && own == old(own) + [FailStep(write)]
      ensures status == if old(status) == PENDING && write != NotWritten then FAILED else old(status)
      ensures s == if write == Written then Returned(Failed(old(s)))
                   else Thrown(if write == NotWritten then old(s) else Failed(old(s)))
    {
      if write != NotWritten && status == PENDING {
        status := FAILED;
      }
      Record(FailStep(write));
      thrown := write != Written;
    }

    /**
      One attempt: a piece of the protocol's run that ends with the handler returning, or throwing
      and using up the attempt. `own` says which steps it took. A reply that is not PENDING when it is
      read is not touched.
     */
    method Send(finalAttempt: bool, a: Attempt) returns (thrown: bool)
      requires Reached() && Enabled(s, Begin) && (finalAttempt <==> s.attemptsMade >= retryLimit)
      requires a.provider.Accepts? ==> !(a.idTaken && a.provider.id.None?)
      modifies this
      ensures Reached() && old(run) <= run && s.phase == Idle
      ensures if thrown then !s.finished && s.attemptsMade == old(s).attemptsMade + 1
              else s.finished && s.attemptsMade == old(s).attemptsMade
      ensures a.fail != NotWritten && FailThrows !in old(run) ==> FailThrows !in run
      ensures old(status) != PENDING ==> own == old(own) + [Begin] && run == old(run) + [Begin]
      ensures old(status) != PENDING ==> !thrown && status == old(status) && s.calls == old(s).calls
      // Without a channel or with content it cannot send, the reply fails and the provider is not called.
      ensures old(status) == PENDING && (old(channelDeleted) || !old(contentValid)) ==>
                && own == old(own) + [Begin, Reject, FailStep(a.fail)] && s.calls == old(s).calls
                && (thrown <==> a.fail != Written)
      // Otherwise the provider is called once, and its answer and the writes decide.
      ensures old(status) == PENDING && !old(channelDeleted) && old(contentValid) ==>
                s.calls == old(s).calls + 1 && Attempted(old(own) + [Begin], own, finalAttempt, a, thrown)
      ensures !thrown ==> status != PENDING
    {
      hide Run, Next, Enabled, Attempted;
      OpeningMoves(s);
      var deleted, valid := channelDeleted, contentValid;
      Record(Begin);
      if status != PENDING {
        return false;
      }
      Others();
      if deleted || !valid {
        OpeningMoves(s);
        Record(Reject);
        thrown := Fail(a.fail);
        return;
      }
      thrown := TrySending(finalAttempt, a);
    }

    /** The try block and its catch. */
    method TrySending(finalAttempt: bool, a: Attempt) returns (thrown: bool)
      requires Reached() && s.phase == Calling && !s.finished && (finalAttempt <==> s.attemptsMade >= retryLimit)
      requires a.provider.Accepts? ==> !(a.idTaken && a.provider.id.None?)
      modifies this
      ensures Reached() && old(run) <= run && s.phase == Idle
      ensures if thrown then !s.finished && s.attemptsMade == old(s).attemptsMade + 1
              else s.finished && s.attemptsMade == old(s).attemptsMade
      ensures a.fail != NotWritten && FailThrows !in old(run) ==> FailThrows !in run
      ensures s.calls == old(s).calls + 1 && Attempted(old(own), own, finalAttempt, a, thrown)
      ensures !thrown ==> status != PENDING
    {
      hide Run, Next, Enabled;
      var failed := Deliver(a);
      if !failed {
        return false;
      }
      if Retryable(a) && !finalAttempt {
        return true;
      }
      Others();
      thrown := Fail(if a.fail == Written && a.provider.Refuses? && a.provider.recordsHealth && !a.health
                     then Unreported else a.fail);
    }

    /** The try block: the provider's answer, the sent state, the channel's health. */
    method Deliver(a: Attempt) returns (failed: bool)
      requires Reached() && s.phase == Calling
      requires a.provider.Accepts? ==> !(a.idTaken && a.provider.id.None?)
      modifies this
      ensures Reached() && old(run) <= run && s.calls == old(s).calls + 1
      ensures match a.provider
              case Accepts(_) =>
                && own == old(own) + [Accept] +
                     (match a.mark
                      case Written => [Mark, if a.health then Healthy else HealthThrows]
                      case Unreported => [MarkLost]
                      case NotWritten => [MarkThrows])
                && (failed <==> a.mark != Written || !a.health)
                && (!failed ==> status != PENDING)
              case Refuses(retryable, _) => own == old(own) + [Refuse(retryable)] && failed
      ensures failed ==> s.phase == if Retryable(a) && !IsFinal(old(s)) then Idle else Failing
      ensures failed ==> s.finished == old(s).finished
      ensures failed ==> s.attemptsMade == old(s).attemptsMade + if s.phase == Idle then 1 else 0
      ensures !failed ==> s.phase == Idle && s.finished && s.attemptsMade == old(s).attemptsMade
      ensures FailThrows in run ==> FailThrows in old(run)
    {
      hide Run, Next, Enabled;
      DeliveryMoves(s);
      if a.provider.Refuses? {
        Record(Refuse(a.provider.retryable));
        return true;
      }
      Record(Accept);
      Others();
      failed := MarkSent(a.provider.id, a.idTaken, a.mark);
      if !failed {
        Others();
        DeliveryMoves(s);
        Record(if a.health then Healthy else HealthThrows);
        failed := !a.health;
      }
    }

    /** A worker that dies during an attempt. */
    method Die(called: bool)
      requires Reached() && Enabled(s, Begin)
      modifies this
      ensures own == old(own) + if old(status) != PENDING then []
                                else if called then [Begin, Accept, Crash] else [Begin, Crash]
      ensures Reached() && old(run) <= run && Enabled(s, Begin)
      ensures s.attemptsMade == old(s).attemptsMade && s.calls <= old(s).calls + 1
      ensures old(status) != PENDING ==> s.calls == old(s).calls
      ensures FailThrows in run ==> FailThrows in old(run)
    {
      hide Run;
      if status == PENDING {
        Record(Begin);
        if called {
          Record(Accept);
          Others();
        }
        Record(Crash);
      }
    }
  }

  datatype JobEnd = Completed | Exhausted | StalledTooOften

  /**
    The queue's side of one job, one run at a time: an attempt that throws is repeated up to the
    attempt count, a run whose worker dies is repeated without counting as an attempt, up to
    `retryLimit` times. `around`, `dies` and `called` say what happens around the n-th run.
   */
  method WorkJob(reply: Reply, around: nat -> Attempt, dies: nat -> bool, called: nat -> bool)
    returns (end: JobEnd, stalls: nat)
    requires reply.Reached() && reply.s == Created(reply.retryLimit) && FailThrows !in reply.run
    requires forall n :: around(n).provider.Accepts? ==> !(around(n).idTaken && around(n).provider.id.None?)
    modifies reply
    ensures reply.Reached() && stalls <= reply.retryLimit + 1
    ensures end == Completed ==> reply.s.finished
    ensures end == Exhausted ==> reply.s.attemptsMade == AttemptsFor(reply.retryLimit)
    ensures (forall n :: around(n).fail != NotWritten) && end != StalledTooOften ==> reply.status != PENDING
    ensures reply.s.calls <= reply.s.attemptsMade + stalls + if end == Completed then 1 else 0
    // When nothing goes wrong at first, one call sends the reply; the channel's answer to a lost one is final.
    ensures !dies(0) && !old(reply.channelDeleted) && old(reply.contentValid)
            && around(0).provider.Accepts? && around(0).mark == Written && around(0).health ==>
              end == Completed && reply.own == old(reply.own) + [Begin, Accept, Mark, Healthy] && reply.s.calls == 1
    ensures !dies(0) && (old(reply.channelDeleted) || !old(reply.contentValid)) && around(0).fail == Written ==>
              end == Completed && reply.own == old(reply.own) + [Begin, Reject, WriteFail] && reply.s.calls == 0
    ensures (forall n :: !dies(n)) ==> stalls == 0 && end != StalledTooOften
    ensures (forall n :: dies(n)) ==> stalls == reply.retryLimit + 1 && end == StalledTooOften
  {
    hide Run;
    stalls := 0;
    var attemptsMade := 0;
    while attemptsMade < AttemptsFor(reply.retryLimit) && stalls <= reply.retryLimit
      invariant reply.Reached() && attemptsMade == reply.s.attemptsMade <= AttemptsFor(reply.retryLimit)
      invariant stalls <= reply.retryLimit + 1 && reply.s.phase == Idle && !reply.s.finished
      invariant reply.s.retryLimit == reply.retryLimit
      invariant reply.s.calls <= attemptsMade + stalls
      invariant (forall n :: around(n).fail != NotWritten) ==> FailThrows !in reply.run
      invariant (forall n :: !dies(n)) ==> stalls == 0
      invariant (forall n :: dies(n)) ==> attemptsMade == 0
      invariant attemptsMade + stalls == 0 ==>
        && reply.status == PENDING && reply.own == old(reply.own) && reply.s.calls == 0
        && reply.channelDeleted == old(reply.channelDeleted) && reply.contentValid == old(reply.contentValid)
      invariant attemptsMade + stalls > 0 && !dies(0) ==>
        && !(!old(reply.channelDeleted) && old(reply.contentValid)
             && around(0).provider.Accepts? && around(0).mark == Written && around(0).health)
        && !((old(reply.channelDeleted) || !old(reply.contentValid)) && around(0).fail == Written)
      decreases AttemptsFor(reply.retryLimit) - attemptsMade + reply.retryLimit + 1 - stalls
    {
      var n := attemptsMade + stalls;
      if n > 0 {
        reply.Others();
      }
      if dies(n) {
        reply.Die(called(n));
        stalls := stalls + 1;
      } else {
        var job := ViewOf(attemptsMade, AttemptsFor(reply.retryLimit));
        var thrown := reply.Send(FinalAttempt(job), around(n));
        if !thrown {
          LeavesPending(reply, forall n :: around(n).fail != NotWritten);
          return Completed, stalls;
        }
        attemptsMade := attemptsMade + 1;
      }
    }
    LeavesPending(reply, forall n :: around(n).fail != NotWritten);
    end := if attemptsMade == AttemptsFor(reply.retryLimit) then Exhausted else StalledTooOften;
  }

  lemma LeavesPending(reply: Reply, failsSucceed: bool)
    requires reply.Reached() && (failsSucceed ==> FailThrows !in reply.run)
    ensures failsSucceed && (reply.s.finished || reply.s.attemptsMade == AttemptsFor(reply.retryLimit)) ==>
              reply.status != PENDING
  {
    if failsSucceed {
      UsedUpJobsLeavePending(reply.retryLimit, reply.run);
    }
  }
}
