/**
  Delivery statuses of an outbound message, the monotonic transition rule, and what a
  sequence of receipts leaves behind.
 */
module DeliveryStatus {

  datatype Status = PENDING | SENT | DELIVERED | READ | FAILED

  function Rank(s: Status): int {
    match s
    case PENDING => 0
    case SENT => 1
    case DELIVERED => 2
    case READ => 3
    case FAILED => -1
  }

  /** The rule every status change is checked against, in the order the checks are made. */
  predicate IsMonotonic(current: Status, next: Status) {
    if current == next then true
    else if current == READ then false
    else if next == FAILED then current != FAILED
    else if current == FAILED then next == PENDING
    else Rank(next) > Rank(current)
  }

  datatype TransitionResult = TransitionResult(
    accepted: bool,
    isNoop: bool,
    currentStatus: Status,
    finalStatus: Status)

  function ApplyTransition(current: Status, incoming: Status): (r: TransitionResult)
    ensures r.currentStatus == current
    ensures r.isNoop <==> r.finalStatus == current
    ensures r.accepted <==> IsMonotonic(current, incoming)
    ensures r.accepted ==> r.finalStatus == incoming
    ensures current == READ || (current == FAILED && incoming != PENDING) ==> r.isNoop
  {
    if current == incoming then TransitionResult(true, true, current, current)
    else if !IsMonotonic(current, incoming) then TransitionResult(false, true, current, current)
    else TransitionResult(true, false, current, incoming)
  }

  /** How far a status is from the start; both end states are last. */
  function Stage(s: Status): nat {
    match s
    case PENDING => 0
    case SENT => 1
    case DELIVERED => 2
    case READ => 3
    case FAILED => 3
  }

  /** The allowed changes are the forward ones plus the single way back, FAILED to PENDING. */
  lemma ChangesGoForwardOrRestart(current: Status, next: Status)
    requires current != next
    ensures IsMonotonic(current, next) <==>
            (current == FAILED && next == PENDING) || Stage(current) < Stage(next)
  {
  }

  // ---------------------------------------------------------------------------
  // Receipts applied one after another
  // ---------------------------------------------------------------------------

  function ApplyAll(current: Status, receipts: seq<Status>): Status
    decreases |receipts|
  {
    if receipts == [] then current
    else ApplyAll(ApplyTransition(current, receipts[0]).finalStatus, receipts[1..])
  }

  ghost predicate Forward(receipts: seq<Status>) {
    PENDING !in receipts && FAILED !in receipts
  }

  /** READ is final, whatever arrives afterwards. */
  lemma {:induction false} ReadIsFinal(receipts: seq<Status>)
    ensures ApplyAll(READ, receipts) == READ
  {
    if receipts != [] {
      ReadIsFinal(receipts[1..]);
    }
  }

  /** FAILED is left only for PENDING. */
  lemma {:induction false} FailedIsFinal(receipts: seq<Status>)
    requires PENDING !in receipts
    ensures ApplyAll(FAILED, receipts) == FAILED
  {
    if receipts != [] {
      FailedIsFinal(receipts[1..]);
    }
  }

  /** SENT, DELIVERED and READ receipts, in any order and number, end in the maximum status. */
  lemma {:induction false} ReceiptsEndInMaximum(current: Status, receipts: seq<Status>)
    requires current != FAILED && Forward(receipts)
    ensures var last := ApplyAll(current, receipts);
            && last in [current] + receipts
            && (forall r <- [current] + receipts :: Rank(r) <= Rank(last))
    decreases |receipts|
  {
    if receipts != [] {
      var next := ApplyTransition(current, receipts[0]).finalStatus;
      assert receipts == [receipts[0]] + receipts[1..];
      ReceiptsEndInMaximum(next, receipts[1..]);
      assert Rank(next) >= Rank(current) && Rank(next) >= Rank(receipts[0]);
    }
  }

  ghost predicate FailsBeforeRead(receipts: seq<Status>) {
    receipts != [] && receipts[0] != READ &&
    (receipts[0] == FAILED || FailsBeforeRead(receipts[1..]))
  }

  /** With FAILED receipts in the mix, the message ends FAILED exactly when one precedes READ. */
  lemma {:induction false} FailedReceiptsDecideByOrder(current: Status, receipts: seq<Status>)
    requires current != FAILED && current != READ
    requires PENDING !in receipts
    ensures (ApplyAll(current, receipts) == FAILED) <==> FailsBeforeRead(receipts)
    ensures READ in receipts && !FailsBeforeRead(receipts) ==> ApplyAll(current, receipts) == READ
    decreases |receipts|
  {
    if receipts != [] {
      var rest := receipts[1..];
      assert receipts == [receipts[0]] + rest;
      if receipts[0] == READ {
        ReadIsFinal(rest);
      } else if receipts[0] == FAILED {
        FailedIsFinal(rest);
      } else {
        FailedReceiptsDecideByOrder(ApplyTransition(current, receipts[0]).finalStatus, rest);
      }
    }
  }

  ghost predicate OrderInsensitive(receipts: seq<Status>) {
    forall other: seq<Status> | multiset(other) == multiset(receipts) ::
      ApplyAll(PENDING, other) == ApplyAll(PENDING, receipts)
  }

  /** The receipt `r` moved to the front. */
  lemma MoveToFront(receipts: seq<Status>, r: Status) returns (front: seq<Status>)
    requires r in receipts
    ensures multiset(front) == multiset(receipts) && front != [] && front[0] == r
  {
    var i :| 0 <= i < |receipts| && receipts[i] == r;
    front := [r] + receipts[..i] + receipts[i + 1..];
    assert receipts == receipts[..i] + [r] + receipts[i + 1..];
  }

  lemma FailureWithoutRead(receipts: seq<Status>)
    requires FAILED in receipts && READ !in receipts
    ensures FailsBeforeRead(receipts)
  {
    if receipts[0] != FAILED {
      assert receipts == [receipts[0]] + receipts[1..];
      FailureWithoutRead(receipts[1..]);
    }
  }

  lemma SameElements(a: seq<Status>, b: seq<Status>)
    requires multiset(a) == multiset(b)
    ensures forall r :: r in a <==> r in b
  {
    forall r
      ensures r in a <==> r in b
    {
      assert r in a <==> r in multiset(a);
      assert r in b <==> r in multiset(b);
    }
  }

  /** Applied one at a time, receipts commute unless both READ and FAILED are among them. */
  lemma OrderInsensitiveExactlyWhen(receipts: seq<Status>)
    requires PENDING !in receipts
    ensures OrderInsensitive(receipts) <==> !(READ in receipts && FAILED in receipts)
  {
    if READ in receipts && FAILED in receipts {
      var readFirst := MoveToFront(receipts, READ);
      var failedFirst := MoveToFront(receipts, FAILED);
      SameElements(failedFirst, receipts);
      ReadIsFinal(readFirst[1..]);
      FailedIsFinal(failedFirst[1..]);
      assert ApplyAll(PENDING, readFirst) == READ;
      assert ApplyAll(PENDING, failedFirst) == FAILED;
    } else {
      forall other: seq<Status> | multiset(other) == multiset(receipts)
        ensures ApplyAll(PENDING, other) == ApplyAll(PENDING, receipts)
      {
        SameElements(other, receipts);
        if FAILED in receipts {
          FailureWithoutRead(other);
          FailureWithoutRead(receipts);
          FailedReceiptsDecideByOrder(PENDING, other);
          FailedReceiptsDecideByOrder(PENDING, receipts);
        } else {
          ReceiptsEndInMaximum(PENDING, other);
          ReceiptsEndInMaximum(PENDING, receipts);
          var x, y := ApplyAll(PENDING, other), ApplyAll(PENDING, receipts);
          assert x in [PENDING] + receipts && y in [PENDING] + other;
          assert Rank(x) <= Rank(y) <= Rank(x);
        }
      }
    }
  }
}
