/**
  Whether the saved cursor of a polled channel can move back: who holds the current lease, what
  other polls saved since a poll took its own, and which commits lower the cursor.
 */
module PollingCursor {
  import opened Common
  import Journal
  import opened Polling

  /**
    History: the worker whose lease is the last one taken, until a poll saves or fails, and for each
    poll in progress the cursors other polls have saved since it leased.
   */
  datatype Past = Past(holder: Option<Worker>, since: map<Worker, seq<nat>>)

  const NoPast := Past(None, map[])

  ghost function PastAfter(s: State, past: Past, a: Step): Past
    requires Enabled(s, a)
  {
    match a
    case Lease(w) => Past(Some(w), past.since[w := []])
    case Commit(w, _, _) =>
      Past(None, map v | v in past.since && v != w :: past.since[v] + [s.polls[w].upto])
    case Fail(w) => Past(None, past.since - {w})
    case Crash(w) => past.(since := past.since - {w})
    case _ => past
  }

  ghost predicate PastInv(s: State, past: Past) {
    && past.since.Keys == s.polls.Keys
    && (forall w <- s.polls :: s.cursor == LastSaved(s.polls[w].from, past.since[w]))
    && (forall w <- s.polls | s.polls[w].Fetched? :: s.polls[w].from <= s.polls[w].upto)
    && (forall w <- s.polls | past.holder == Some(w) :: past.since[w] == [])
  }

  function LastSaved(from: nat, saved: seq<nat>): nat {
    if saved == [] then from else saved[|saved| - 1]
  }

  lemma PastKept(s: State, past: Past, a: Step)
    requires PastInv(s, past) && Enabled(s, a)
    ensures PastInv(Next(s, a), PastAfter(s, past, a))
  {
    hide CanJournal, Journal.Journaled, FetchedEvents;
  }

  /** Since this poll leased, another one has saved a cursor beyond the one this poll will save. */
  predicate Overtaken(s: State, past: Past, w: Worker)
    requires w in s.polls && s.polls[w].Fetched? && w in past.since
  {
    past.since[w] != [] && past.since[w][|past.since[w]| - 1] > s.polls[w].upto
  }

  /** A step moves the cursor back exactly when it is the commit of a poll that was overtaken. */
  lemma CursorMovesBackExactlyWhen(s: State, past: Past, a: Step)
    requires PastInv(s, past) && Enabled(s, a)
    ensures Next(s, a).cursor < s.cursor <==> a.Commit? && Overtaken(s, past, a.worker)
  {
    hide CanJournal, Journal.Journaled, FetchedEvents;
  }

  /** The cursor is never lowered in a run. */
  ghost predicate Monotone(s: State, run: seq<Step>)
    decreases run
  {
    run == [] || (Enabled(s, run[0]) && s.cursor <= Next(s, run[0]).cursor && Monotone(Next(s, run[0]), run[1..]))
  }

  /** No commit of the run is made by a poll that was overtaken. */
  ghost predicate NoneOvertaken(s: State, past: Past, run: seq<Step>)
    requires PastInv(s, past)
    decreases run
  {
    run == [] ||
    (&& Enabled(s, run[0]) && !(run[0].Commit? && Overtaken(s, past, run[0].worker))
     && (PastKept(s, past, run[0]); NoneOvertaken(Next(s, run[0]), PastAfter(s, past, run[0]), run[1..])))
  }

  /** Over whole runs: the cursor only moves forward in exactly the runs without such a commit. */
  lemma {:induction false} CursorIsMonotoneExactlyWhen(s: State, past: Past, run: seq<Step>)
    requires PastInv(s, past) && Run(s, run).Some?
    ensures Monotone(s, run) <==> NoneOvertaken(s, past, run)
    decreases run
  {
    if run != [] {
      PastKept(s, past, run[0]);
      CursorMovesBackExactlyWhen(s, past, run[0]);
      CursorIsMonotoneExactlyWhen(Next(s, run[0]), PastAfter(s, past, run[0]), run[1..]);
    }
  }

  /** Every commit and every release is made by the poll that holds the current lease. */
  ghost predicate LeasesRespected(s: State, past: Past, run: seq<Step>)
    decreases run
  {
    run == [] ||
    (&& Enabled(s, run[0])
     && (run[0].Commit? || run[0].Fail? ==> past.holder == Some(run[0].worker))
     && LeasesRespected(Next(s, run[0]), PastAfter(s, past, run[0]), run[1..]))
  }

  /** In such runs no poll is overtaken, so the cursor only moves forward. */
  lemma {:induction false} CurrentLeasesKeepCursor(s: State, past: Past, run: seq<Step>)
    requires PastInv(s, past) && LeasesRespected(s, past, run)
    ensures NoneOvertaken(s, past, run) && Monotone(s, run)
    decreases run
  {
    if run != [] {
      PastKept(s, past, run[0]);
      CursorMovesBackExactlyWhen(s, past, run[0]);
      CurrentLeasesKeepCursor(Next(s, run[0]), PastAfter(s, past, run[0]), run[1..]);
    }
  }

  lemma FreshHasNoPast(s: State)
    requires Fresh(s)
    ensures PastInv(s, NoPast)
  {
  }

  /** From a fresh channel: the cursor only moves forward exactly when no commit is overtaken. */
  lemma FromFreshExactlyWhen(s: State, run: seq<Step>)
    requires Fresh(s) && Run(s, run).Some?
    ensures PastInv(s, NoPast)
    ensures Monotone(s, run) <==> NoneOvertaken(s, NoPast, run)
    ensures LeasesRespected(s, NoPast, run) ==> Monotone(s, run)
  {
    FreshHasNoPast(s);
    CursorIsMonotoneExactlyWhen(s, NoPast, run);
    if LeasesRespected(s, NoPast, run) {
      CurrentLeasesKeepCursor(s, NoPast, run);
    }
  }

  // ---------------------------------------------------------------------------
  // A run in which the cursor moves back
  // ---------------------------------------------------------------------------

  lemma OneStep(s: State, a: Step)
    requires Enabled(s, a)
    ensures Run(s, [a]) == Some(Next(s, a))
  {
    assert Run(Next(s, a), [a][1..]) == Some(Next(s, a));
  }

  lemma CommitIsEnabled(s: State, w: Worker, ids: seq<Id>, outboxIds: seq<Id>)
    requires w in s.polls && s.polls[w].Fetched? && s.polls[w].from <= s.polls[w].upto <= |s.stream|
    requires Journal.FreshIds(s.tables, ids, outboxIds)
    requires |ids| == s.polls[w].upto - s.polls[w].from && |outboxIds| == |ids|
    ensures Enabled(s, Commit(w, ids, outboxIds))
  {
    hide Journal.FreshIds, Journal.NewInputs;
    Journal.NewInputsAreFewer(s.tables, s.account, FetchedEvents(s, s.polls[w]));
  }

  /** Ids nobody has used stay unused when a batch is journaled under other ids. */
  lemma OtherIdsStayFresh(s: State, events: seq<Journal.EventInput>, ids: seq<Id>, outboxIds: seq<Id>,
                          more: seq<Id>, moreOutbox: seq<Id>)
    requires Journal.FreshIds(s.tables, ids, outboxIds) && Journal.FreshIds(s.tables, more, moreOutbox)
    requires |events| <= |ids| && |events| <= |outboxIds|
    requires |Journal.NewInputs(s.tables, s.account, events)| <= |events|
    requires (forall id <- more :: id !in ids) && (forall id <- moreOutbox :: id !in outboxIds)
    ensures Journal.FreshIds(Journal.Journaled(s.tables, s.account, events, ids, outboxIds, s.now), more, moreOutbox)
  {
    var n := |Journal.NewInputs(s.tables, s.account, events)|;
    var t := Journal.Journaled(s.tables, s.account, events, ids, outboxIds, s.now);
    Journal.JournaledEvents(s.tables, s.account, events, ids, outboxIds, s.now);
    Journal.JournaledRows(s.tables, s.account, events, ids, outboxIds, s.now);
    hide Journal.Journaled, Journal.NewInputs, Journal.Indexed;
    forall id | id in more
      ensures id !in t.events
    {
      assert forall x <- ids[..n] :: x in ids;
    }
    forall id | id in moreOutbox
      ensures id !in t.outbox
    {
      assert forall x <- outboxIds[..|ids[..n]|] :: x in outboxIds;
    }
  }

  ghost function SlowFetched(s: State, slow: Worker): State {
    s.(leaseUntil := Some(s.now + LEASE_MS), polls := s.polls[slow := Fetched(s.cursor, s.cursor + 1)])
  }

  ghost function FastFetched(s: State, slow: Worker, fast: Worker): State {
    var t := SlowFetched(s, slow);
    t.(now := s.now + LEASE_MS + 1, leaseUntil := Some(s.now + LEASE_MS + 1 + LEASE_MS),
       polls := t.polls[fast := Fetched(s.cursor, s.cursor + 2)])
  }

  lemma SlowFetches(s: State, slow: Worker)
    requires Fresh(s) && LeaseFree(s) && |s.stream| >= s.cursor + 2
    ensures Run(s, [Lease(slow)] + [Fetch(slow, s.cursor + 1)]) == Some(SlowFetched(s, slow))
  {
    OneStep(s, Lease(slow));
    RunConcat(s, [Lease(slow)], [Fetch(slow, s.cursor + 1)]);
    OneStep(Next(s, Lease(slow)), Fetch(slow, s.cursor + 1));
    assert s.polls[slow := Leased(s.cursor)][slow := Fetched(s.cursor, s.cursor + 1)]
           == s.polls[slow := Fetched(s.cursor, s.cursor + 1)];
  }

  lemma FastFetches(s: State, slow: Worker, fast: Worker)
    requires Fresh(s) && !s.deleted && |s.stream| >= s.cursor + 2 && slow != fast
    ensures Run(SlowFetched(s, slow), [Tick(LEASE_MS + 1)] + ([Lease(fast)] + [Fetch(fast, s.cursor + 2)]))
            == Some(FastFetched(s, slow, fast))
  {
    var t := SlowFetched(s, slow);
    var u := t.(now := s.now + LEASE_MS + 1);
    OneStep(t, Tick(LEASE_MS + 1));
    RunConcat(t, [Tick(LEASE_MS + 1)], [Lease(fast)] + [Fetch(fast, s.cursor + 2)]);
    OneStep(u, Lease(fast));
    RunConcat(u, [Lease(fast)], [Fetch(fast, s.cursor + 2)]);
    OneStep(Next(u, Lease(fast)), Fetch(fast, s.cursor + 2));
    assert u.polls[fast := Leased(s.cursor)][fast := Fetched(s.cursor, s.cursor + 2)]
           == u.polls[fast := Fetched(s.cursor, s.cursor + 2)];
  }

  /**
    With overlapping leases the saved cursor moves back: the slow poll is overtaken while it works,
    and its commit, which is enabled, saves the smaller cursor.
   */
  lemma CursorCanMoveBack(s: State, slow: Worker, fast: Worker, ids: seq<Id>, outboxIds: seq<Id>,
                          more: seq<Id>, moreOutbox: seq<Id>)
    returns (run: seq<Step>, last: Step)
    requires Fresh(s) && LeaseFree(s) && slow != fast && |s.stream| >= s.cursor + 2
    requires Journal.FreshIds(s.tables, ids, outboxIds) && |ids| == 2 && |outboxIds| == 2
    requires Journal.FreshIds(s.tables, more, moreOutbox) && |more| == 1 && |moreOutbox| == 1
    requires (forall id <- more :: id !in ids) && (forall id <- moreOutbox :: id !in outboxIds)
    ensures Run(s, run).Some? && Run(s, run).value.cursor == s.cursor + 2
    ensures Enabled(Run(s, run).value, last)
    ensures Next(Run(s, run).value, last).cursor == s.cursor + 1
  {
    var lead := [Lease(slow)] + [Fetch(slow, s.cursor + 1)];
    var chase := [Tick(LEASE_MS + 1)] + ([Lease(fast)] + [Fetch(fast, s.cursor + 2)]);
    SlowFetches(s, slow);
    RunConcat(s, lead, chase);
    FastFetches(s, slow, fast);
    var t := FastFetched(s, slow, fast);
    var a := Commit(fast, ids, outboxIds);
    CommitIsEnabled(t, fast, ids, outboxIds);
    OneStep(t, a);
    RunConcat(s, lead + chase, [a]);
    run, last := lead + chase + [a], Commit(slow, more, moreOutbox);
    OtherIdsStayFresh(t, FetchedEvents(t, t.polls[fast]), ids, outboxIds, more, moreOutbox);
    CommitIsEnabled(Next(t, a), slow, more, moreOutbox);
  }
}
