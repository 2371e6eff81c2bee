/**
  Polling one channel: workers lease it, fetch what follows the persisted cursor, and save the
  events and the new cursor in one transaction. Leases may expire mid-poll, so polls overlap.
 */
module Polling {
  import opened Common
  import Outbox
  import Journal

  type Worker = string
  type Id = Outbox.Id

  const LEASE_MS := 120_000

  /** A poll in progress: the cursor it started from, and once fetched, the cursor it will save. */
  datatype Poll = Leased(from: nat) | Fetched(from: nat, upto: nat)

  /**
    `stream` is what the provider holds for the channel; a cursor is a position in it. `start` and
    `reached` are history: the first cursor, and the furthest one ever saved.
   */
  datatype State = State(
    now: int,
    account: Journal.Account,
    stream: seq<Journal.EventInput>,
    start: nat,
    reached: nat,
    cursor: nat,
    leaseUntil: Option<int>,
    deleted: bool,
    tables: Journal.Tables,
    polls: map<Worker, Poll>)

  datatype Step =
    | Tick(elapsed: nat)
    | Arrive(event: Journal.EventInput)
    | Delete
    | JournalOther(account: Journal.Account, inputs: seq<Journal.EventInput>,
                   ids: seq<Id>, outboxIds: seq<Id>)
    | Lease(worker: Worker)
    | Fetch(worker: Worker, upto: nat)
    | Commit(worker: Worker, ids: seq<Id>, outboxIds: seq<Id>)
    | Fail(worker: Worker)
    | Crash(worker: Worker)

  /** A deleted channel is never leased. */
  predicate LeaseFree(s: State) {
    !s.deleted && (s.leaseUntil.None? || s.leaseUntil.value < s.now)
  }

  /** The adapter returns every event between the cursor it was given and the one it returns. */
  function FetchedEvents(s: State, p: Poll): seq<Journal.EventInput>
    requires p.Fetched? && p.from <= p.upto <= |s.stream|
  {
    s.stream[p.from..p.upto]
  }

  ghost predicate CanJournal(
    s: State, account: Journal.Account, inputs: seq<Journal.EventInput>, ids: seq<Id>, outboxIds: seq<Id>)
  {
    && Journal.FreshIds(s.tables, ids, outboxIds)
    && |inputs| <= |ids| && |inputs| <= |outboxIds|
    && |Journal.NewInputs(s.tables, account, inputs)| <= |inputs|
  }

  ghost predicate Enabled(s: State, a: Step) {
    match a
    case Tick(_) => true
    case Arrive(e) => !Journal.HasKey(s.stream, e.key)
    case Delete => true
    case JournalOther(account, inputs, ids, outboxIds) => CanJournal(s, account, inputs, ids, outboxIds)
    case Lease(w) => w !in s.polls && LeaseFree(s)
    case Fetch(w, upto) => w in s.polls && s.polls[w].Leased? && s.polls[w].from <= upto <= |s.stream|
    case Commit(w, ids, outboxIds) =>
      && w in s.polls && s.polls[w].Fetched?
      && s.polls[w].from <= s.polls[w].upto <= |s.stream|
      && CanJournal(s, s.account, FetchedEvents(s, s.polls[w]), ids, outboxIds)
    case Fail(_) => true
    case Crash(_) => true
  }

  ghost function Next(s: State, a: Step): State
    requires Enabled(s, a)
  {
    match a
    case Tick(d) => s.(now := s.now + d)
    case Arrive(e) => s.(stream := s.stream + [e])
    case Delete => s.(deleted := true, leaseUntil := None)
    case JournalOther(account, inputs, ids, outboxIds) =>
      s.(tables := Journal.Journaled(s.tables, account, inputs, ids, outboxIds, s.now))
    case Lease(w) => s.(leaseUntil := Some(s.now + LEASE_MS), polls := s.polls[w := Leased(s.cursor)])
    case Fetch(w, upto) => s.(polls := s.polls[w := Fetched(s.polls[w].from, upto)])
    case Commit(w, ids, outboxIds) =>
      var p := s.polls[w];
      s.(tables := Journal.Journaled(s.tables, s.account, FetchedEvents(s, p), ids, outboxIds, s.now),
         cursor := p.upto, leaseUntil := None, polls := s.polls - {w},
         reached := if p.upto > s.reached then p.upto else s.reached)
    case Fail(w) => s.(leaseUntil := None, polls := s.polls - {w})
    case Crash(w) => s.(polls := s.polls - {w})
  }

  ghost function Run(s: State, run: seq<Step>): Option<State>
    decreases run
  {
    if run == [] then Some(s)
    else if Enabled(s, run[0]) then Run(Next(s, run[0]), run[1..])
    else None
  }

  lemma {:induction false} RunConcat(s: State, a: seq<Step>, b: seq<Step>)
    requires Run(s, a).Some?
    ensures Run(s, a + b) == Run(Run(s, a).value, b)
    decreases a
  {
    if a == [] {
      assert a + b == b;
    } else {
      assert (a + b)[0] == a[0] && (a + b)[1..] == a[1..] + b;
      RunConcat(Next(s, a[0]), a[1..], b);
    }
  }

  lemma RunSnoc(s: State, run: seq<Step>, a: Step)
    requires Run(s, run).Some? && Enabled(Run(s, run).value, a)
    ensures Run(s, run + [a]) == Some(Next(Run(s, run).value, a))
  {
    RunConcat(s, run, [a]);
    assert Run(Next(Run(s, run).value, a), [a][1..]) == Some(Next(Run(s, run).value, a));
  }

  // ---------------------------------------------------------------------------
  // The persisted cursor proves a prefix is journaled
  // ---------------------------------------------------------------------------

  ghost predicate Inv(s: State) {
    && s.start <= s.cursor <= s.reached <= |s.stream|
    && Journal.Sound(s.tables)
    && (forall w <- s.polls :: s.start <= s.polls[w].from <= s.reached)
    && (forall w <- s.polls | s.polls[w].Fetched? :: s.polls[w].from <= s.polls[w].upto <= |s.stream|)
    && (forall i | s.start <= i < s.reached :: (s.account, s.stream[i].key) in s.tables.index)
  }

  ghost predicate Fresh(s: State) {
    s.start == s.cursor == s.reached <= |s.stream| && s.polls == map[] && Journal.Sound(s.tables)
  }

  lemma JournalingKeeps(
    s: State, account: Journal.Account, inputs: seq<Journal.EventInput>, ids: seq<Id>, outboxIds: seq<Id>)
    requires Journal.Sound(s.tables) && CanJournal(s, account, inputs, ids, outboxIds)
    ensures var t := Journal.Journaled(s.tables, account, inputs, ids, outboxIds, s.now);
            && Journal.Sound(t)
            && (forall k <- s.tables.index :: k in t.index)
            && (forall e <- inputs :: (account, e.key) in t.index)
  {
    Journal.JournalingKeepsSound(s.tables, account, inputs, ids, outboxIds, s.now);
    Journal.NewInputsAre(s.tables, account, inputs);
    Journal.InsertIndexes(s.tables, account, Journal.NewInputs(s.tables, account, inputs), ids);
  }

  lemma JournalOtherKeeps(s: State, a: Step)
    requires Inv(s) && Enabled(s, a) && a.JournalOther?
    ensures Inv(Next(s, a))
  {
    JournalingKeeps(s, a.account, a.inputs, a.ids, a.outboxIds);
    hide CanJournal, Journal.Journaled, Journal.Sound;
  }

  lemma CoverageGrows(s: State, p: Poll, t: Journal.Tables, i: nat)
    requires p.Fetched? && p.from <= s.reached <= |s.stream| && p.from <= p.upto <= |s.stream|
    requires forall i | s.start <= i < s.reached :: (s.account, s.stream[i].key) in s.tables.index
    requires forall k <- s.tables.index :: k in t.index
    requires forall e <- FetchedEvents(s, p) :: (s.account, e.key) in t.index
    requires s.start <= i && (i < s.reached || i < p.upto)
    ensures (s.account, s.stream[i].key) in t.index
  {
    if s.reached <= i {
      assert s.stream[i] == FetchedEvents(s, p)[i - p.from];
    }
  }

  lemma CommitCovers(s: State, p: Poll, t: Journal.Tables)
    requires p.Fetched? && p.from <= s.reached <= |s.stream| && p.from <= p.upto <= |s.stream|
    requires forall i | s.start <= i < s.reached :: (s.account, s.stream[i].key) in s.tables.index
    requires forall k <- s.tables.index :: k in t.index
    requires forall e <- FetchedEvents(s, p) :: (s.account, e.key) in t.index
    ensures forall i | s.start <= i < s.reached || s.start <= i < p.upto :: (s.account, s.stream[i].key) in t.index
  {
    forall i: nat | s.start <= i && (i < s.reached || i < p.upto)
      ensures (s.account, s.stream[i].key) in t.index
    {
      CoverageGrows(s, p, t, i);
    }
  }

  lemma CommitEffect(s: State, a: Step)
    requires Enabled(s, a) && a.Commit?
    ensures a.worker in s.polls && s.polls[a.worker].Fetched?
    ensures s.polls[a.worker].from <= s.polls[a.worker].upto <= |s.stream|
    ensures var p, t := s.polls[a.worker], Next(s, a);
            var events := FetchedEvents(s, p);
            && CanJournal(s, s.account, events, a.ids, a.outboxIds)
            && t == s.(tables := Journal.Journaled(s.tables, s.account, events, a.ids, a.outboxIds, s.now),
                       cursor := p.upto, leaseUntil := None, polls := s.polls - {a.worker}, reached := t.reached)
            && t.reached == if p.upto > s.reached then p.upto else s.reached
  {
    hide CanJournal, Journal.Journaled, Journal.NewInputs, FetchedEvents;
  }

  lemma SavedStateKeeps(s: State, t: State, w: Worker)
    requires Inv(s) && w in s.polls && s.polls[w].Fetched?
    requires t == s.(tables := t.tables, cursor := s.polls[w].upto, leaseUntil := None,
                     polls := s.polls - {w}, reached := t.reached)
    requires t.reached == if s.polls[w].upto > s.reached then s.polls[w].upto else s.reached
    requires Journal.Sound(t.tables) && forall k <- s.tables.index :: k in t.tables.index
    requires forall e <- FetchedEvents(s, s.polls[w]) :: (s.account, e.key) in t.tables.index
    ensures Inv(t)
  {
    hide Journal.Sound, FetchedEvents;
    CommitCovers(s, s.polls[w], t.tables);
  }

  lemma CommitKeeps(s: State, a: Step)
    requires Inv(s) && Enabled(s, a) && a.Commit?
    ensures Inv(Next(s, a))
  {
    CommitEffect(s, a);
    assert Journal.Sound(s.tables);
    hide *;
    JournalingKeeps(s, s.account, FetchedEvents(s, s.polls[a.worker]), a.ids, a.outboxIds);
    SavedStateKeeps(s, Next(s, a), a.worker);
  }

  lemma InvKept(s: State, a: Step)
    requires Inv(s) && Enabled(s, a)
    ensures Inv(Next(s, a))
  {
    hide CanJournal, Journal.Journaled, Journal.Sound;
    if a.JournalOther? {
      JournalOtherKeeps(s, a);
    } else if a.Commit? {
      CommitKeeps(s, a);
    }
  }

  lemma {:induction false} InvHolds(s: State, run: seq<Step>)
    requires Inv(s) && Run(s, run).Some?
    ensures Inv(Run(s, run).value)
    ensures Run(s, run).value.start == s.start && Run(s, run).value.account == s.account
    decreases run
  {
    if run != [] {
      InvKept(s, run[0]);
      InvHolds(Next(s, run[0]), run[1..]);
    }
  }

  /** Once deleted, a channel is never leased again. */
  lemma {:induction false} DeletedChannelsAreNotLeased(s: State, run: seq<Step>)
    requires Run(s, run).Some? && (s.deleted || Delete in run)
    ensures Run(s, run).value.deleted && forall w :: !Enabled(Run(s, run).value, Lease(w))
    decreases run
  {
    if run != [] {
      assert run == [run[0]] + run[1..];
      hide Journal.Journaled, CanJournal;
      DeletedChannelsAreNotLeased(Next(s, run[0]), run[1..]);
    }
  }

  /** The journal rows of one account with one key. */
  ghost predicate JournaledAs(t: Journal.Tables, id: Id, account: Journal.Account, key: Journal.Key) {
    id in t.events && t.events[id].account == account && t.events[id].input.key == key
  }

  ghost predicate JournaledOnce(t: Journal.Tables, account: Journal.Account, key: Journal.Key) {
    && (exists id :: JournaledAs(t, id, account, key) && Journal.OneRow(t, id))
    && (forall id, other | JournaledAs(t, id, account, key) && JournaledAs(t, other, account, key) ::
          id == other)
  }

  /**
    However many workers polled, crashed or overlapped: every event between the first cursor and
    any cursor ever saved is journaled exactly once and has exactly one outbox row.
   */
  lemma CursorProvesPrefix(s: State, run: seq<Step>, i: nat)
    requires Fresh(s) && Run(s, run).Some?
    requires var t := Run(s, run).value; s.start <= i < t.cursor || s.start <= i < t.reached
    ensures var t := Run(s, run).value;
            && i < |t.stream|
            && t.cursor <= t.reached
            && JournaledOnce(t.tables, s.account, t.stream[i].key)
  {
    InvHolds(s, run);
    var t := Run(s, run).value;
    var k := (t.account, t.stream[i].key);
    assert k in t.tables.index;
    assert JournaledAs(t.tables, t.tables.index[k], s.account, t.stream[i].key);
    assert Journal.OneRow(t.tables, t.tables.index[k]);
  }
}
