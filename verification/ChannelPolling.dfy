/**
  The polling service of one worker: the tick that starts due polls, and one poll of a channel
  while other workers, the provider and other journal writers act between its statements.
 */
module ChannelPolling {
  import opened Common
  import Outbox
  import Journal
  import opened Polling

  type ChannelId = string

  const MAX_BACKOFF_MS := 300_000
  const MAX_PARALLEL_POLLS := 10

  // ---------------------------------------------------------------------------
  // One worker's part of a run
  // ---------------------------------------------------------------------------

  ghost predicate Own(a: Step, w: Worker) {
    match a
    case Tick(_) => false
    case Arrive(_) => false
    case JournalOther(_, _, _, _) => false
    case Delete => false
    case _ => a.worker == w
  }

  ghost function Mine(run: seq<Step>, w: Worker): seq<Step> {
    if run == [] then []
    else
      var last := run[|run| - 1];
      Mine(run[..|run| - 1], w) + if Own(last, w) then [last] else []
  }

  lemma {:induction false} MineConcat(a: seq<Step>, b: seq<Step>, w: Worker)
    ensures Mine(a + b, w) == Mine(a, w) + Mine(b, w)
    decreases |b|
  {
    if b == [] {
      assert a + b == a;
    } else {
      assert (a + b)[..|a + b| - 1] == a + b[..|b| - 1];
      MineConcat(a, b[..|b| - 1], w);
    }
  }

  /** Steps of others leave a worker's poll alone, and the provider's events stay in place. */
  lemma {:induction false} OthersLeaveThePoll(s: State, run: seq<Step>, w: Worker)
    requires Run(s, run).Some? && Mine(run, w) == []
    ensures var t := Run(s, run).value;
            && (w in t.polls <==> w in s.polls) && (w in s.polls ==> t.polls[w] == s.polls[w])
            && s.stream <= t.stream
    decreases run
  {
    if run != [] {
      assert run == [run[0]] + run[1..];
      MineConcat([run[0]], run[1..], w);
      assert [run[0]][..0] == [];
      OthersLeaveThePoll(Next(s, run[0]), run[1..], w);
    }
  }

  lemma InterferenceLeavesThePoll(origin: State, s: State, run: seq<Step>, more: seq<Step>, w: Worker)
    requires Run(origin, run) == Some(s) && run <= more && Run(origin, more).Some?
    requires Mine(more, w) == Mine(run, w)
    ensures var t := Run(origin, more).value;
            && (w in t.polls <==> w in s.polls) && (w in s.polls ==> t.polls[w] == s.polls[w])
            && s.stream <= t.stream
  {
    var others := more[|run|..];
    assert more == run + others;
    MineConcat(run, others, w);
    RunConcat(origin, run, others);
    OthersLeaveThePoll(s, others, w);
  }

  /** A poll that saved its batch. */
  ghost predicate Saved(did: seq<Step>, w: Worker) {
    |did| == 3 && did[0] == Lease(w) && did[1].Fetch? && did[1].worker == w
    && did[2].Commit? && did[2].worker == w
  }

  /** A poll that threw after taking the lease; a batch whose commit was not reported may be saved. */
  ghost predicate Threw(did: seq<Step>, w: Worker) {
    && 2 <= |did| <= 4 && did[0] == Lease(w)
    && (did[|did| - 1] == Fail(w) || did[|did| - 1] == Crash(w))
    && (|did| > 2 ==> did[1].Fetch? && did[1].worker == w)
    && (|did| > 3 ==> did[2].Commit? && did[2].worker == w)
  }

  /**
    What happens around one poll: how many of the waiting events the provider returns, if it answers,
    how the saving transaction ends, whether the health record is written, whether the lease is released.
   */
  datatype Surroundings = Surroundings(
    returned: Option<nat>, saving: Write, healthRecorded: bool, released: bool)

  /** Everything the poll has to do took effect and was reported. */
  ghost predicate AllWell(around: Surroundings) {
    around.returned.Some? && around.saving == Written && around.healthRecorded
  }

  /** The steps of a poll that got the lease: fetched if there was an answer, saved, released on an error. */
  ghost predicate IsPoll(did: seq<Step>, w: Worker, around: Surroundings) {
    && |did| == (if around.returned.None? then 1 else if around.saving == NotWritten then 2 else 3)
                + (if AllWell(around) then 0 else 1)
    && did[0] == Lease(w)
    && (around.returned.Some? ==> did[1].Fetch? && did[1].worker == w)
    && (around.returned.Some? && around.saving != NotWritten ==> did[2].Commit? && did[2].worker == w)
    && (!AllWell(around) ==> did[|did| - 1] == if around.released then Fail(w) else Crash(w))
  }

  lemma PollEnds(did: seq<Step>, w: Worker, around: Surroundings)
    requires IsPoll(did, w, around)
    ensures if AllWell(around) then Saved(did, w) else Threw(did, w)
    ensures Saved(did, w) ==> AllWell(around)
  {
  }

  // ---------------------------------------------------------------------------
  // The shared channel row, the journal and the provider
  // ---------------------------------------------------------------------------

  class Shared {
    var now: int
    var stream: seq<Journal.EventInput>
    var cursor: nat
    var leaseUntil: Option<int>
    var deleted: bool
    var tables: Journal.Tables
    const account: Journal.Account
    ghost const origin: State
    ghost var reached: nat
    ghost var polls: map<Worker, Poll>
    ghost var run: seq<Step>

    ghost function S(): State
      reads this
    {
      State(now, account, stream, origin.start, reached, cursor, leaseUntil, deleted, tables, polls)
    }

    ghost predicate Reached()
      reads this
    {
      Fresh(origin) && Run(origin, run) == Some(S())
    }

    ghost method Record(before: State, a: Step, w: Worker)
      requires Fresh(origin) && Run(origin, run) == Some(before) && Enabled(before, a) && Own(a, w)
      requires origin.start == before.start
      requires S() == Next(before, a).(reached := reached, polls := polls)
      modifies this`reached, this`polls, this`run
      ensures Reached() && S() == Next(before, a) && run == old(run) + [a]
      ensures Mine(run, w) == old(Mine(run, w)) + [a]
    {
      RunSnoc(origin, run, a);
      assert (run + [a])[..|run|] == run;
      reached, polls := Next(before, a).reached, Next(before, a).polls;
      run := run + [a];
    }

    /** Whatever the others do meanwhile: any steps of the protocol that are not this worker's. */
    method Interfere(w: Worker)
      requires Reached()
      modifies this
      ensures Reached() && old(run) <= run && Mine(run, w) == old(Mine(run, w))
    {
    }

    /** UPDATE … SET sync_lease_expires_at … WHERE not deleted AND the lease is free RETURNING sync_state. */
    method TryLease(w: Worker) returns (leased: bool, from: nat)
      requires Reached() && w !in polls
      modifies this
      ensures Reached() && old(run) <= run && stream == old(stream)
      ensures leased <==> LeaseFree(old(S()))
      ensures leased <==> !old(deleted) && (old(leaseUntil).None? || old(leaseUntil).value < old(now))
      ensures leased ==> leaseUntil == Some(old(now) + 120_000)
      ensures !leased ==> S() == old(S()) && run == old(run)
      ensures leased ==> from == old(cursor) && w in polls && polls[w] == Leased(from)
      ensures leased ==> Mine(run, w) == old(Mine(run, w)) + [Lease(w)]
      ensures leased ==> from <= |stream|
    {
      ghost var before := S();
      StateOk(origin, run);
      leased := !deleted && (leaseUntil.None? || leaseUntil.value < now);
      from := cursor;
      if leased {
        leaseUntil := Some(now + LEASE_MS);
        Record(before, Lease(w), w);
      }
    }

    /** `adapter.pollInbound`: some or all of what follows the cursor. */
    method PollInbound(w: Worker, from: nat, returned: nat) returns (events: seq<Journal.EventInput>, upto: nat)
      requires Reached() && w in polls && polls[w] == Leased(from) && from <= |stream|
      modifies this
      ensures Reached() && old(run) <= run && stream == old(stream)
      ensures from <= upto <= |stream| && events == stream[from..upto]
      ensures upto == if from + returned < |stream| then from + returned else |stream|
      ensures w in polls && polls[w] == Fetched(from, upto)
      ensures Mine(run, w) == old(Mine(run, w)) + [Fetch(w, upto)]
    {
      ghost var before := S();
      upto := if from + returned < |stream| then from + returned else |stream|;
      events := stream[from..upto];
      Record(before, Fetch(w, upto), w);
    }

    /** One transaction: journal the events, save the cursor, clear the lease. */
    method SaveBatch(w: Worker, events: seq<Journal.EventInput>, from: nat, upto: nat)
      returns (accepted: nat, ghost a: Step)
      requires Reached() && w in polls && polls[w] == Fetched(from, upto)
      requires from <= upto <= |stream| && events == stream[from..upto]
      modifies this
      ensures Reached() && old(run) <= run && a.Commit? && a.worker == w && stream == old(stream)
      ensures Mine(run, w) == old(Mine(run, w)) + [a]
      ensures cursor == upto && leaseUntil == None && w !in polls
      ensures accepted == |Journal.NewInputs(old(tables), account, events)|
      ensures forall e <- events :: (account, e.key) in tables.index
    {
      ghost var before := S();
      StateOk(origin, run);
      var ids, outboxIds := GenerateIds(|events|);
      a := Commit(w, ids, outboxIds);
      SaveIsCommit(before, w, ids, outboxIds, from, upto);
      hide *;
      accepted := |Journal.NewInputs(tables, account, events)|;
      tables := Journal.Journaled(tables, account, events, ids, outboxIds, now);
      cursor, leaseUntil := upto, None;
      Record(before, a, w);
    }

    /** The error path's lease release, whose own failure is swallowed. */
    method ReleaseLease(w: Worker, written: bool) returns (ghost a: Step)
      requires Reached()
      modifies this
      ensures Reached() && old(run) <= run && a == (if written then Fail(w) else Crash(w)) && stream == old(stream)
      ensures written ==> leaseUntil == None
      ensures Mine(run, w) == old(Mine(run, w)) + [a] && w !in polls
    {
      ghost var before := S();
      StateOk(origin, run);
      a := if written then Fail(w) else Crash(w);
      if written {
        leaseUntil := None;
      }
      Record(before, a, w);
    }

    /** Stands in for the UUID generator: ids no row has. */
    method GenerateIds(n: nat) returns (ids: seq<Id>, outboxIds: seq<Id>)
      ensures |ids| == n && |outboxIds| == n && Journal.FreshIds(tables, ids, outboxIds)
    {
      ids := IdsOutside(tables.events.Keys, n);
      outboxIds := IdsOutside(tables.outbox.Keys, n);
    }
  }

  /** What the commit step does, column by column. */
  lemma SaveIsCommit(s: State, w: Worker, ids: seq<Id>, outboxIds: seq<Id>, from: nat, upto: nat)
    requires Inv(s) && w in s.polls && s.polls[w] == Fetched(from, upto) && from <= upto <= |s.stream|
    requires |ids| == upto - from && |outboxIds| == upto - from
    requires Journal.FreshIds(s.tables, ids, outboxIds)
    ensures Enabled(s, Commit(w, ids, outboxIds))
    ensures var t := Next(s, Commit(w, ids, outboxIds));
            var events := s.stream[from..upto];
            && t.tables == Journal.Journaled(s.tables, s.account, events, ids, outboxIds, s.now)
            && t == State(s.now, s.account, s.stream, s.start, t.reached, upto, None, s.deleted, t.tables,
                        s.polls - {w})
            && forall e <- events :: (s.account, e.key) in t.tables.index
  {
    hide Journal.Journaled, Journal.NewInputs, Journal.Sound, Journal.FreshIds;
    var events := s.stream[from..upto];
    Journal.NewInputsAreFewer(s.tables, s.account, events);
    JournalingKeeps(s, s.account, events, ids, outboxIds);
  }

  lemma StateOk(s: State, run: seq<Step>)
    requires Fresh(s) && Run(s, run).Some?
    ensures Inv(Run(s, run).value) && Run(s, run).value.start == s.start
  {
    InvHolds(s, run);
  }
}

/** The service object of one worker. */
module ChannelPollingService {
  import opened Common
  import Journal
  import opened Polling
  import opened ChannelPolling

  datatype Schedule = Schedule(nextDueAt: int, failures: nat)

  function Pow2(n: nat): nat {
    if n == 0 then 1 else 2 * Pow2(n - 1)
  }

  function Backoff(interval: nat, failures: nat): (delay: nat)
    ensures delay <= MAX_BACKOFF_MS
    ensures delay == MAX_BACKOFF_MS || delay >= interval
  {
    Pow2Positive(failures);
    var d := interval * Pow2(failures);
    assert d >= interval;
    if d < MAX_BACKOFF_MS then d else MAX_BACKOFF_MS
  }

  lemma Pow2Positive(n: nat)
    ensures Pow2(n) >= 1
  {
  }

  /** The delay starts at the interval, doubles with every further failure, and stops at five minutes. */
  lemma BackoffDoubles(interval: nat, failures: nat)
    ensures Backoff(interval, 0) == if interval < 300_000 then interval else 300_000
    ensures Backoff(interval, failures + 1)
            == if 2 * Backoff(interval, failures) < 300_000 then 2 * Backoff(interval, failures) else 300_000
  {
    Pow2Positive(failures);
    var d := interval * Pow2(failures);
    assert interval * Pow2(failures + 1) == 2 * d;
  }

  class Poller {
    const workerId: Worker
    var schedules: map<ChannelId, Schedule>
    var inFlight: set<ChannelId>
    var stopped: bool

    constructor (workerId: Worker)
      ensures this.workerId == workerId && schedules == map[] && inFlight == {} && !stopped
    {
      this.workerId := workerId;
      schedules, inFlight, stopped := map[], {}, false;
    }

    predicate IsDue(channel: ChannelId, now: int)
      reads this
    {
      channel !in inFlight && (channel !in schedules || schedules[channel].nextDueAt <= now)
    }

    /**
      Starts the due polls, up to the parallel limit; `channels` is the discovered list. Nothing
      already in flight is started again, and a due channel waits only when the limit is reached.
     */
    method Tick(channels: seq<ChannelId>, now: int) returns (started: seq<ChannelId>)
      requires forall i, j | 0 <= i < j < |channels| :: channels[i] != channels[j]
      modifies this`inFlight
      ensures forall i, j | 0 <= i < j < |started| :: started[i] != started[j]
      ensures forall c <- started ::
                && c in channels && c !in old(inFlight)
                && (c in old(schedules) ==> old(schedules)[c].nextDueAt <= now)
      ensures inFlight == old(inFlight) + set c | c in started
      ensures |inFlight| <= 10 || started == []
      ensures stopped ==> started == []
      ensures |inFlight| >= 10 || stopped ||
              forall c <- channels |
                c !in old(inFlight) && (c in old(schedules) ==> old(schedules)[c].nextDueAt <= now) :: c in started
    {
      started := [];
      if stopped {
        return;
      }
      var due := Due(channels, now);
      var room := if MAX_PARALLEL_POLLS > |inFlight| then MAX_PARALLEL_POLLS - |inFlight| else 0;
      var n := if room < |due| then room else |due|;
      started := due[..n];
      assert forall c <- started :: c in due;
      Start(started);
      assert n == |due| ==> started == due;
    }

    method Start(chosen: seq<ChannelId>)
      requires forall i, j | 0 <= i < j < |chosen| :: chosen[i] != chosen[j]
      requires forall c <- chosen :: c !in inFlight
      modifies this`inFlight
      ensures inFlight == old(inFlight) + (set c | c in chosen)
      ensures |inFlight| == |old(inFlight)| + |chosen|
    {
      for i := 0 to |chosen|
        invariant forall c :: c in inFlight <==> c in old(inFlight) || c in chosen[..i]
        invariant |inFlight| == |old(inFlight)| + i
      {
        assert chosen[i] in chosen && chosen[i] !in chosen[..i];
        inFlight := inFlight + {chosen[i]};
      }
      assert chosen[..|chosen|] == chosen;
    }

    method Due(channels: seq<ChannelId>, now: int) returns (due: seq<ChannelId>)
      requires forall i, j | 0 <= i < j < |channels| :: channels[i] != channels[j]
      ensures forall i, j | 0 <= i < j < |due| :: due[i] != due[j]
      ensures forall c :: c in due <==> c in channels && IsDue(c, now)
    {
      due := [];
      for i := 0 to |channels|
        invariant forall i, j | 0 <= i < j < |due| :: due[i] != due[j]
        invariant forall c :: c in due <==> c in channels[..i] && IsDue(c, now)
      {
        if IsDue(channels[i], now) {
          due := due + [channels[i]];
        }
      }
    }

    /**
      Polls one channel. Whatever happens around it, the recorded run stays a run of the protocol,
      and this worker's part of it is nothing, a saved poll, or a poll that threw; the result and
      the schedule say which. `journal` is what the saving transaction found.
     */
    method PollChannel(db: Shared, channel: ChannelId, interval: nat, around: Surroundings)
      returns (accepted: nat, ghost did: seq<Step>, ghost from: nat, ghost journal: Journal.Tables)
      requires db.Reached() && workerId !in db.polls
      modifies db, this`schedules
      ensures db.Reached() && old(db.run) <= db.run && workerId !in db.polls
      ensures Mine(db.run, workerId) == old(Mine(db.run, workerId)) + did
      ensures did == [] || Saved(did, workerId) || Threw(did, workerId)
      ensures did == [] <==> !LeaseFree(old(db.S()))
      ensures did != [] ==> IsPoll(did, workerId, around)
      ensures did != [] && around.returned.Some? && around.saving == Written && around.healthRecorded ==>
                Saved(did, workerId)
      ensures !Saved(did, workerId) ==> accepted == 0
      ensures Saved(did, workerId) ==> from <= did[1].upto <= |db.stream|
      ensures Saved(did, workerId) ==>
                accepted == |Journal.NewInputs(journal, db.account, db.stream[from..did[1].upto])|
      ensures did == [] ==> schedules == old(schedules)
      ensures did != [] ==> channel in schedules && schedules == old(schedules)[channel := schedules[channel]]
      ensures Saved(did, workerId) ==>
                var wait := if did[1].upto - from >= 10 then 1_000 else interval;
                schedules[channel] == Schedule(db.now + wait, 0)
      ensures Threw(did, workerId) ==>
                var failures := (if channel in old(schedules) then old(schedules)[channel].failures else 0) + 1;
                schedules[channel] == Schedule(db.now + Backoff(interval, failures), failures)
    {
      hide Run, Mine, Next, Fresh, Journal.NewInputs, Polling.Inv, Backoff, LeaseFree;
      accepted, did, journal := 0, [], db.tables;
      var leased, cursor := db.TryLease(workerId);
      from := cursor;
      if !leased {
        return;
      }
      did := [Lease(workerId)];
      var schedule := if channel in schedules then schedules[channel] else Schedule(0, 0);
      var ok;
      ghost var seg;
      var fetched;
      ok, fetched, accepted, seg, journal := FetchAndSave(db, cursor, around);
      did := did + seg;
      assert ok <==> AllWell(around);
      if ok {
        PollEnds(did, workerId, around);
        var wait := if fetched >= 10 then 1_000 else interval;
        schedules := schedules[channel := Schedule(db.now + wait, 0)];
      } else {
        ghost var a := db.ReleaseLease(workerId, around.released);
        did := did + [a];
        PollEnds(did, workerId, around);
        var failures := schedule.failures + 1;
        schedules := schedules[channel := Schedule(db.now + Backoff(interval, failures), failures)];
        accepted := 0;
      }
    }

    /** Others act. */
    method Pause(db: Shared)
      requires db.Reached()
      modifies db
      ensures db.Reached() && old(db.run) <= db.run && Mine(db.run, workerId) == old(Mine(db.run, workerId))
      ensures workerId in db.polls <==> workerId in old(db.polls)
      ensures workerId in db.polls ==> db.polls[workerId] == old(db.polls)[workerId]
      ensures old(db.stream) <= db.stream
    {
      ghost var before, did := db.S(), db.run;
      db.Interfere(workerId);
      InterferenceLeavesThePoll(db.origin, before, did, db.run, workerId);
    }

    /** The try block: fetch, save in one transaction, record the channel's health. */
    method FetchAndSave(db: Shared, from: nat, around: Surroundings)
      returns (ok: bool, fetched: nat, accepted: nat, ghost seg: seq<Step>, ghost journal: Journal.Tables)
      requires db.Reached() && workerId in db.polls && db.polls[workerId] == Leased(from)
      requires from <= |db.stream|
      modifies db
      ensures db.Reached() && old(db.run) <= db.run
      ensures Mine(db.run, workerId) == old(Mine(db.run, workerId)) + seg
      ensures |seg| <= 2
      ensures |seg| > 0 ==> seg[0].Fetch? && seg[0].worker == workerId
      ensures |seg| > 1 ==> seg[1].Commit? && seg[1].worker == workerId
      ensures |seg| == if around.returned.None? then 0 else if around.saving == NotWritten then 1 else 2
      ensures ok <==> around.returned.Some? && around.saving == Written && around.healthRecorded
      ensures |seg| == 2 ==> workerId !in db.polls
      ensures |seg| > 0 ==> seg[0] == Fetch(workerId, seg[0].upto)
      ensures |seg| == 2 ==> from <= seg[0].upto <= |db.stream| && fetched == seg[0].upto - from
      ensures |seg| == 2 ==> accepted == |Journal.NewInputs(journal, db.account, db.stream[from..seg[0].upto])|
    {
      hide Run, Mine, Next, Fresh, Polling.Inv, LeaseFree, Journal.NewInputs;
      ok, fetched, accepted, seg, journal := false, 0, 0, [], db.tables;
      Pause(db);
      if around.returned.None? {
        return;
      }
      var events, upto := db.PollInbound(workerId, from, around.returned.value);
      fetched := |events|;
      seg := [Fetch(workerId, upto)];
      Pause(db);
      if around.saving == NotWritten {
        return;
      }
      ghost var a;
      journal := db.tables;
      accepted, a := db.SaveBatch(workerId, events, from, upto);
      seg := seg + [a];
      ghost var stream := db.stream;
      Pause(db);
      assert db.stream[from..upto] == stream[from..upto];
      ok := around.saving == Written && around.healthRecorded;
    }
  }
}
