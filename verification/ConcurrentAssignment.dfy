/**
  Assignment of new conversations by transactions that run at the same time. The sender's lock keeps
  one sender's messages apart; transactions for different senders count, choose and commit in any
  order, so a choice can rest on a table that others have since added to.
 */
module ConcurrentAssignment {
  import opened Common
  import opened Assignment

  /** How far a transaction has come: its count of open conversations, then its choice. */
  datatype Work = Begun | Counted(counted: Table) | Decided(assignee: Option<Agent>)

  /** `began` is the table at the transaction's start: its conversation is created later than those. */
  datatype Txn = Txn(began: Table, work: Work)

  /** The committed conversations, and the transactions that are starting one, by sender. */
  datatype State = State(convs: Table, txns: map<Identity, Txn>)

  datatype Step =
    | Begin(sender: Identity)
    | Count(sender: Identity)
    | Choose(sender: Identity, assignee: Option<Agent>)
    | Commit(sender: Identity, createdAt: int)
    | Abort(sender: Identity)

  predicate At(s: State, sender: Identity) {
    sender in s.txns
  }

  ghost predicate Possible(inbox: Inbox, s: State, a: Step) {
    match a
    case Begin(x) => !At(s, x)
    case Count(x) => At(s, x) && s.txns[x].work.Begun?
    case Choose(x, r) =>
      At(s, x) && s.txns[x].work.Counted? && Chosen(inbox, s.txns[x].work.counted, s.convs, x, r)
    case Commit(x, at) =>
      && At(s, x) && s.txns[x].work.Decided?
      && at > 0 && forall c <- s.txns[x].began :: c.createdAt < at
    case Abort(x) => At(s, x)
  }

  /** At most `limit` transactions run at once. */
  ghost predicate Enabled(inbox: Inbox, limit: nat, s: State, a: Step) {
    Possible(inbox, s, a) && (a.Begin? ==> |s.txns| < limit)
  }

  ghost function Next(inbox: Inbox, s: State, a: Step): State
    requires Possible(inbox, s, a)
  {
    match a
    case Begin(x) => s.(txns := s.txns[x := Txn(s.convs, Begun)])
    case Count(x) => s.(txns := s.txns[x := s.txns[x].(work := Counted(s.convs))])
    case Choose(x, r) => s.(txns := s.txns[x := s.txns[x].(work := Decided(r))])
    case Commit(x, at) => State(Added(inbox, s.convs, Arrival(x, at), s.txns[x].work.assignee), s.txns - {x})
    case Abort(x) => s.(txns := s.txns - {x})
  }

  ghost function Run(inbox: Inbox, limit: nat, s: State, run: seq<Step>): Option<State>
    decreases run
  {
    if run == [] then Some(s)
    else if Enabled(inbox, limit, s, run[0]) then Run(inbox, limit, Next(inbox, s, run[0]), run[1..])
    else None
  }

  /** The agent a step commits a conversation to, if it does. */
  function Assigns(s: State, a: Step): Option<Agent> {
    if a.Commit? && At(s, a.sender) && s.txns[a.sender].work.Decided? then s.txns[a.sender].work.assignee
    else None
  }

  // ---------------------------------------------------------------------------
  // Counting transactions
  // ---------------------------------------------------------------------------

  lemma SubsetSize<T>(a: set<T>, b: set<T>)
    requires a <= b
    ensures |a| <= |b|
  {
    assert b == a + (b - a);
  }

  ghost predicate Eligible(inbox: Inbox, counted: Table, a: Agent) {
    && a in inbox.candidates && IsAvailable(inbox.settings, counted, a)
    && (inbox.settings.distribution == LEAST_ASSIGNED && !inbox.settings.preferredAgent ==>
          forall b <- inbox.candidates :: Load(counted, a) <= Load(counted, b))
  }

  ghost predicate MayTake(inbox: Inbox, work: Work, a: Agent) {
    match work
    case Begun => false
    case Counted(counted) => Eligible(inbox, counted, a)
    case Decided(r) => r == Some(a)
  }

  /** The transactions that have chosen the agent or still may, given what they counted. */
  ghost function Takers(inbox: Inbox, s: State, a: Agent): set<Identity> {
    set x | x in s.txns && MayTake(inbox, s.txns[x].work, a)
  }

  lemma ChosenIsEligible(inbox: Inbox, counted: Table, convs: Table, x: Identity, a: Agent)
    requires Chosen(inbox, counted, convs, x, Some(a))
    ensures Eligible(inbox, counted, a)
  {
    ChosenIsAvailable(inbox, counted, convs, x, Some(a));
    if inbox.settings.distribution == LEAST_ASSIGNED && !inbox.settings.preferredAgent {
      forall b | b in inbox.candidates
        ensures Load(counted, a) <= Load(counted, b)
      {
        LeastIsLeastOfAll(inbox, counted, a, b);
      }
    }
  }

  /** Only a count can make a transaction a taker, and only of an eligible agent. */
  lemma TakersStep(inbox: Inbox, limit: nat, s: State, a: Step, agent: Agent)
    requires Enabled(inbox, limit, s, a)
    ensures var t := Next(inbox, s, a);
            && (a.Count? && Eligible(inbox, s.convs, agent) ==>
                  Takers(inbox, t, agent) <= Takers(inbox, s, agent) + {a.sender})
            && (!(a.Count? && Eligible(inbox, s.convs, agent)) ==>
                  Takers(inbox, t, agent) <= Takers(inbox, s, agent))
            && (Assigns(s, a) == Some(agent) ==>
                  a.sender in Takers(inbox, s, agent) && a.sender !in Takers(inbox, t, agent))
  {
    hide Eligible, Chosen;
    if a.Choose? && a.assignee == Some(agent) {
      ChosenIsEligible(inbox, s.txns[a.sender].work.counted, s.convs, a.sender, agent);
    }
  }

  lemma LoadStep(inbox: Inbox, limit: nat, s: State, a: Step, agent: Agent)
    requires Enabled(inbox, limit, s, a)
    ensures Load(Next(inbox, s, a).convs, agent)
            == Load(s.convs, agent) + if Assigns(s, a) == Some(agent) then 1 else 0
  {
    hide Load, Added, Chosen;
    if a.Commit? {
      LoadAdded(inbox, s.convs, Arrival(a.sender, a.createdAt), s.txns[a.sender].work.assignee, agent);
    }
  }

  lemma TxnsStep(inbox: Inbox, limit: nat, s: State, a: Step)
    requires Enabled(inbox, limit, s, a) && |s.txns| <= limit
    ensures |Next(inbox, s, a).txns| <= limit
    ensures a.Commit? ==> |Next(inbox, s, a).txns| == |s.txns| - 1
  {
    hide Chosen;
    if a.Begin? {
      assert s.txns[a.sender := Txn(s.convs, Begun)].Keys == s.txns.Keys + {a.sender};
      assert |s.txns.Keys| == |s.txns|;
    }
    if a.Commit? || a.Abort? {
      assert (s.txns - {a.sender}).Keys == s.txns.Keys - {a.sender};
      assert |s.txns.Keys| == |s.txns| && |(s.txns - {a.sender}).Keys| == |s.txns - {a.sender}|;
    }
  }

  /** The agent's load, with everything on its way to the agent. */
  ghost function Committed(inbox: Inbox, s: State, a: Agent): nat {
    Load(s.convs, a) + |Takers(inbox, s, a)|
  }

  lemma CommittedStep(inbox: Inbox, limit: nat, s: State, a: Step, agent: Agent)
    requires Enabled(inbox, limit, s, a) && |s.txns| <= limit
    ensures var t := Next(inbox, s, a);
            if a.Count? && Eligible(inbox, s.convs, agent)
            then Committed(inbox, t, agent) <= Load(s.convs, agent) + limit
            else Committed(inbox, t, agent) <= Committed(inbox, s, agent)
  {
    var t := Next(inbox, s, a);
    TakersStep(inbox, limit, s, a, agent);
    LoadStep(inbox, limit, s, a, agent);
    TxnsStep(inbox, limit, s, a);
    hide Eligible, Enabled, Possible, Next, MayTake, Load;
    assert Takers(inbox, t, agent) <= t.txns.Keys;
    SubsetSize(Takers(inbox, t, agent), t.txns.Keys);
    assert |t.txns.Keys| == |t.txns|;
    if Assigns(s, a) == Some(agent) {
      SubsetSize(Takers(inbox, t, agent) + {a.sender}, Takers(inbox, s, agent));
    } else if Takers(inbox, t, agent) <= Takers(inbox, s, agent) {
      SubsetSize(Takers(inbox, t, agent), Takers(inbox, s, agent));
    }
  }

  // ---------------------------------------------------------------------------
  // The cap
  // ---------------------------------------------------------------------------

  lemma {:induction false} CommittedWithinCap(inbox: Inbox, limit: nat, s: State, run: seq<Step>, a: Agent, most: int)
    requires inbox.settings.maxConversationsEnabled && Run(inbox, limit, s, run).Some? && |s.txns| <= limit
    requires Committed(inbox, s, a) <= most && inbox.settings.maxConversationsPerAgent - 1 + limit <= most
    ensures Committed(inbox, Run(inbox, limit, s, run).value, a) <= most
    decreases run
  {
    if run != [] {
      CommittedStep(inbox, limit, s, run[0], a);
      TxnsStep(inbox, limit, s, run[0]);
      hide Enabled, Possible, Next, Committed;
      CommittedWithinCap(inbox, limit, Next(inbox, s, run[0]), run[1..], a, most);
    }
  }

  lemma NothingTaken(inbox: Inbox, s: State, a: Agent)
    requires s.txns == map[]
    ensures Committed(inbox, s, a) == Load(s.convs, a)
  {
    assert Takers(inbox, s, a) == {};
  }

  /**
    The cap under concurrency: with at most `limit` transactions at once no agent ever has more than
    `limit - 1` conversations above the cap, except those the agent had to begin with.
   */
  lemma CapOvershootIsBounded(inbox: Inbox, limit: nat, s: State, run: seq<Step>, a: Agent)
    requires inbox.settings.maxConversationsEnabled
    requires s.txns == map[] && Run(inbox, limit, s, run).Some?
    ensures var load := Load(Run(inbox, limit, s, run).value.convs, a);
            load <= Load(s.convs, a) || load <= inbox.settings.maxConversationsPerAgent + limit - 1
  {
    var most := inbox.settings.maxConversationsPerAgent - 1 + limit;
    NothingTaken(inbox, s, a);
    CommittedWithinCap(inbox, limit, s, run, a, if most < Load(s.convs, a) then Load(s.convs, a) else most);
  }

  // ---------------------------------------------------------------------------
  // Balance
  // ---------------------------------------------------------------------------

  ghost predicate CommittedGap(inbox: Inbox, s: State, gap: int) {
    forall a <- inbox.candidates, b <- inbox.candidates ::
      Committed(inbox, s, a) - Load(s.convs, b) <= gap
  }

  lemma CommittedGapStep(inbox: Inbox, limit: nat, s: State, a: Step, gap: int)
    requires inbox.settings.distribution == LEAST_ASSIGNED && !inbox.settings.preferredAgent
    requires Enabled(inbox, limit, s, a) && |s.txns| <= limit && limit <= gap && CommittedGap(inbox, s, gap)
    ensures CommittedGap(inbox, Next(inbox, s, a), gap)
  {
    var t := Next(inbox, s, a);
    forall x, y | x in inbox.candidates && y in inbox.candidates
      ensures Committed(inbox, t, x) - Load(t.convs, y) <= gap
    {
      CommittedStep(inbox, limit, s, a, x);
      LoadStep(inbox, limit, s, a, y);
      hide Enabled, Possible, Next, Committed, Load;
      assert Committed(inbox, s, x) - Load(s.convs, y) <= gap;
    }
  }

  lemma {:induction false} CommittedGapHolds(inbox: Inbox, limit: nat, s: State, run: seq<Step>, gap: int)
    requires inbox.settings.distribution == LEAST_ASSIGNED && !inbox.settings.preferredAgent
    requires Run(inbox, limit, s, run).Some? && |s.txns| <= limit && limit <= gap && CommittedGap(inbox, s, gap)
    ensures CommittedGap(inbox, Run(inbox, limit, s, run).value, gap)
    decreases run
  {
    if run != [] {
      CommittedGapStep(inbox, limit, s, run[0], gap);
      TxnsStep(inbox, limit, s, run[0]);
      hide Enabled, Possible, Next, CommittedGap;
      CommittedGapHolds(inbox, limit, Next(inbox, s, run[0]), run[1..], gap);
    }
  }

  /**
    Balance under concurrency: the gap between any two candidates' loads stays within the larger of
    the number of concurrent transactions and the gap there was at the start.
   */
  lemma GapIsBounded(inbox: Inbox, limit: nat, s: State, run: seq<Step>, gap: int)
    requires inbox.settings.distribution == LEAST_ASSIGNED && !inbox.settings.preferredAgent
    requires s.txns == map[] && Run(inbox, limit, s, run).Some?
    requires limit <= gap && GapAtMost(inbox, s.convs, gap)
    ensures GapAtMost(inbox, Run(inbox, limit, s, run).value.convs, gap)
  {
    forall a | a in inbox.candidates
      ensures Committed(inbox, s, a) == Load(s.convs, a)
    {
      NothingTaken(inbox, s, a);
    }
    CommittedGapHolds(inbox, limit, s, run, gap);
    var t := Run(inbox, limit, s, run).value;
    forall a, b | a in inbox.candidates && b in inbox.candidates
      ensures Load(t.convs, a) - Load(t.convs, b) <= gap
    {
      assert Committed(inbox, t, a) - Load(t.convs, b) <= gap;
    }
  }

  // ---------------------------------------------------------------------------
  // Turns
  // ---------------------------------------------------------------------------

  function Last(inbox: Inbox, s: State, a: Agent): int {
    LastAssigned(s.convs, inbox.channel, a)
  }

  /** How many conversations the run assigns to these agents. */
  ghost function Turns(inbox: Inbox, s: State, run: seq<Step>, agents: set<Agent>): nat
    decreases run
  {
    if run == [] || !Possible(inbox, s, run[0]) then 0
    else
      var r := Assigns(s, run[0]);
      (if r.Some? && r.value in agents then 1 else 0) + Turns(inbox, Next(inbox, s, run[0]), run[1..], agents)
  }

  /** The run assigns nothing to `b`, although `b` was available whenever it chose. */
  ghost predicate PassedOver(inbox: Inbox, limit: nat, s: State, run: seq<Step>, b: Agent)
    decreases run
  {
    run == [] ||
    (&& Enabled(inbox, limit, s, run[0]) && Assigns(s, run[0]) != Some(b)
     && (run[0].Choose? ==> IsAvailable(inbox.settings, s.txns[run[0].sender].work.counted, b))
     && PassedOver(inbox, limit, Next(inbox, s, run[0]), run[1..], b))
  }

  predicate TurnsByAge(inbox: Inbox) {
    inbox.settings.distribution == ROUND_ROBIN && !inbox.settings.preferredAgent
  }

  /** A conversation moves its assignee's last turn forward, or leaves it; nobody else's moves. */
  lemma LastStep(inbox: Inbox, limit: nat, s: State, a: Step, agent: Agent)
    requires Enabled(inbox, limit, s, a)
    ensures Last(inbox, Next(inbox, s, a), agent) ==
            if Assigns(s, a) == Some(agent) && a.createdAt > Last(inbox, s, agent) then a.createdAt
            else Last(inbox, s, agent)
  {
    hide Chosen;
    if a.Commit? {
      assert Next(inbox, s, a).convs[..|s.convs|] == s.convs;
    }
  }

  /** The transactions whose conversation may still be dated at or before `time`. */
  ghost function Early(s: State, time: int): set<Identity> {
    set x | x in s.txns && time > 0 && forall c <- s.txns[x].began :: c.createdAt < time
  }

  lemma EarlyIsSome(s: State, time: int)
    ensures |Early(s, time)| <= |s.txns|
  {
    assert Early(s, time) <= s.txns.Keys;
    SubsetSize(Early(s, time), s.txns.Keys);
    assert |s.txns.Keys| == |s.txns|;
  }

  /** No step makes a transaction early with respect to a turn that has been taken. */
  lemma EarlyStep(inbox: Inbox, limit: nat, s: State, a: Step, b: Agent)
    requires Enabled(inbox, limit, s, a)
    ensures var time := Last(inbox, s, b);
            && Early(Next(inbox, s, a), time) <= Early(s, time)
            && (a.Commit? ==> a.sender !in Early(Next(inbox, s, a), time))
            && (a.Commit? && a.createdAt <= time ==> a.sender in Early(s, time))
  {
    hide Chosen;
    LastCreatedIsLatest(s.convs, inbox.channel, b);
  }

  /** In every reachable state all but one of the concurrent transactions may be early for `b`. */
  lemma {:induction false} FewAreEarly(inbox: Inbox, limit: nat, s: State, run: seq<Step>, b: Agent)
    requires Run(inbox, limit, s, run).Some? && |s.txns| <= limit
    requires |Early(s, Last(inbox, s, b))| <= limit - 1
    ensures var t := Run(inbox, limit, s, run).value;
            |t.txns| <= limit && |Early(t, Last(inbox, t, b))| <= limit - 1
    decreases run
  {
    if run != [] {
      var t := Next(inbox, s, run[0]);
      EarlyStep(inbox, limit, s, run[0], b);
      LastStep(inbox, limit, s, run[0], b);
      TxnsStep(inbox, limit, s, run[0]);
      hide Enabled, Possible, Next, Early, Last;
      SubsetSize(Early(t, Last(inbox, s, b)), Early(s, Last(inbox, s, b)));
      EarlyIsSome(t, Last(inbox, t, b));
      FewAreEarly(inbox, limit, t, run[1..], b);
    }
  }

  ghost function DecidedFor(s: State, a: Agent): set<Identity> {
    set x | x in s.txns && s.txns[x].work == Decided(Some(a))
  }

  lemma DecidedIsSome(s: State, a: Agent)
    ensures |DecidedFor(s, a)| <= |s.txns|
  {
    assert DecidedFor(s, a) <= s.txns.Keys;
    SubsetSize(DecidedFor(s, a), s.txns.Keys);
    assert |s.txns.Keys| == |s.txns|;
  }

  /** Round robin does not choose an agent whose last turn is later than that of an available one. */
  lemma LaterIsNotChosen(inbox: Inbox, counted: Table, convs: Table, x: Identity, a: Agent, b: Agent)
    requires TurnsByAge(inbox) && b in inbox.candidates && IsAvailable(inbox.settings, counted, b)
    requires Chosen(inbox, counted, convs, x, Some(a))
    ensures LastAssigned(convs, inbox.channel, a) <= LastAssigned(convs, inbox.channel, b)
  {
    var key := TurnKey(convs, inbox.channel);
    var j :| 0 <= j < |inbox.candidates| && inbox.candidates[j] == b;
    assert key(a) <= key(inbox.candidates[j]);
  }

  lemma DecidedStep(inbox: Inbox, limit: nat, s: State, step: Step, a: Agent, b: Agent)
    requires TurnsByAge(inbox) && b in inbox.candidates && Enabled(inbox, limit, s, step)
    requires step.Choose? ==> IsAvailable(inbox.settings, s.txns[step.sender].work.counted, b)
    requires Last(inbox, s, a) > Last(inbox, s, b)
    ensures DecidedFor(Next(inbox, s, step), a) <= DecidedFor(s, a)
    ensures Assigns(s, step) == Some(a) ==>
              step.sender in DecidedFor(s, a) && step.sender !in DecidedFor(Next(inbox, s, step), a)
  {
    hide Chosen, IsAvailable, LastAssigned;
    if step.Choose? && step.assignee == Some(a) {
      LaterIsNotChosen(inbox, s.txns[step.sender].work.counted, s.convs, step.sender, a, b);
    }
  }

  /** Once an agent's last turn is later than `b`'s, it gets only what is already decided. */
  lemma {:induction false} OnlyDecidedTurns(inbox: Inbox, limit: nat, s: State, run: seq<Step>, a: Agent, b: Agent)
    requires TurnsByAge(inbox) && b in inbox.candidates && PassedOver(inbox, limit, s, run, b)
    requires Last(inbox, s, a) > Last(inbox, s, b)
    ensures Turns(inbox, s, run, {a}) <= |DecidedFor(s, a)|
    decreases run
  {
    if run != [] {
      var t := Next(inbox, s, run[0]);
      LastStep(inbox, limit, s, run[0], a);
      LastStep(inbox, limit, s, run[0], b);
      DecidedStep(inbox, limit, s, run[0], a, b);
      hide Enabled, Possible, Next, DecidedFor, Last;
      OnlyDecidedTurns(inbox, limit, t, run[1..], a, b);
      if Assigns(s, run[0]) == Some(a) {
        SubsetSize(DecidedFor(t, a) + {run[0].sender}, DecidedFor(s, a));
      } else {
        SubsetSize(DecidedFor(t, a), DecidedFor(s, a));
      }
    }
  }

  lemma {:induction false} TurnsWhilePassedOver(inbox: Inbox, limit: nat, s: State, run: seq<Step>, a: Agent, b: Agent)
    requires TurnsByAge(inbox) && b in inbox.candidates && a != b && PassedOver(inbox, limit, s, run, b)
    requires |s.txns| <= limit
    ensures Turns(inbox, s, run, {a}) <= |Early(s, Last(inbox, s, b))| + limit
    decreases run
  {
    if Last(inbox, s, a) > Last(inbox, s, b) {
      OnlyDecidedTurns(inbox, limit, s, run, a, b);
      DecidedIsSome(s, a);
    } else if run != [] {
      TurnsAfterStep(inbox, limit, s, run, a, b);
      hide Enabled, Possible, Next, Early, Last;
      var t, time := Next(inbox, s, run[0]), Last(inbox, s, b);
      if Assigns(s, run[0]) == Some(a) && run[0].createdAt > time {
        OnlyDecidedTurns(inbox, limit, t, run[1..], a, b);
        DecidedIsSome(t, a);
      } else {
        TurnsWhilePassedOver(inbox, limit, t, run[1..], a, b);
        if Assigns(s, run[0]) == Some(a) {
          SubsetSize(Early(t, time) + {run[0].sender}, Early(s, time));
        } else {
          SubsetSize(Early(t, time), Early(s, time));
        }
      }
    }
  }

  lemma TurnsAfterStep(inbox: Inbox, limit: nat, s: State, run: seq<Step>, a: Agent, b: Agent)
    requires run != [] && a != b && PassedOver(inbox, limit, s, run, b) && |s.txns| <= limit
    requires Last(inbox, s, a) <= Last(inbox, s, b)
    ensures Enabled(inbox, limit, s, run[0])
    ensures var t, time := Next(inbox, s, run[0]), Last(inbox, s, b);
            && Last(inbox, t, b) == time && PassedOver(inbox, limit, t, run[1..], b)
            && |t.txns| <= limit && (run[0].Commit? ==> |t.txns| < limit)
            && Turns(inbox, s, run, {a})
               == (if Assigns(s, run[0]) == Some(a) then 1 else 0) + Turns(inbox, t, run[1..], {a})
            && Early(t, time) <= Early(s, time)
            && (Assigns(s, run[0]) == Some(a) ==> run[0].Commit?)
            && (Assigns(s, run[0]) == Some(a) && run[0].createdAt > time ==> Last(inbox, t, a) > time)
            && (Assigns(s, run[0]) == Some(a) && run[0].createdAt <= time ==>
                  run[0].sender in Early(s, time) && run[0].sender !in Early(t, time))
  {
    EarlyStep(inbox, limit, s, run[0], b);
    LastStep(inbox, limit, s, run[0], a);
    LastStep(inbox, limit, s, run[0], b);
    TxnsStep(inbox, limit, s, run[0]);
    hide Next, Early, Last, Chosen;
  }

  /**
    Turns under concurrency: while an available candidate gets nothing, nobody else gets more than
    `2 * limit - 1` conversations; one at a time, nobody gets a second turn before everybody else.
   */
  lemma TurnsAreShared(inbox: Inbox, limit: nat, s: State, before: seq<Step>, window: seq<Step>, a: Agent, b: Agent)
    requires TurnsByAge(inbox) && b in inbox.candidates && a != b && limit >= 1
    requires s.txns == map[] && Run(inbox, limit, s, before).Some?
    requires PassedOver(inbox, limit, Run(inbox, limit, s, before).value, window, b)
    ensures Turns(inbox, Run(inbox, limit, s, before).value, window, {a}) <= 2 * limit - 1
  {
    assert Early(s, Last(inbox, s, b)) == {};
    FewAreEarly(inbox, limit, s, before, b);
    TurnsWhilePassedOver(inbox, limit, Run(inbox, limit, s, before).value, window, a, b);
  }

  lemma {:induction false} TurnsAdd(inbox: Inbox, s: State, run: seq<Step>, some: set<Agent>, a: Agent)
    requires a !in some
    ensures Turns(inbox, s, run, some + {a}) == Turns(inbox, s, run, some) + Turns(inbox, s, run, {a})
    decreases run
  {
    if run != [] && Possible(inbox, s, run[0]) {
      TurnsAdd(inbox, Next(inbox, s, run[0]), run[1..], some, a);
    }
  }

  lemma {:induction false} TurnsOfNobody(inbox: Inbox, s: State, run: seq<Step>)
    ensures Turns(inbox, s, run, {}) == 0
    decreases run
  {
    if run != [] && Possible(inbox, s, run[0]) {
      TurnsOfNobody(inbox, Next(inbox, s, run[0]), run[1..]);
    }
  }

  lemma OneMore(n: nat, k: nat)
    ensures (n + 1) * k == n * k + k
  {
  }

  /** Nobody starves: an available candidate is passed over at most that often for each of the others. */
  lemma {:induction false} WaitIsBounded(inbox: Inbox, limit: nat, s: State, before: seq<Step>, window: seq<Step>,
                                         others: set<Agent>, b: Agent)
    requires TurnsByAge(inbox) && b in inbox.candidates && b !in others && limit >= 1
    requires s.txns == map[] && Run(inbox, limit, s, before).Some?
    requires PassedOver(inbox, limit, Run(inbox, limit, s, before).value, window, b)
    ensures Turns(inbox, Run(inbox, limit, s, before).value, window, others) <= |others| * (2 * limit - 1)
    decreases others
  {
    hide *;
    var t := Run(inbox, limit, s, before).value;
    if others == {} {
      TurnsOfNobody(inbox, t, window);
    } else {
      var a :| a in others;
      var rest := others - {a};
      assert others == rest + {a};
      WaitIsBounded(inbox, limit, s, before, window, rest, b);
      TurnsAreShared(inbox, limit, s, before, window, a, b);
      TurnsAdd(inbox, t, window, rest, a);
      OneMore(|rest|, 2 * limit - 1);
    }
  }

  // ---------------------------------------------------------------------------
  // Runs that reach the bounds
  // ---------------------------------------------------------------------------

  /** The run leads to `t` with `n` conversations for `a`, and without a cap it passes `b` over. */
  ghost predicate Leads(inbox: Inbox, limit: nat, s: State, run: seq<Step>, t: State, a: Agent, n: nat, b: Agent) {
    && Run(inbox, limit, s, run) == Some(t) && Turns(inbox, s, run, {a}) == n
    && (!inbox.settings.maxConversationsEnabled ==> PassedOver(inbox, limit, s, run, b))
  }

  lemma {:induction false} LeadsOn(inbox: Inbox, limit: nat, s: State, run: seq<Step>, t: State, n: nat,
                                   more: seq<Step>, u: State, m: nat, a: Agent, b: Agent)
    requires Leads(inbox, limit, s, run, t, a, n, b) && Leads(inbox, limit, t, more, u, a, m, b)
    ensures Leads(inbox, limit, s, run + more, u, a, n + m, b)
    decreases run
  {
    if run == [] {
      assert run + more == more;
    } else {
      assert (run + more)[0] == run[0] && (run + more)[1..] == run[1..] + more;
      var first := if Assigns(s, run[0]) == Some(a) then 1 else 0;
      LeadsOn(inbox, limit, Next(inbox, s, run[0]), run[1..], t, n - first, more, u, m, a, b);
    }
  }

  lemma OneStep(inbox: Inbox, limit: nat, s: State, step: Step, a: Agent, b: Agent)
    requires Enabled(inbox, limit, s, step) && Assigns(s, step) != Some(b)
    ensures Leads(inbox, limit, s, [step], Next(inbox, s, step), a, if Assigns(s, step) == Some(a) then 1 else 0, b)
  {
    var t := Next(inbox, s, step);
    assert [step][1..] == [];
    NoStep(inbox, limit, t, a, b);
    hide Chosen, Load;
  }

  lemma NoStep(inbox: Inbox, limit: nat, s: State, a: Agent, b: Agent)
    ensures Leads(inbox, limit, s, [], s, a, 0, b)
  {
  }

  /** Each sender has a name of its own. */
  function Sender(i: nat): Identity {
    seq(i, _ => 'x')
  }

  /** Transactions for the senders from `first` on, all of which chose the agent. */
  ghost function Gathered(began: Table, a: Agent, first: nat, k: nat): map<Identity, Txn> {
    if k == 0 then map[]
    else Gathered(began, a, first, k - 1)[Sender(first + k - 1) := Txn(began, Decided(Some(a)))]
  }

  lemma {:induction false} GatheredAre(began: Table, a: Agent, first: nat, k: nat)
    ensures var g := Gathered(began, a, first, k);
            && |g| == k && (forall x <- g :: |x| < first + k)
            && (k > 0 ==> Sender(first + k - 1) in g && g[Sender(first + k - 1)] == Txn(began, Decided(Some(a)))
                          && g - {Sender(first + k - 1)} == Gathered(began, a, first, k - 1))
  {
    if k > 0 {
      GatheredAre(began, a, first, k - 1);
      assert |Sender(first + k - 1)| == first + k - 1;
    }
  }

  ghost predicate ChosenForAll(inbox: Inbox, convs: Table, a: Agent) {
    forall x: Identity :: Chosen(inbox, convs, convs, x, Some(a))
  }

  /** A transaction for a sender without one begins, counts and chooses. */
  lemma ChoosesOne(inbox: Inbox, limit: nat, s: State, x: Identity, c: Agent, a: Agent, b: Agent)
    returns (run: seq<Step>)
    requires |s.txns| < limit && x !in s.txns && ChosenForAll(inbox, s.convs, c)
    ensures Leads(inbox, limit, s, run, State(s.convs, s.txns[x := Txn(s.convs, Decided(Some(c)))]), a, 0, b)
  {
    hide Chosen;
    var s1 := s.(txns := s.txns[x := Txn(s.convs, Begun)]);
    var s2 := s.(txns := s.txns[x := Txn(s.convs, Counted(s.convs))]);
    var s3 := s.(txns := s.txns[x := Txn(s.convs, Decided(Some(c)))]);
    assert s1.txns[x := Txn(s.convs, Counted(s.convs))] == s2.txns;
    assert s2.txns[x := Txn(s.convs, Decided(Some(c)))] == s3.txns;
    OneStep(inbox, limit, s, Begin(x), a, b);
    OneStep(inbox, limit, s1, Count(x), a, b);
    OneStep(inbox, limit, s2, Choose(x, Some(c)), a, b);
    assert Next(inbox, s, Begin(x)) == s1;
    assert Next(inbox, s1, Count(x)) == s2;
    assert Next(inbox, s2, Choose(x, Some(c))) == s3;
    hide Leads, Next, Possible, Enabled;
    LeadsOn(inbox, limit, s, [Begin(x)], s1, 0, [Count(x)], s2, 0, a, b);
    LeadsOn(inbox, limit, s, [Begin(x)] + [Count(x)], s2, 0, [Choose(x, Some(c))], s3, 0, a, b);
    run := [Begin(x)] + [Count(x)] + [Choose(x, Some(c))];
  }

  lemma {:induction false} Gathers(inbox: Inbox, limit: nat, convs: Table, a: Agent, first: nat, k: nat, b: Agent)
    returns (run: seq<Step>)
    requires k <= limit && ChosenForAll(inbox, convs, a)
    ensures Leads(inbox, limit, State(convs, map[]), run, State(convs, Gathered(convs, a, first, k)), a, 0, b)
  {
    hide ChosenForAll, Leads;
    if k == 0 {
      run := [];
      NoStep(inbox, limit, State(convs, map[]), a, b);
    } else {
      run := Gathers(inbox, limit, convs, a, first, k - 1, b);
      GatheredAre(convs, a, first, k - 1);
      var s := State(convs, Gathered(convs, a, first, k - 1));
      assert |Sender(first + k - 1)| == first + k - 1;
      var more := ChoosesOne(inbox, limit, s, Sender(first + k - 1), a, a, b);
      LeadsOn(inbox, limit, State(convs, map[]), run, s, 0,
              more, State(convs, Gathered(convs, a, first, k)), 0, a, b);
      run := run + more;
    }
  }

  /** What committing conversations of one agent at one time changes. */
  ghost predicate Gained(inbox: Inbox, convs: Table, after: Table, a: Agent, k: nat, time: int) {
    && (forall c :: Load(after, c) == Load(convs, c) + if c == a then k else 0)
    && (forall c | c != a :: LastAssigned(after, inbox.channel, c) == LastAssigned(convs, inbox.channel, c))
    && (forall c <- after :: c in convs || c.createdAt == time)
    && LastAssigned(after, inbox.channel, a)
       == if k > 0 && time > LastAssigned(convs, inbox.channel, a) then time
          else LastAssigned(convs, inbox.channel, a)
  }

  lemma GainsOne(inbox: Inbox, convs: Table, x: Identity, a: Agent, time: int)
    requires time > 0
    ensures Gained(inbox, convs, Added(inbox, convs, Arrival(x, time), Some(a)), a, 1, time)
  {
    var after := Added(inbox, convs, Arrival(x, time), Some(a));
    assert after[..|convs|] == convs;
  }

  lemma {:induction false} Settles(inbox: Inbox, limit: nat, convs: Table, began: Table, a: Agent, first: nat,
                                   k: nat, time: int, b: Agent)
    returns (run: seq<Step>, after: Table)
    requires a != b && time > 0 && forall c <- began :: c.createdAt < time
    ensures Leads(inbox, limit, State(convs, Gathered(began, a, first, k)), run, State(after, map[]), a, k, b)
    ensures Gained(inbox, convs, after, a, k, time)
    decreases k
  {
    var s := State(convs, Gathered(began, a, first, k));
    if k == 0 {
      run, after := [], convs;
      NoStep(inbox, limit, s, a, b);
    } else {
      var x := Sender(first + k - 1);
      GatheredAre(began, a, first, k);
      var added := Added(inbox, convs, Arrival(x, time), Some(a));
      var t := State(added, Gathered(began, a, first, k - 1));
      OneStep(inbox, limit, s, Commit(x, time), a, b);
      assert Next(inbox, s, Commit(x, time)) == t;
      GainsOne(inbox, convs, x, a, time);
      hide Leads, Load, LastAssigned, Added, Gathered, Enabled, Possible, Next;
      var more;
      more, after := Settles(inbox, limit, added, began, a, first, k - 1, time, b);
      LeadsOn(inbox, limit, s, [Commit(x, time)], t, 1, more, State(after, map[]), k - 1, a, b);
      run := [Commit(x, time)] + more;
    }
  }

  /** All transactions the limit allows count the same table, choose the same agent, and commit. */
  lemma Burst(inbox: Inbox, limit: nat, convs: Table, a: Agent, first: nat, time: int, b: Agent)
    returns (run: seq<Step>, after: Table)
    requires a != b && time > 0 && (forall c <- convs :: c.createdAt < time) && ChosenForAll(inbox, convs, a)
    ensures Leads(inbox, limit, State(convs, map[]), run, State(after, map[]), a, limit, b)
    ensures Gained(inbox, convs, after, a, limit, time)
  {
    hide Leads, Gained, ChosenForAll, Gathered;
    var s := State(convs, Gathered(convs, a, first, limit));
    var gathering := Gathers(inbox, limit, convs, a, first, limit, b);
    var settling;
    settling, after := Settles(inbox, limit, convs, convs, a, first, limit, time, b);
    LeadsOn(inbox, limit, State(convs, map[]), gathering, s, 0, settling, State(after, map[]), limit, a, b);
    run := gathering + settling;
  }

  ghost function RuleKey(inbox: Inbox, convs: Table): Agent -> int {
    if inbox.settings.distribution == LEAST_ASSIGNED then LoadKey(convs) else TurnKey(convs, inbox.channel)
  }

  /** The first available candidate with the least key is chosen for every sender. */
  lemma FirstLeastIsChosen(inbox: Inbox, convs: Table, i: nat)
    requires inbox.settings.distribution != MANUAL && !inbox.settings.preferredAgent
    requires i < |inbox.candidates| && IsAvailable(inbox.settings, convs, inbox.candidates[i])
    requires var key := RuleKey(inbox, convs);
             forall j | 0 <= j < |inbox.candidates| ::
               && key(inbox.candidates[i]) <= key(inbox.candidates[j])
               && (j < i ==> key(inbox.candidates[i]) < key(inbox.candidates[j]))
    ensures ChosenForAll(inbox, convs, inbox.candidates[i])
  {
    hide IsAvailable, LoadKey, TurnKey;
    assert IsFirstLeast(inbox, convs, RuleKey(inbox, convs), inbox.candidates[i]);
    assert !NoneAvailable(inbox, convs);
  }

  /** With one candidate just below the cap, the overshoot is reached, for every limit. */
  lemma CapOvershootIsReached(inbox: Inbox, limit: nat, convs: Table, a: Agent, time: int)
    returns (run: seq<Step>)
    requires inbox.settings.maxConversationsEnabled && inbox.settings.distribution == LEAST_ASSIGNED
    requires !inbox.settings.preferredAgent && inbox.candidates == [a]
    requires Load(convs, a) == inbox.settings.maxConversationsPerAgent - 1
    requires time > 0 && forall c <- convs :: c.createdAt < time
    ensures Run(inbox, limit, State(convs, map[]), run).Some?
    ensures Load(Run(inbox, limit, State(convs, map[]), run).value.convs, a)
            == inbox.settings.maxConversationsPerAgent + limit - 1
  {
    FirstLeastIsChosen(inbox, convs, 0);
    var after;
    run, after := Burst(inbox, limit, convs, a, 0, time, a + "x");
  }

  /** With two candidates equally loaded and no cap, the gap is reached, for every limit. */
  lemma GapIsReached(inbox: Inbox, limit: nat, convs: Table, a: Agent, b: Agent, time: int)
    returns (run: seq<Step>)
    requires !inbox.settings.maxConversationsEnabled && inbox.settings.distribution == LEAST_ASSIGNED
    requires !inbox.settings.preferredAgent && inbox.candidates == [a, b] && a != b
    requires Load(convs, a) == Load(convs, b)
    requires time > 0 && forall c <- convs :: c.createdAt < time
    ensures Run(inbox, limit, State(convs, map[]), run).Some?
    ensures var after := Run(inbox, limit, State(convs, map[]), run).value.convs;
            Load(after, a) - Load(after, b) == limit
  {
    FirstLeastIsChosen(inbox, convs, 0);
    var after;
    run, after := Burst(inbox, limit, convs, a, 0, time, b);
  }

  /** Round robin between two candidates without a cap. */
  predicate TwoTakeTurns(inbox: Inbox, a: Agent, b: Agent) {
    && TurnsByAge(inbox) && !inbox.settings.maxConversationsEnabled
    && inbox.candidates == [a, b] && a != b
  }

  lemma WhoseTurn(inbox: Inbox, convs: Table, a: Agent, b: Agent)
    requires TwoTakeTurns(inbox, a, b)
    ensures LastAssigned(convs, inbox.channel, a) <= LastAssigned(convs, inbox.channel, b)
            ==> ChosenForAll(inbox, convs, a)
    ensures LastAssigned(convs, inbox.channel, a) > LastAssigned(convs, inbox.channel, b)
            ==> ChosenForAll(inbox, convs, b)
  {
    hide LastAssigned, ChosenForAll;
    if LastAssigned(convs, inbox.channel, a) <= LastAssigned(convs, inbox.channel, b) {
      FirstLeastIsChosen(inbox, convs, 0);
    } else {
      FirstLeastIsChosen(inbox, convs, 1);
    }
  }

  /** All transactions the limit allows choose `a`, and one of them commits. */
  lemma OneOfMany(inbox: Inbox, limit: nat, a: Agent, b: Agent, other: Agent) returns (run: seq<Step>, convs: Table)
    requires TwoTakeTurns(inbox, a, b) && limit >= 1 && other != a
    ensures Leads(inbox, limit, State([], map[]), run, State(convs, Gathered([], a, 0, limit - 1)), a, 1, other)
    ensures Gained(inbox, [], convs, a, 1, 1)
  {
    WhoseTurn(inbox, [], a, b);
    var gathering := Gathers(inbox, limit, [], a, 0, limit, other);
    GatheredAre([], a, 0, limit);
    var x := Sender(limit - 1);
    convs := Added(inbox, [], Arrival(x, 1), Some(a));
    GainsOne(inbox, [], x, a, 1);
    var s := State([], Gathered([], a, 0, limit));
    var t := State(convs, Gathered([], a, 0, limit - 1));
    OneStep(inbox, limit, s, Commit(x, 1), a, other);
    assert Next(inbox, s, Commit(x, 1)) == t;
    hide Leads, Next, Enabled, Possible, Gathered, Added, Gained, ChosenForAll;
    LeadsOn(inbox, limit, State([], map[]), gathering, s, 0, [Commit(x, 1)], t, 1, a, other);
    run := gathering + [Commit(x, 1)];
  }

  /** Beside any others a transaction begins, chooses the agent and commits. */
  lemma OneAlongside(inbox: Inbox, limit: nat, s: State, x: Identity, c: Agent, time: int, a: Agent, other: Agent)
    returns (run: seq<Step>, convs: Table)
    requires |s.txns| < limit && x !in s.txns && ChosenForAll(inbox, s.convs, c) && c != a && c != other
    requires time > 0 && forall d <- s.convs :: d.createdAt < time
    ensures Leads(inbox, limit, s, run, State(convs, s.txns), a, 0, other)
    ensures Gained(inbox, s.convs, convs, c, 1, time)
  {
    var choosing := ChoosesOne(inbox, limit, s, x, c, a, other);
    var t := State(s.convs, s.txns[x := Txn(s.convs, Decided(Some(c)))]);
    convs := Added(inbox, s.convs, Arrival(x, time), Some(c));
    GainsOne(inbox, s.convs, x, c, time);
    OneStep(inbox, limit, t, Commit(x, time), a, other);
    assert t.txns - {x} == s.txns;
    assert Next(inbox, t, Commit(x, time)) == State(convs, s.txns);
    hide Leads, Next, Enabled, Possible, Added, Gained, ChosenForAll;
    LeadsOn(inbox, limit, s, choosing, t, 0, [Commit(x, time)], State(convs, s.txns), 0, a, other);
    run := choosing + [Commit(x, time)];
  }

  /** One of the transactions that chose `a` commits, and then one that begins, chooses `b` and commits. */
  lemma OneEach(inbox: Inbox, limit: nat, a: Agent, b: Agent) returns (run: seq<Step>, convs: Table)
    requires TwoTakeTurns(inbox, a, b) && limit >= 1
    ensures Run(inbox, limit, State([], map[]), run) == Some(State(convs, Gathered([], a, 0, limit - 1)))
    ensures LastAssigned(convs, inbox.channel, a) == 1 && LastAssigned(convs, inbox.channel, b) == 2
    ensures forall c <- convs :: c.createdAt < 3
  {
    var other := a + b + "x";
    var first, middle := OneOfMany(inbox, limit, a, b, other);
    GatheredAre([], a, 0, limit - 1);
    assert |Sender(limit)| == limit;
    var s := State(middle, Gathered([], a, 0, limit - 1));
    WhoseTurn(inbox, middle, a, b);
    var second;
    second, convs := OneAlongside(inbox, limit, s, Sender(limit), b, 2, a, other);
    var t := State(convs, s.txns);
    run := first + second;
    LeadsOn(inbox, limit, State([], map[]), first, s, 1, second, t, 0, a, other);
    LeadsThere(inbox, limit, State([], map[]), run, t, a, 1, other);
    hide Leads, Gathered, ChosenForAll;
  }

  lemma LeadsThere(inbox: Inbox, limit: nat, s: State, run: seq<Step>, t: State, a: Agent, n: nat, b: Agent)
    requires Leads(inbox, limit, s, run, t, a, n, b)
    ensures Run(inbox, limit, s, run) == Some(t) && Turns(inbox, s, run, {a}) == n
    ensures !inbox.settings.maxConversationsEnabled ==> PassedOver(inbox, limit, s, run, b)
  {
  }

  /** The bound on turns is reached for every limit. */
  lemma SharedTurnsAreReached(inbox: Inbox, limit: nat, a: Agent, b: Agent)
    returns (before: seq<Step>, window: seq<Step>)
    requires TwoTakeTurns(inbox, a, b) && limit >= 1
    ensures Run(inbox, limit, State([], map[]), before).Some?
    ensures PassedOver(inbox, limit, Run(inbox, limit, State([], map[]), before).value, window, b)
    ensures Turns(inbox, Run(inbox, limit, State([], map[]), before).value, window, {a}) == 2 * limit - 1
  {
    hide Leads, Gathered, ChosenForAll, Load, LastAssigned, PassedOver, Turns, Run;
    var convs;
    before, convs := OneEach(inbox, limit, a, b);
    var s := State(convs, Gathered([], a, 0, limit - 1));
    var settling, middle := Settles(inbox, limit, convs, [], a, 0, limit - 1, 1, b);
    assert LastAssigned(middle, inbox.channel, a) == 1 && LastAssigned(middle, inbox.channel, b) == 2;
    WhoseTurn(inbox, middle, a, b);
    var burst, after := Burst(inbox, limit, middle, a, limit + 1, 3, b);
    LeadsOn(inbox, limit, s, settling, State(middle, map[]), limit - 1, burst, State(after, map[]), limit, a, b);
    window := settling + burst;
    LeadsThere(inbox, limit, s, window, State(after, map[]), a, limit - 1 + limit, b);
  }
}
