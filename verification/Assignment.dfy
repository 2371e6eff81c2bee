/**
  Automatic distribution of new conversations to the agents of an inbox: how one agent is chosen,
  and what that does to the agents' loads and turns over a whole sequence of new conversations.
 */
module Assignment {
  import opened Common

  type Agent = string
  type Channel = string
  type Identity = string

  datatype Method = MANUAL | LEAST_ASSIGNED | ROUND_ROBIN

  datatype Settings = Settings(
    distribution: Method,
    maxConversationsEnabled: bool,
    maxConversationsPerAgent: int,
    preferredAgent: bool)

  /** A conversation row of the workspace; `open` is OPEN or PENDING. */
  datatype Conversation = Conversation(
    channel: Channel, identity: Identity, assignee: Option<Agent>, open: bool, createdAt: int)

  type Table = seq<Conversation>

  /** An inbox with its active members, oldest membership first. */
  datatype Inbox = Inbox(channel: Channel, settings: Settings, candidates: seq<Agent>)

  // ---------------------------------------------------------------------------
  // What the queries return
  // ---------------------------------------------------------------------------

  /** Open conversations of an agent, on every channel of the workspace. */
  function Load(convs: Table, a: Agent): nat {
    if convs == [] then 0
    else
      var c := convs[|convs| - 1];
      Load(convs[..|convs| - 1], a) + if c.open && c.assignee == Some(a) then 1 else 0
  }

  /** The places of an agent's open conversations. */
  ghost function OpenOf(convs: Table, a: Agent): set<nat> {
    set i: nat | i < |convs| && convs[i].open && convs[i].assignee == Some(a)
  }

  /** The load is the number of the agent's open conversations, resolved ones and others' apart. */
  lemma {:induction false} LoadIsOpenCount(convs: Table, a: Agent)
    ensures Load(convs, a) == |OpenOf(convs, a)|
  {
    if convs == [] {
      assert OpenOf(convs, a) == {};
    } else {
      var n := |convs| - 1;
      var rest := convs[..n];
      LoadIsOpenCount(rest, a);
      assert OpenOf(convs, a) == OpenOf(rest, a) + if convs[n].open && convs[n].assignee == Some(a) then {n} else {};
    }
  }

  /** Resolving an open conversation takes one off its agent's load, and nothing off anybody else's. */
  lemma ResolvingFreesItsAgent(convs: Table, i: nat, a: Agent)
    requires i < |convs| && convs[i].open
    ensures Load(convs[i := convs[i].(open := false)], a)
            == Load(convs, a) - if convs[i].assignee == Some(a) then 1 else 0
  {
    var resolved := convs[i := convs[i].(open := false)];
    LoadIsOpenCount(convs, a);
    LoadIsOpenCount(resolved, a);
    assert OpenOf(resolved, a) == OpenOf(convs, a) - {i};
  }

  /** An agent without open conversations is available under any positive cap, whatever was resolved. */
  lemma IdleAgentsAreAvailable(s: Settings, convs: Table, a: Agent)
    requires forall i: nat | i < |convs| && convs[i].assignee == Some(a) :: !convs[i].open
    requires s.maxConversationsPerAgent > 0
    ensures IsAvailable(s, convs, a)
  {
    LoadIsOpenCount(convs, a);
    assert OpenOf(convs, a) == {};
  }

  /** Without a cap everybody is available; with one, exactly those with fewer open conversations. */
  lemma AvailableExactlyWhen(s: Settings, convs: Table, a: Agent)
    ensures IsAvailable(s, convs, a)
            <==> (s.maxConversationsEnabled ==> |OpenOf(convs, a)| < s.maxConversationsPerAgent)
  {
    LoadIsOpenCount(convs, a);
  }

  /** When the agent was last assigned in this inbox. */
  function LastCreated(convs: Table, channel: Channel, a: Agent): Option<int> {
    if convs == [] then None
    else
      var c, rest := convs[|convs| - 1], LastCreated(convs[..|convs| - 1], channel, a);
      if c.channel == channel && c.assignee == Some(a) && (rest.None? || c.createdAt > rest.value)
      then Some(c.createdAt) else rest
  }

  function LastAssigned(convs: Table, channel: Channel, a: Agent): int {
    var last := LastCreated(convs, channel, a);
    if last.Some? then last.value else 0
  }

  /** The last turn is the latest of the agent's conversations on this channel, open or not. */
  lemma {:induction false} LastCreatedIsLatest(convs: Table, channel: Channel, a: Agent)
    ensures LastCreated(convs, channel, a).None? <==>
            forall c <- convs | c.channel == channel :: c.assignee != Some(a)
    ensures LastCreated(convs, channel, a).Some? ==>
              && (exists c <- convs :: c.channel == channel && c.assignee == Some(a)
                                       && c.createdAt == LastCreated(convs, channel, a).value)
              && (forall c <- convs | c.channel == channel && c.assignee == Some(a) ::
                    c.createdAt <= LastCreated(convs, channel, a).value)
  {
    if convs != [] {
      var n := |convs| - 1;
      LastCreatedIsLatest(convs[..n], channel, a);
      assert convs == convs[..n] + [convs[n]];
    }
  }

  predicate IsAvailable(s: Settings, convs: Table, a: Agent) {
    s.maxConversationsEnabled ==> Load(convs, a) < s.maxConversationsPerAgent
  }

  // Others commit between the queries: `counted` is the table when open conversations are counted,
  // `convs` the table when earlier conversations are looked up.

  /** A conversation of this contact that an available agent had, and none later. */
  predicate IsPrevious(inbox: Inbox, counted: Table, identity: Identity, c: Conversation) {
    c.identity == identity && c.assignee.Some? && c.assignee.value in inbox.candidates
    && IsAvailable(inbox.settings, counted, c.assignee.value)
  }

  ghost predicate IsLatestPrevious(inbox: Inbox, counted: Table, convs: Table, identity: Identity, c: Conversation) {
    && c in convs && IsPrevious(inbox, counted, identity, c)
    && forall d <- convs | IsPrevious(inbox, counted, identity, d) :: d.createdAt <= c.createdAt
  }

  // ---------------------------------------------------------------------------
  // The choice
  // ---------------------------------------------------------------------------

  ghost predicate NoneAvailable(inbox: Inbox, counted: Table) {
    forall b <- inbox.candidates :: !IsAvailable(inbox.settings, counted, b)
  }

  /** `a` has the least key among the available candidates, and is the first of those who have it. */
  ghost predicate IsFirstLeast(inbox: Inbox, counted: Table, key: Agent -> int, a: Agent) {
    exists i :: 0 <= i < |inbox.candidates| && inbox.candidates[i] == a
      && IsAvailable(inbox.settings, counted, a)
      && forall j | 0 <= j < |inbox.candidates| && IsAvailable(inbox.settings, counted, inbox.candidates[j]) ::
           key(a) <= key(inbox.candidates[j]) && (j < i ==> key(a) < key(inbox.candidates[j]))
  }

  ghost function LoadKey(convs: Table): Agent -> int {
    a => Load(convs, a)
  }

  ghost function TurnKey(convs: Table, channel: Channel): Agent -> int {
    a => LastAssigned(convs, channel, a)
  }

  /** What a choice may be: the distribution rules, in their order. */
  ghost predicate Chosen(inbox: Inbox, counted: Table, convs: Table, identity: Identity, r: Option<Agent>) {
    if inbox.settings.distribution == MANUAL || NoneAvailable(inbox, counted) then r == None
    else if inbox.settings.preferredAgent && (exists c <- convs :: IsPrevious(inbox, counted, identity, c)) then
      exists c <- convs :: IsLatestPrevious(inbox, counted, convs, identity, c) && r == c.assignee
    else
      r.Some? && IsFirstLeast(inbox, counted,
        if inbox.settings.distribution == LEAST_ASSIGNED then LoadKey(counted)
        else TurnKey(convs, inbox.channel), r.value)
  }

  /** Whatever the rule, a chosen agent is an available candidate. */
  lemma ChosenIsAvailable(inbox: Inbox, counted: Table, convs: Table, identity: Identity, r: Option<Agent>)
    requires Chosen(inbox, counted, convs, identity, r) && r.Some?
    ensures r.value in inbox.candidates && IsAvailable(inbox.settings, counted, r.value)
  {
  }

  /** A conversation is left unassigned exactly when nobody may take it. */
  lemma UnassignedExactlyWhen(inbox: Inbox, counted: Table, convs: Table, identity: Identity, r: Option<Agent>)
    requires Chosen(inbox, counted, convs, identity, r)
    ensures r == None <==> inbox.settings.distribution == MANUAL || NoneAvailable(inbox, counted)
  {
  }

  // ---------------------------------------------------------------------------
  // The algorithm
  // ---------------------------------------------------------------------------

  /** groupBy assignee over the open conversations: no row for an agent without any. */
  method OpenCounts(convs: Table, candidates: seq<Agent>) returns (rows: seq<(Agent, nat)>)
    ensures forall row <- rows :: row.0 in candidates && row.1 == Load(convs, row.0)
    ensures forall a <- candidates | Load(convs, a) > 0 :: (a, Load(convs, a)) in rows
  {
    rows := [];
    for i := 0 to |candidates|
      invariant forall row <- rows :: row.0 in candidates && row.1 == Load(convs, row.0)
      invariant forall a <- candidates[..i] | Load(convs, a) > 0 :: (a, Load(convs, a)) in rows
    {
      if Load(convs, candidates[i]) > 0 {
        rows := rows + [(candidates[i], Load(convs, candidates[i]))];
      }
    }
  }

  /** The load Map: zero for everyone, overwritten by the counted rows. */
  method LoadMap(convs: Table, candidates: seq<Agent>) returns (load: map<Agent, int>)
    ensures forall a <- candidates :: a in load && load[a] == Load(convs, a)
  {
    var openCounts := OpenCounts(convs, candidates);
    load := map a | a in candidates :: 0;
    for i := 0 to |openCounts|
      invariant load.Keys == set a | a in candidates
      invariant forall a <- candidates ::
        load[a] == Load(convs, a) || (load[a] == 0 && (a, Load(convs, a)) !in openCounts[..i])
    {
      assert openCounts[i] in openCounts;
      load := load[openCounts[i].0 := openCounts[i].1];
    }
    assert openCounts[..|openCounts|] == openCounts;
  }

  method Filter(s: Settings, convs: Table, candidates: seq<Agent>, load: map<Agent, int>)
    returns (available: seq<Agent>, ghost at: seq<nat>)
    requires forall a <- candidates :: a in load && load[a] == Load(convs, a)
    ensures |at| == |available|
    ensures forall k | 0 <= k < |at| :: at[k] < |candidates| && candidates[at[k]] == available[k]
    ensures forall k, m | 0 <= k < m < |at| :: at[k] < at[m]
    ensures forall k | 0 <= k < |at| :: IsAvailable(s, convs, available[k])
    ensures forall j | 0 <= j < |candidates| && IsAvailable(s, convs, candidates[j]) :: j in at
  {
    available, at := [], [];
    for i := 0 to |candidates|
      invariant |at| == |available|
      invariant forall k | 0 <= k < |at| :: at[k] < i && candidates[at[k]] == available[k]
      invariant forall k, m | 0 <= k < m < |at| :: at[k] < at[m]
      invariant forall k | 0 <= k < |at| :: IsAvailable(s, convs, available[k])
      invariant forall j | 0 <= j < i && IsAvailable(s, convs, candidates[j]) :: j in at
    {
      if !s.maxConversationsEnabled || load[candidates[i]] < s.maxConversationsPerAgent {
        available, at := available + [candidates[i]], at + [i];
      }
    }
  }

  /** `reduce`: a later entry replaces the best one only when its key is strictly smaller. */
  method Reduce(available: seq<Agent>, key: map<Agent, int>) returns (best: Agent, ghost k: nat)
    requires available != []
    ensures k < |available| && available[k] == best
    ensures forall j | 0 <= j < |available| :: Get(key, best) <= Get(key, available[j])
    ensures forall j | 0 <= j < k :: Get(key, best) < Get(key, available[j])
  {
    best, k := available[0], 0;
    for i := 1 to |available|
      invariant k < i && available[k] == best
      invariant forall j | 0 <= j < i :: Get(key, best) <= Get(key, available[j])
      invariant forall j | 0 <= j < k :: Get(key, best) < Get(key, available[j])
    {
      if Get(key, available[i]) < Get(key, best) {
        best, k := available[i], i;
      }
    }
  }

  /** `map.get(id) ?? 0` */
  function Get(key: map<Agent, int>, a: Agent): int {
    if a in key then key[a] else 0
  }

  /** findFirst by createdAt desc among the contact's conversations with an available agent. */
  method Previous(inbox: Inbox, counted: Table, convs: Table, identity: Identity, available: seq<Agent>)
    returns (previous: Option<Conversation>)
    requires forall a :: a in available <==>
                         a in inbox.candidates && IsAvailable(inbox.settings, counted, a)
    ensures previous.Some? ==> IsLatestPrevious(inbox, counted, convs, identity, previous.value)
    ensures previous.None? ==> forall c <- convs :: !IsPrevious(inbox, counted, identity, c)
  {
    previous := None;
    for i := 0 to |convs|
      invariant previous.Some? ==>
        && previous.value in convs && IsPrevious(inbox, counted, identity, previous.value)
        && forall d <- convs[..i] | IsPrevious(inbox, counted, identity, d) ::
             d.createdAt <= previous.value.createdAt
      invariant previous.None? ==> forall c <- convs[..i] :: !IsPrevious(inbox, counted, identity, c)
    {
      var c := convs[i];
      if c.identity == identity && c.assignee.Some? && c.assignee.value in available
         && (previous.None? || c.createdAt > previous.value.createdAt) {
        previous := Some(c);
      }
    }
    assert convs[..|convs|] == convs;
  }

  method ChooseAssignee(inbox: Inbox, counted: Table, convs: Table, identity: Identity) returns (r: Option<Agent>)
    ensures Chosen(inbox, counted, convs, identity, r)
  {
    hide IsFirstLeast, IsLatestPrevious, Load, LastCreated;
    var settings, candidates := inbox.settings, inbox.candidates;
    if settings.distribution == MANUAL || |candidates| == 0 {
      return None;
    }
    var load := LoadMap(counted, candidates);
    ghost var at;
    var available;
    available, at := Filter(settings, counted, candidates, load);
    if |available| == 0 {
      return None;
    }
    assert available[0] in candidates && IsAvailable(settings, counted, available[0]);
    if settings.preferredAgent {
      var previous := Previous(inbox, counted, convs, identity, available);
      if previous.Some? {
        return previous.value.assignee;
      }
    }
    var best := FoldAvailable(inbox, counted, convs, available, at, load);
    r := Some(best);
  }

  /** Least assigned or round robin over the available candidates. */
  method FoldAvailable(inbox: Inbox, counted: Table, convs: Table, available: seq<Agent>,
                       ghost at: seq<nat>, load: map<Agent, int>)
    returns (best: Agent)
    requires available != [] && |at| == |available|
    requires forall m | 0 <= m < |at| ::
      at[m] < |inbox.candidates| && inbox.candidates[at[m]] == available[m]
    requires forall m, n | 0 <= m < n < |at| :: at[m] < at[n]
    requires forall m | 0 <= m < |available| :: IsAvailable(inbox.settings, counted, available[m])
    requires forall j | 0 <= j < |inbox.candidates| && IsAvailable(inbox.settings, counted, inbox.candidates[j]) ::
      j in at
    requires forall a <- inbox.candidates :: a in load && load[a] == Load(counted, a)
    ensures IsFirstLeast(inbox, counted,
      if inbox.settings.distribution == LEAST_ASSIGNED then LoadKey(counted) else TurnKey(convs, inbox.channel), best)
  {
    hide IsFirstLeast, IsAvailable, Load, LastCreated;
    assert forall a <- available :: a in inbox.candidates;
    ghost var k;
    if inbox.settings.distribution == LEAST_ASSIGNED {
      best, k := Reduce(available, load);
      LeastOfAvailable(inbox, counted, available, at, load, LoadKey(counted), best, k);
    } else {
      var lastAssigned := map a | a in available && LastCreated(convs, inbox.channel, a).Some? ::
        LastCreated(convs, inbox.channel, a).value;
      best, k := Reduce(available, lastAssigned);
      LeastOfAvailable(inbox, counted, available, at, lastAssigned, TurnKey(convs, inbox.channel), best, k);
    }
  }

  /** The first least among the filtered candidates is the first least available one. */
  lemma LeastOfAvailable(inbox: Inbox, counted: Table, available: seq<Agent>, at: seq<nat>,
                         key: map<Agent, int>, meaning: Agent -> int, best: Agent, k: nat)
    requires |at| == |available| && k < |available| && available[k] == best
    requires forall m | 0 <= m < |at| ::
      at[m] < |inbox.candidates| && inbox.candidates[at[m]] == available[m]
    requires forall m, n | 0 <= m < n < |at| :: at[m] < at[n]
    requires IsAvailable(inbox.settings, counted, best)
    requires forall j | 0 <= j < |inbox.candidates| && IsAvailable(inbox.settings, counted, inbox.candidates[j]) ::
      j in at
    requires forall a <- available :: Get(key, a) == meaning(a)
    requires forall j | 0 <= j < |available| :: Get(key, best) <= Get(key, available[j])
    requires forall j | 0 <= j < k :: Get(key, best) < Get(key, available[j])
    ensures IsFirstLeast(inbox, counted, meaning, best)
  {
    var i := at[k];
    forall j | 0 <= j < |inbox.candidates| && IsAvailable(inbox.settings, counted, inbox.candidates[j])
      ensures meaning(best) <= meaning(inbox.candidates[j])
      ensures j < i ==> meaning(best) < meaning(inbox.candidates[j])
    {
      var m :| 0 <= m < |at| && at[m] == j;
      assert available[m] in available && best in available;
    }
  }

  // ---------------------------------------------------------------------------
  // Sequences of new conversations
  // ---------------------------------------------------------------------------

  datatype Arrival = Arrival(identity: Identity, createdAt: int)

  function Added(inbox: Inbox, convs: Table, x: Arrival, r: Option<Agent>): Table {
    convs + [Conversation(inbox.channel, x.identity, r, true, x.createdAt)]
  }

  /** The table after the first `k` of the arrivals have been assigned. */
  function After(inbox: Inbox, convs: Table, xs: seq<Arrival>, rs: seq<Option<Agent>>, k: nat): Table
    requires k <= |xs| && k <= |rs|
  {
    if k == 0 then convs else Added(inbox, After(inbox, convs, xs, rs, k - 1), xs[k - 1], rs[k - 1])
  }

  /** The k-th arrival was assigned by the rules on the table as it then was. */
  ghost predicate ChosenAt(inbox: Inbox, convs: Table, xs: seq<Arrival>, rs: seq<Option<Agent>>, k: nat)
    requires k < |xs| && k < |rs|
  {
    var table := After(inbox, convs, xs, rs, k);
    Chosen(inbox, table, table, xs[k].identity, rs[k])
  }

  ghost predicate Distributed(inbox: Inbox, convs: Table, xs: seq<Arrival>, rs: seq<Option<Agent>>) {
    |rs| == |xs| && forall k | 0 <= k < |xs| :: ChosenAt(inbox, convs, xs, rs, k)
  }

  lemma LoadAdded(inbox: Inbox, convs: Table, x: Arrival, r: Option<Agent>, a: Agent)
    ensures Load(Added(inbox, convs, x, r), a) == Load(convs, a) + if r == Some(a) then 1 else 0
  {
    assert Added(inbox, convs, x, r)[..|convs|] == convs;
  }

  lemma CapStep(inbox: Inbox, convs: Table, x: Arrival, r: Option<Agent>, a: Agent)
    requires inbox.settings.maxConversationsEnabled && Chosen(inbox, convs, convs, x.identity, r)
    ensures Load(Added(inbox, convs, x, r), a) == Load(convs, a)
            || Load(Added(inbox, convs, x, r), a) <= inbox.settings.maxConversationsPerAgent
  {
    LoadAdded(inbox, convs, x, r, a);
    if r.Some? {
      ChosenIsAvailable(inbox, convs, convs, x.identity, r);
    }
  }

  /** The cap: no agent at or below it goes above it, and one above it gets nothing more. */
  lemma {:induction false} CapIsKept(inbox: Inbox, convs: Table, xs: seq<Arrival>, rs: seq<Option<Agent>>,
                                     k: nat, a: Agent)
    requires inbox.settings.maxConversationsEnabled && Distributed(inbox, convs, xs, rs) && k <= |xs|
    ensures var cap := inbox.settings.maxConversationsPerAgent;
            Load(After(inbox, convs, xs, rs, k), a) <= if Load(convs, a) <= cap then cap else Load(convs, a)
  {
    hide Chosen, Load, Added;
    if k > 0 {
      CapIsKept(inbox, convs, xs, rs, k - 1, a);
      assert ChosenAt(inbox, convs, xs, rs, k - 1);
      CapStep(inbox, After(inbox, convs, xs, rs, k - 1), xs[k - 1], rs[k - 1], a);
    }
  }

  ghost predicate GapAtMost(inbox: Inbox, convs: Table, gap: int) {
    forall a <- inbox.candidates, b <- inbox.candidates :: Load(convs, a) - Load(convs, b) <= gap
  }

  /** With or without the cap, the least loaded available candidate is the least loaded candidate. */
  lemma LeastIsLeastOfAll(inbox: Inbox, convs: Table, a: Agent, b: Agent)
    requires IsFirstLeast(inbox, convs, LoadKey(convs), a) && b in inbox.candidates
    ensures Load(convs, a) <= Load(convs, b)
  {
    var j :| 0 <= j < |inbox.candidates| && inbox.candidates[j] == b;
    if IsAvailable(inbox.settings, convs, b) {
      assert LoadKey(convs)(a) <= LoadKey(convs)(inbox.candidates[j]);
    }
  }

  lemma BalanceStep(inbox: Inbox, convs: Table, x: Arrival, r: Option<Agent>, gap: int)
    requires inbox.settings.distribution == LEAST_ASSIGNED && !inbox.settings.preferredAgent
    requires Chosen(inbox, convs, convs, x.identity, r) && gap >= 1 && GapAtMost(inbox, convs, gap)
    ensures GapAtMost(inbox, Added(inbox, convs, x, r), gap)
  {
    forall a, b | a in inbox.candidates && b in inbox.candidates
      ensures Load(Added(inbox, convs, x, r), a) - Load(Added(inbox, convs, x, r), b) <= gap
    {
      LoadAdded(inbox, convs, x, r, a);
      LoadAdded(inbox, convs, x, r, b);
      if r == Some(a) {
        LeastIsLeastOfAll(inbox, convs, a, b);
      }
    }
  }

  /**
    Balance of least-assigned: over any sequence of new conversations the gap between any two
    candidates' loads stays within the larger of 1 and the gap there was at the start.
   */
  lemma {:induction false} LeastAssignedBalances(inbox: Inbox, convs: Table, xs: seq<Arrival>,
                                                 rs: seq<Option<Agent>>, k: nat, gap: int)
    requires inbox.settings.distribution == LEAST_ASSIGNED && !inbox.settings.preferredAgent
    requires Distributed(inbox, convs, xs, rs) && k <= |xs|
    requires gap >= 1 && GapAtMost(inbox, convs, gap)
    ensures GapAtMost(inbox, After(inbox, convs, xs, rs, k), gap)
  {
    hide Chosen, Load, Added;
    if k > 0 {
      LeastAssignedBalances(inbox, convs, xs, rs, k - 1, gap);
      assert ChosenAt(inbox, convs, xs, rs, k - 1);
      BalanceStep(inbox, After(inbox, convs, xs, rs, k - 1), xs[k - 1], rs[k - 1], gap);
    }
  }

  // ---------------------------------------------------------------------------
  // Round robin
  // ---------------------------------------------------------------------------

  ghost predicate Increasing(xs: seq<Arrival>) {
    forall i, j | 0 <= i < j < |xs| :: xs[i].createdAt < xs[j].createdAt
  }

  /** Conversations are created at positive times, later than all those already there. */
  ghost predicate LaterThan(convs: Table, xs: seq<Arrival>) {
    Increasing(xs) && forall x <- xs :: x.createdAt > 0 && forall c <- convs :: c.createdAt < x.createdAt
  }

  ghost predicate AllAvailableAt(inbox: Inbox, convs: Table, xs: seq<Arrival>, rs: seq<Option<Agent>>, k: nat)
    requires k < |xs| && k < |rs|
  {
    forall a <- inbox.candidates :: IsAvailable(inbox.settings, After(inbox, convs, xs, rs, k), a)
  }

  /** Round robin without a preferred agent, every candidate free at every turn, none listed twice. */
  ghost predicate TakesTurns(inbox: Inbox, convs: Table, xs: seq<Arrival>, rs: seq<Option<Agent>>) {
    && inbox.settings.distribution == ROUND_ROBIN && !inbox.settings.preferredAgent
    && (forall i, j | 0 <= i < j < |inbox.candidates| :: inbox.candidates[i] != inbox.candidates[j])
    && inbox.candidates != []
    && Distributed(inbox, convs, xs, rs) && LaterThan(convs, xs)
    && forall k | 0 <= k < |xs| :: AllAvailableAt(inbox, convs, xs, rs, k)
  }

  lemma TurnsAreSetUp(inbox: Inbox, convs: Table, xs: seq<Arrival>, rs: seq<Option<Agent>>)
    requires TakesTurns(inbox, convs, xs, rs)
    ensures LaterThan(convs, xs) && |rs| == |xs| && inbox.candidates != []
  {
  }

  function Turn(inbox: Inbox, convs: Table, xs: seq<Arrival>, rs: seq<Option<Agent>>, k: nat, a: Agent): int
    requires k <= |xs| && k <= |rs|
  {
    LastAssigned(After(inbox, convs, xs, rs, k), inbox.channel, a)
  }

  /** Before the k-th arrival, everybody's last turn lies before it. */
  lemma {:induction false} TurnsLieBefore(
    inbox: Inbox, convs: Table, xs: seq<Arrival>, rs: seq<Option<Agent>>, k: nat, a: Agent)
    requires LaterThan(convs, xs) && |rs| == |xs| && k < |xs|
    ensures Turn(inbox, convs, xs, rs, k, a) < xs[k].createdAt
  {
    assert xs[k] in xs;
    if k == 0 {
      LastCreatedIsLatest(convs, inbox.channel, a);
    } else {
      TurnsLieBefore(inbox, convs, xs, rs, k - 1, a);
      TurnMoves(inbox, convs, xs, rs, k - 1, a);
    }
  }

  /** An assignment moves the assignee's last turn to its time, and nobody else's. */
  lemma TurnMoves(inbox: Inbox, convs: Table, xs: seq<Arrival>, rs: seq<Option<Agent>>, k: nat, a: Agent)
    requires |rs| == |xs| && k < |xs| && Turn(inbox, convs, xs, rs, k, a) < xs[k].createdAt
    ensures Turn(inbox, convs, xs, rs, k + 1, a) ==
            if rs[k] == Some(a) then xs[k].createdAt else Turn(inbox, convs, xs, rs, k, a)
  {
    var before := After(inbox, convs, xs, rs, k);
    assert After(inbox, convs, xs, rs, k + 1)[..|before|] == before;
  }

  lemma {:induction false} TurnStays(
    inbox: Inbox, convs: Table, xs: seq<Arrival>, rs: seq<Option<Agent>>, i: nat, k: nat, a: Agent)
    requires LaterThan(convs, xs) && |rs| == |xs| && i <= k <= |xs| && Some(a) !in rs[i..k]
    ensures Turn(inbox, convs, xs, rs, k, a) == Turn(inbox, convs, xs, rs, i, a)
  {
    if i < k {
      assert rs[i..k] == rs[i..k - 1] + [rs[k - 1]];
      TurnStays(inbox, convs, xs, rs, i, k - 1, a);
      TurnsLieBefore(inbox, convs, xs, rs, k - 1, a);
      TurnMoves(inbox, convs, xs, rs, k - 1, a);
    }
  }

  lemma TurnOfChosen(
    inbox: Inbox, convs: Table, xs: seq<Arrival>, rs: seq<Option<Agent>>, j: nat, b: Agent)
    requires TakesTurns(inbox, convs, xs, rs) && j < |xs| && b in inbox.candidates
    ensures rs[j].Some? && rs[j].value in inbox.candidates
    ensures Turn(inbox, convs, xs, rs, j, rs[j].value) <= Turn(inbox, convs, xs, rs, j, b)
  {
    var before := After(inbox, convs, xs, rs, j);
    assert ChosenAt(inbox, convs, xs, rs, j) && AllAvailableAt(inbox, convs, xs, rs, j);
    assert !NoneAvailable(inbox, before);
    var m :| 0 <= m < |inbox.candidates| && inbox.candidates[m] == b;
    var key := TurnKey(before, inbox.channel);
    assert key(rs[j].value) <= key(inbox.candidates[m]);
  }

  /** Between two turns of one agent every other candidate has one. */
  lemma EverybodyElseFirst(inbox: Inbox, convs: Table, xs: seq<Arrival>, rs: seq<Option<Agent>>,
                           i: nat, j: nat, b: Agent)
    requires TakesTurns(inbox, convs, xs, rs) && i < j < |xs|
    requires rs[i] == rs[j] && rs[i] !in rs[i + 1..j]
    requires b in inbox.candidates && Some(b) != rs[i]
    ensures Some(b) in rs[i + 1..j]
  {
    hide *;
    TurnsAreSetUp(inbox, convs, xs, rs);
    TurnOfChosen(inbox, convs, xs, rs, j, b);
    var c := rs[j].value;
    TurnsLieBefore(inbox, convs, xs, rs, i, c);
    TurnMoves(inbox, convs, xs, rs, i, c);
    TurnStays(inbox, convs, xs, rs, i + 1, j, c);
    if Some(b) !in rs[i + 1..j] {
      TurnsLieBefore(inbox, convs, xs, rs, i, b);
      TurnMoves(inbox, convs, xs, rs, i, b);
      TurnStays(inbox, convs, xs, rs, i + 1, j, b);
    }
  }

  /** A sequence in which all of `n` distinct values occur has at least `n` entries. */
  lemma {:induction false} EnoughPlaces(values: seq<Option<Agent>>, s: seq<Option<Agent>>)
    requires forall i, j | 0 <= i < j < |values| :: values[i] != values[j]
    requires forall v <- values :: v in s
    ensures |values| <= |s|
  {
    if values != [] {
      assert values == [values[0]] + values[1..] && values[0] in values;
      var k :| 0 <= k < |s| && s[k] == values[0];
      var rest := s[..k] + s[k + 1..];
      forall v | v in values[1..]
        ensures v in rest
      {
        assert v in values && v != values[0];
        var m :| 0 <= m < |s| && s[m] == v;
        assert m < k ==> rest[m] == v;
        assert m > k ==> rest[m - 1] == v;
      }
      EnoughPlaces(values[1..], rest);
    }
  }

  function Others(candidates: seq<Agent>, r: Option<Agent>): seq<Option<Agent>> {
    if candidates == [] then []
    else (if Some(candidates[0]) == r then [] else [Some(candidates[0])]) + Others(candidates[1..], r)
  }

  lemma {:induction false} OthersAre(candidates: seq<Agent>, r: Option<Agent>)
    requires forall i, j | 0 <= i < j < |candidates| :: candidates[i] != candidates[j]
    ensures var o := Others(candidates, r);
            && (forall i, j | 0 <= i < j < |o| :: o[i] != o[j]) && |o| >= |candidates| - 1
            && (forall v :: v in o <==> v.Some? && v.value in candidates && v != r)
            && (r.Some? ==> r.value !in candidates ==> |o| == |candidates|)
  {
    if candidates != [] {
      OthersAre(candidates[1..], r);
      assert candidates == [candidates[0]] + candidates[1..];
      var o, rest := Others(candidates, r), Others(candidates[1..], r);
      assert forall k | 0 <= k < |rest| :: rest[k] in rest;
      if Some(candidates[0]) == r {
        assert r.value !in candidates[1..];
      }
    }
  }

  /** Fairness: any n consecutive assignments go to n different agents, from any starting history. */
  lemma {:induction false} RoundRobinIsFair(
    inbox: Inbox, convs: Table, xs: seq<Arrival>, rs: seq<Option<Agent>>, i: nat, j: nat)
    requires TakesTurns(inbox, convs, xs, rs)
    requires i < j < |xs| && j < i + |inbox.candidates|
    ensures rs[i].Some? && rs[i].value in inbox.candidates && rs[i] != rs[j]
    decreases j - i
  {
    TurnOfChosen(inbox, convs, xs, rs, i, inbox.candidates[0]);
    if rs[i] == rs[j] {
      if rs[i] in rs[i + 1..j] {
        var m :| i + 1 <= m < j && rs[m] == rs[i];
        RoundRobinIsFair(inbox, convs, xs, rs, m, j);
      } else {
        OthersAre(inbox.candidates, rs[i]);
        forall v | v in Others(inbox.candidates, rs[i])
          ensures v in rs[i + 1..j]
        {
          EverybodyElseFirst(inbox, convs, xs, rs, i, j, v.value);
        }
        EnoughPlaces(Others(inbox.candidates, rs[i]), rs[i + 1..j]);
      }
    }
  }

  /** So the order of turns repeats: the n-th assignment after this one goes to the same agent. */
  lemma RoundRobinRepeats(
    inbox: Inbox, convs: Table, xs: seq<Arrival>, rs: seq<Option<Agent>>, i: nat)
    requires TakesTurns(inbox, convs, xs, rs) && i + |inbox.candidates| < |xs|
    ensures rs[i + |inbox.candidates|] == rs[i]
  {
    hide *;
    TurnsAreSetUp(inbox, convs, xs, rs);
    var n := |inbox.candidates|;
    if rs[i + n] != rs[i] {
      var window := rs[i..i + n + 1];
      forall p, q | 0 <= p < q < |window|
        ensures window[p] != window[q]
      {
        if q < p + n {
          RoundRobinIsFair(inbox, convs, xs, rs, i + p, i + q);
        }
      }
      var all := seq(n, m requires 0 <= m < n => Some(inbox.candidates[m]));
      forall v | v in window
        ensures v in all
      {
        var p :| 0 <= p < |window| && window[p] == v;
        TurnOfChosen(inbox, convs, xs, rs, i + p, inbox.candidates[0]);
        var m :| 0 <= m < n && inbox.candidates[m] == v.value;
        assert all[m] == v;
      }
      EnoughPlaces(window, all);
    }
  }
}
