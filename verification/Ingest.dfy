/**
  Conversation Core ingest on one channel whose messages carry no thread id. An ingest transaction
  takes its sender's lock and reads the conversation in one step and writes in a later one; agents
  reply, mark read and change statuses in between, without that lock.
 */
module Ingest {
  import opened Common

  type Sender = string
  type ConvId = string
  type ProviderMessageId = string
  type MessageId = string

  const MAX_BACKDATE_MS := 7 * 24 * 3_600_000
  const MAX_FUTURE_MS := 5 * 60_000

  /** Where a message is placed in time; a send time that is no date at all is None. */
  function TimelineTimestamp(sentAt: Option<int>, receivedAt: int): (at: int)
    ensures receivedAt - 604_800_000 <= at <= receivedAt + 300_000
    ensures at == receivedAt || sentAt == Some(at)
    ensures sentAt.Some? && receivedAt - 604_800_000 <= sentAt.value <= receivedAt + 300_000
            ==> at == sentAt.value
  {
    if sentAt.Some? && receivedAt - MAX_BACKDATE_MS <= sentAt.value
       && sentAt.value <= receivedAt + MAX_FUTURE_MS
    then sentAt.value else receivedAt
  }

  // ---------------------------------------------------------------------------
  // State
  // ---------------------------------------------------------------------------

  datatype ConvStatus = OPEN | PENDING | RESOLVED

  datatype Conversation = Conversation(
    sender: Sender,
    status: ConvStatus,
    unreadCount: nat,
    lastInboundAt: Option<int>,
    lastMessageAt: Option<int>,
    createdAt: int)

  datatype Message = Message(id: MessageId, conv: ConvId, createdAt: int)

  /** An ingest transaction that holds its sender's lock, with the conversation row as it read it. */
  datatype Txn = Txn(
    pmid: ProviderMessageId,
    messageId: MessageId,
    createdAt: int,
    conv: ConvId,
    read: Option<Conversation>)

  /** What was committed, in commit order (history). */
  datatype Entry =
    | Stored(conv: ConvId, pmid: ProviderMessageId, createdAt: int)
    | Reset(conv: ConvId)

  datatype State = State(
    messages: map<ProviderMessageId, Message>,
    convs: map<ConvId, Conversation>,
    txns: map<Sender, Txn>,
    log: seq<Entry>)

  datatype Step =
    | Begin(sender: Sender, pmid: ProviderMessageId, messageId: MessageId, sentAt: Option<int>,
            now: int, conv: ConvId)
    | Commit(sender: Sender)
    | Abort(sender: Sender)
    | Reply(conv: ConvId, now: int)
    | MarkRead(conv: ConvId)
    | SetStatus(conv: ConvId, status: ConvStatus)

  predicate IsOpen(c: Conversation) {
    c.status == OPEN || c.status == PENDING
  }

  predicate OpenFor(s: State, id: ConvId, sender: Sender) {
    id in s.convs && s.convs[id].sender == sender && IsOpen(s.convs[id])
  }

  /** ORDER BY lastMessageAt DESC NULLS LAST, createdAt DESC. */
  predicate ComesFirst(c: Conversation, d: Conversation) {
    if c.lastMessageAt == d.lastMessageAt then c.createdAt >= d.createdAt
    else d.lastMessageAt.None?
         || (c.lastMessageAt.Some? && c.lastMessageAt.value > d.lastMessageAt.value)
  }

  /** The sender's first open conversation, or a new id when there is none. */
  ghost predicate Resolves(s: State, sender: Sender, id: ConvId) {
    if exists other :: OpenFor(s, other, sender) then
      OpenFor(s, id, sender)
      && forall other | OpenFor(s, other, sender) :: ComesFirst(s.convs[id], s.convs[other])
    else
      id !in s.convs && forall other <- s.txns :: s.txns[other].conv != id
  }

  ghost predicate Enabled(s: State, a: Step) {
    match a
    case Begin(sender, _, _, _, _, conv) => sender !in s.txns && Resolves(s, sender, conv)
    case Commit(sender) =>
      sender in s.txns && (s.txns[sender].read.Some? ==> s.txns[sender].conv in s.convs)
    case Abort(sender) => sender in s.txns
    case Reply(conv, _) => conv in s.convs
    case MarkRead(conv) => conv in s.convs
    case SetStatus(conv, _) => conv in s.convs
  }

  /** The unique indexes on the provider message id and on the message id. */
  predicate UniqueViolation(s: State, t: Txn) {
    t.pmid in s.messages || exists p <- s.messages :: s.messages[p].id == t.messageId
  }

  /** The update: an atomic increment; the rest is decided on the row the transaction read. */
  function Updated(current: Conversation, read: Conversation, at: int): Conversation {
    current.(
      unreadCount := current.unreadCount + 1,
      lastInboundAt :=
        if read.lastInboundAt.None? || at > read.lastInboundAt.value then Some(at)
        else current.lastInboundAt,
      lastMessageAt :=
        if read.lastMessageAt.None? || at >= read.lastMessageAt.value then Some(at)
        else current.lastMessageAt,
      status := if read.status != OPEN then OPEN else current.status)
  }

  function Unlock(s: State, sender: Sender): State {
    s.(txns := s.txns - {sender})
  }

  function Store(s: State, sender: Sender): State
    requires sender in s.txns
    requires s.txns[sender].read.Some? ==> s.txns[sender].conv in s.convs
  {
    var t := s.txns[sender];
    var c :=
      if t.read.Some? then Updated(s.convs[t.conv], t.read.value, t.createdAt)
      else Conversation(sender, OPEN, 1, Some(t.createdAt), Some(t.createdAt), t.createdAt);
    Unlock(s, sender).(
      messages := s.messages[t.pmid := Message(t.messageId, t.conv, t.createdAt)],
      convs := s.convs[t.conv := c],
      log := s.log + [Stored(t.conv, t.pmid, t.createdAt)])
  }

  function Next(s: State, a: Step): State
    requires Enabled(s, a)
  {
    match a
    case Begin(sender, pmid, messageId, sentAt, now, conv) =>
      s.(txns := s.txns[sender := Txn(pmid, messageId, TimelineTimestamp(sentAt, now), conv,
                                      if conv in s.convs then Some(s.convs[conv]) else None)])
    case Commit(sender) =>
      if UniqueViolation(s, s.txns[sender]) then Unlock(s, sender) else Store(s, sender)
    case Abort(sender) => Unlock(s, sender)
    case Reply(conv, now) =>
      s.(convs := s.convs[conv := s.convs[conv].(unreadCount := 0, lastMessageAt := Some(now))],
         log := s.log + [Reset(conv)])
    case MarkRead(conv) =>
      s.(convs := s.convs[conv := s.convs[conv].(unreadCount := 0)], log := s.log + [Reset(conv)])
    case SetStatus(conv, status) =>
      s.(convs := s.convs[conv := s.convs[conv].(status := status)])
  }

  ghost function Run(s: State, run: seq<Step>): Option<State>
    decreases run
  {
    if run == [] then Some(s)
    else if Enabled(s, run[0]) then Run(Next(s, run[0]), run[1..])
    else None
  }

  lemma {:induction false} RunSnoc(s: State, run: seq<Step>, a: Step)
    requires Run(s, run).Some? && Enabled(Run(s, run).value, a)
    ensures Run(s, run + [a]) == Some(Next(Run(s, run).value, a))
    decreases run
  {
    if run == [] {
      assert run + [a] == [a];
      assert Run(Next(s, a), [a][1..]) == Some(Next(s, a));
    } else {
      assert (run + [a])[0] == run[0] && (run + [a])[1..] == run[1..] + [a];
      RunSnoc(Next(s, run[0]), run[1..], a);
    }
  }

  const Empty := State(map[], map[], map[], [])

  // ---------------------------------------------------------------------------
  // Reading the log
  // ---------------------------------------------------------------------------

  /** Messages stored in a conversation since it was last reset. */
  function UnreadIn(log: seq<Entry>, conv: ConvId): nat {
    if log == [] then 0
    else
      var last, rest := log[|log| - 1], log[..|log| - 1];
      if last.conv != conv then UnreadIn(rest, conv)
      else if last.Reset? then 0
      else UnreadIn(rest, conv) + 1
  }

  /** The greatest timestamp stored in a conversation. */
  function LatestIn(log: seq<Entry>, conv: ConvId): Option<int> {
    if log == [] then None
    else
      var last, rest := log[|log| - 1], LatestIn(log[..|log| - 1], conv);
      if last.Stored? && last.conv == conv && (rest.None? || last.createdAt > rest.value)
      then Some(last.createdAt) else rest
  }

  function TimesStored(log: seq<Entry>, pmid: ProviderMessageId): nat {
    if log == [] then 0
    else
      var last := log[|log| - 1];
      TimesStored(log[..|log| - 1], pmid) + if last.Stored? && last.pmid == pmid then 1 else 0
  }

  /** `LatestIn` is the maximum: one of the timestamps, and none is greater. */
  lemma {:induction false} LatestIsMaximum(log: seq<Entry>, conv: ConvId)
    ensures LatestIn(log, conv).None? <==> forall e <- log | e.Stored? :: e.conv != conv
    ensures LatestIn(log, conv).Some? ==>
              && (exists e <- log :: e.Stored? && e.conv == conv && e.createdAt == LatestIn(log, conv).value)
              && (forall e <- log | e.Stored? && e.conv == conv :: e.createdAt <= LatestIn(log, conv).value)
  {
    if log != [] {
      LatestIsMaximum(log[..|log| - 1], conv);
      assert log == log[..|log| - 1] + [log[|log| - 1]];
    }
  }

  lemma LogSnoc(log: seq<Entry>, e: Entry)
    ensures (log + [e])[..|log + [e]| - 1] == log && (log + [e])[|log + [e]| - 1] == e
  {
  }

  // ---------------------------------------------------------------------------
  // Aggregates agree with the log, in every run
  // ---------------------------------------------------------------------------

  predicate ConvOk(s: State, id: ConvId)
    requires id in s.convs
  {
    && s.convs[id].unreadCount == UnreadIn(s.log, id)
    && s.convs[id].lastInboundAt == LatestIn(s.log, id)
  }

  predicate Unlogged(log: seq<Entry>, id: ConvId) {
    forall e <- log :: e.conv != id
  }

  predicate TxnOk(s: State, sender: Sender)
    requires sender in s.txns
  {
    var t := s.txns[sender];
    if t.read.Some? then
      && t.conv in s.convs && s.convs[t.conv].sender == sender
      && t.read.value.lastInboundAt == s.convs[t.conv].lastInboundAt
    else
      t.conv !in s.convs
  }

  ghost predicate Inv(s: State) {
    && (forall id <- s.convs :: ConvOk(s, id))
    && (forall e <- s.log :: e.conv in s.convs)
    && (forall x <- s.txns :: TxnOk(s, x))
    && (forall x <- s.txns, y <- s.txns | x != y :: s.txns[x].conv != s.txns[y].conv)
    && (forall p :: TimesStored(s.log, p) == if p in s.messages then 1 else 0)
  }

  lemma {:induction false} UnloggedIsFresh(log: seq<Entry>, id: ConvId)
    requires Unlogged(log, id)
    ensures UnreadIn(log, id) == 0 && LatestIn(log, id) == None
  {
    if log != [] {
      assert log[|log| - 1] in log;
      UnloggedIsFresh(log[..|log| - 1], id);
    }
  }

  lemma BeginKeeps(s: State, a: Step)
    requires Inv(s) && Enabled(s, a) && a.Begin?
    ensures Inv(Next(s, a))
  {
    var t := Next(s, a);
    forall x | x in t.txns
      ensures TxnOk(t, x)
    {
      assert x != a.sender ==> TxnOk(s, x);
    }
    forall x | x in s.txns
      ensures s.txns[x].conv != a.conv
    {
      assert TxnOk(s, x);
    }
  }

  lemma UnlockKeeps(s: State, sender: Sender)
    requires Inv(s)
    ensures Inv(Unlock(s, sender))
  {
    var t := Unlock(s, sender);
    forall x | x in t.txns
      ensures TxnOk(t, x)
    {
      assert TxnOk(s, x);
    }
    forall id | id in t.convs
      ensures ConvOk(t, id)
    {
      assert ConvOk(s, id);
    }
  }

  lemma StoreKeepsConvs(s: State, sender: Sender, id: ConvId)
    requires Inv(s) && sender in s.txns && id in Store(s, sender).convs
    requires s.txns[sender].read.Some? ==> s.txns[sender].conv in s.convs
    ensures ConvOk(Store(s, sender), id)
  {
    var x := s.txns[sender];
    assert TxnOk(s, sender);
    LogSnoc(s.log, Stored(x.conv, x.pmid, x.createdAt));
    if id in s.convs {
      assert ConvOk(s, id);
    } else {
      UnloggedIsFresh(s.log, id);
    }
  }

  lemma StoreKeepsTxns(s: State, sender: Sender, x: Sender)
    requires Inv(s) && sender in s.txns && x in Store(s, sender).txns
    requires s.txns[sender].read.Some? ==> s.txns[sender].conv in s.convs
    ensures TxnOk(Store(s, sender), x)
  {
    assert TxnOk(s, x) && s.txns[x].conv != s.txns[sender].conv;
  }

  lemma StoreKeeps(s: State, sender: Sender)
    requires Inv(s) && sender in s.txns && !UniqueViolation(s, s.txns[sender])
    requires s.txns[sender].read.Some? ==> s.txns[sender].conv in s.convs
    ensures Inv(Store(s, sender))
  {
    var t := Store(s, sender);
    forall id | id in t.convs
      ensures ConvOk(t, id)
    {
      StoreKeepsConvs(s, sender, id);
    }
    forall x | x in t.txns
      ensures TxnOk(t, x)
    {
      StoreKeepsTxns(s, sender, x);
    }
    var e := Stored(s.txns[sender].conv, s.txns[sender].pmid, s.txns[sender].createdAt);
    LogSnoc(s.log, e);
    forall p
      ensures TimesStored(t.log, p) == if p in t.messages then 1 else 0
    {
      assert TimesStored(s.log, p) == if p in s.messages then 1 else 0;
    }
    forall e' | e' in t.log
      ensures e'.conv in t.convs
    {
      assert e' in s.log || e' == e;
    }
  }

  /** A write that touches one conversation's unread count (resetting it) or status only. */
  lemma AgentKeeps(s: State, a: Step)
    requires Inv(s) && Enabled(s, a) && (a.Reply? || a.MarkRead? || a.SetStatus?)
    ensures Inv(Next(s, a))
  {
    var t := Next(s, a);
    LogSnoc(s.log, Reset(a.conv));
    forall id | id in t.convs
      ensures ConvOk(t, id)
    {
      assert ConvOk(s, id);
    }
    forall x | x in t.txns
      ensures TxnOk(t, x)
    {
      assert TxnOk(s, x);
    }
    forall p
      ensures TimesStored(t.log, p) == if p in t.messages then 1 else 0
    {
      assert TimesStored(s.log, p) == if p in s.messages then 1 else 0;
    }
  }

  lemma InvKept(s: State, a: Step)
    requires Inv(s) && Enabled(s, a)
    ensures Inv(Next(s, a))
  {
    match a
    case Begin(_, _, _, _, _, _) => BeginKeeps(s, a);
    case Commit(sender) =>
      if UniqueViolation(s, s.txns[sender]) {
        UnlockKeeps(s, sender);
      } else {
        StoreKeeps(s, sender);
      }
    case Abort(sender) => UnlockKeeps(s, sender);
    case _ => AgentKeeps(s, a);
  }

  lemma {:induction false} InvHolds(s: State, run: seq<Step>)
    requires Inv(s) && Run(s, run).Some?
    ensures Inv(Run(s, run).value)
    decreases run
  {
    if run != [] {
      InvKept(s, run[0]);
      InvHolds(Next(s, run[0]), run[1..]);
    }
  }

  /**
    Aggregates, in every run: the unread count is the number of messages stored since the last
    reply or mark-read, and lastInboundAt is the greatest timestamp stored in the conversation.
   */
  lemma AggregatesAgree(run: seq<Step>, id: ConvId)
    requires Run(Empty, run).Some? && id in Run(Empty, run).value.convs
    ensures var s := Run(Empty, run).value;
            && s.convs[id].unreadCount == UnreadIn(s.log, id)
            && s.convs[id].lastInboundAt == LatestIn(s.log, id)
  {
    InvHolds(Empty, run);
    assert ConvOk(Run(Empty, run).value, id);
  }

  /** Exactly once, for any schedule: a provider message is stored, and counted unread, at most once. */
  lemma StoredAtMostOnce(run: seq<Step>, pmid: ProviderMessageId)
    requires Run(Empty, run).Some?
    ensures var s := Run(Empty, run).value;
            TimesStored(s.log, pmid) == if pmid in s.messages then 1 else 0
  {
    InvHolds(Empty, run);
  }

  /** No two stored messages share an id. */
  lemma {:induction false} StoredIdsAreDistinct(s: State, run: seq<Step>)
    requires Run(s, run).Some?
    requires forall p <- s.messages, q <- s.messages | p != q :: s.messages[p].id != s.messages[q].id
    ensures var t := Run(s, run).value;
            forall p <- t.messages, q <- t.messages | p != q :: t.messages[p].id != t.messages[q].id
    decreases run
  {
    if run != [] {
      StoredIdsAreDistinct(Next(s, run[0]), run[1..]);
    }
  }

  /** A stored message is never lost or changed. */
  lemma {:induction false} StoredForGood(s: State, run: seq<Step>, pmid: ProviderMessageId)
    requires Run(s, run).Some? && pmid in s.messages
    ensures pmid in Run(s, run).value.messages
    ensures Run(s, run).value.messages[pmid] == s.messages[pmid]
    decreases run
  {
    if run != [] {
      StoredForGood(Next(s, run[0]), run[1..], pmid);
    }
  }

  // ---------------------------------------------------------------------------
  // What a stored message does to its conversation
  // ---------------------------------------------------------------------------

  function Later(time: Option<int>, at: int): int {
    if time.Some? && time.value > at then time.value else at
  }

  /** When nobody writes the row in between: it is open, with one more unread, and no time goes back. */
  lemma UndisturbedMessageUpdates(s: State, sender: Sender)
    requires Enabled(s, Commit(sender)) && !UniqueViolation(s, s.txns[sender])
    requires s.txns[sender].read.Some? ==> s.convs[s.txns[sender].conv] == s.txns[sender].read.value
    ensures var x, t := s.txns[sender], Next(s, Commit(sender));
            && x.conv in t.convs
            && var c := t.convs[x.conv];
               if x.read.None? then
                 c.sender == sender && c.status == OPEN && c.unreadCount == 1
                 && c.lastInboundAt == Some(x.createdAt) && c.lastMessageAt == Some(x.createdAt)
               else
                 && c.status == OPEN && c.unreadCount == x.read.value.unreadCount + 1
                 && c.lastInboundAt == Some(Later(x.read.value.lastInboundAt, x.createdAt))
                 && c.lastMessageAt == Some(Later(x.read.value.lastMessageAt, x.createdAt))
                 && c.sender == x.read.value.sender && c.createdAt == x.read.value.createdAt
  {
  }

  /**
    A stored message leaves its conversation open, except when an agent took it out of the open state
    after the transaction had read it as open.
   */
  lemma LeavesOpenExactlyWhen(s: State, sender: Sender)
    requires Enabled(s, Commit(sender)) && !UniqueViolation(s, s.txns[sender])
    ensures var x, t := s.txns[sender], Next(s, Commit(sender));
            && x.conv in t.convs
            && (t.convs[x.conv].status == OPEN
                <==> x.read.None? || x.read.value.status != OPEN || s.convs[x.conv].status == OPEN)
  {
  }

  lemma RunCons(s: State, a: Step, rest: seq<Step>)
    requires Enabled(s, a)
    ensures Run(s, [a] + rest) == Run(Next(s, a), rest)
  {
    assert ([a] + rest)[0] == a && ([a] + rest)[1..] == rest;
  }

  /** A run in which a conversation is resolved under a message, which then waits in it unseen. */
  lemma ResolvedUnderAMessage() returns (run: seq<Step>)
    ensures Run(Empty, run).Some?
    ensures var s := Run(Empty, run).value;
            && "late" in s.messages && s.messages["late"].conv in s.convs
            && s.convs[s.messages["late"].conv].status == RESOLVED
            && s.convs[s.messages["late"].conv].unreadCount == 2
  {
    var first := Begin("a", "early", "m1", None, 0, "c");
    var second := Begin("a", "late", "m2", None, 1, "c");
    var r2 := [second] + ([SetStatus("c", RESOLVED)] + ([Commit("a")] + []));
    run := [first] + ([Commit("a")] + r2);
    RunCons(Empty, first, [Commit("a")] + r2);
    var s1 := Next(Empty, first);
    RunCons(s1, Commit("a"), r2);
    var s2 := Next(s1, Commit("a"));
    assert OpenFor(s2, "c", "a");
    assert forall other | OpenFor(s2, other, "a") :: other == "c";
    RunCons(s2, second, [SetStatus("c", RESOLVED)] + ([Commit("a")] + []));
    var s3 := Next(s2, second);
    RunCons(s3, SetStatus("c", RESOLVED), [Commit("a")] + []);
    var s4 := Next(s3, SetStatus("c", RESOLVED));
    RunCons(s4, Commit("a"), []);
  }

  // ---------------------------------------------------------------------------
  // One open conversation per sender
  // ---------------------------------------------------------------------------

  /** The sender's open conversations all have the given id. */
  ghost predicate OnlyOpen(s: State, sender: Sender, id: ConvId) {
    forall other | OpenFor(s, other, sender) :: other == id
  }

  ghost predicate Slots(s: State) {
    && (forall x: Sender, c, d | OpenFor(s, c, x) && OpenFor(s, d, x) :: c == d)
    && (forall x <- s.txns :: OnlyOpen(s, x, s.txns[x].conv))
    && (forall x <- s.txns, y <- s.txns | x != y :: s.txns[x].conv != s.txns[y].conv)
    && (forall x <- s.txns :: TxnOk(s, x))
  }

  /** An agent's write takes a resolved conversation back to open or pending. */
  predicate Reopens(s: State, a: Step) {
    && a.SetStatus? && a.conv in s.convs
    && s.convs[a.conv].status == RESOLVED && a.status != RESOLVED
  }

  /** The conversation a reopening would compete with: an open one, or one being created or written. */
  ghost predicate SlotTaken(s: State, id: ConvId)
    requires id in s.convs
  {
    var x := s.convs[id].sender;
    || (exists other :: other != id && OpenFor(s, other, x))
    || (x in s.txns && s.txns[x].conv != id)
  }

  lemma {:induction false} SlotsBreakExactlyWhen(s: State, a: Step)
    requires Inv(s) && Slots(s) && Enabled(s, a)
    ensures Slots(Next(s, a)) <==> !(Reopens(s, a) && SlotTaken(s, a.conv))
  {
    InvKept(s, a);
    var t := Next(s, a);
    if Reopens(s, a) && SlotTaken(s, a.conv) {
      var x := s.convs[a.conv].sender;
      assert OpenFor(t, a.conv, x);
      if other :| other != a.conv && OpenFor(s, other, x) {
        assert OpenFor(t, other, x);
      }
    } else {
      SlotsKept(s, a);
    }
  }

  /** A conversation is open after a step if it was before, was just written by ingest, or reopened. */
  lemma OpenedBy(s: State, a: Step, c: ConvId, x: Sender)
    requires Inv(s) && Enabled(s, a) && OpenFor(Next(s, a), c, x)
    ensures || OpenFor(s, c, x)
            || (a.Commit? && a.sender == x && c == s.txns[x].conv)
            || (Reopens(s, a) && a.conv == c && s.convs[c].sender == x)
  {
    if a.Commit? {
      assert TxnOk(s, a.sender);
    }
  }

  lemma OneSlot(s: State, a: Step, x: Sender, c: ConvId, d: ConvId)
    requires Inv(s) && Slots(s) && Enabled(s, a) && !(Reopens(s, a) && SlotTaken(s, a.conv))
    requires OpenFor(Next(s, a), c, x) && OpenFor(Next(s, a), d, x)
    ensures c == d
  {
    OpenedBy(s, a, c, x);
    OpenedBy(s, a, d, x);
    assert x in s.txns ==> OnlyOpen(s, x, s.txns[x].conv);
  }

  lemma SlotHeld(s: State, a: Step, x: Sender, other: ConvId)
    requires Inv(s) && Slots(s) && Enabled(s, a) && !(Reopens(s, a) && SlotTaken(s, a.conv))
    requires x in Next(s, a).txns && OpenFor(Next(s, a), other, x)
    ensures other == Next(s, a).txns[x].conv
  {
    OpenedBy(s, a, other, x);
    assert x in s.txns ==> OnlyOpen(s, x, s.txns[x].conv);
  }

  lemma SlotsKept(s: State, a: Step)
    requires Inv(s) && Slots(s) && Enabled(s, a) && Inv(Next(s, a))
    requires !(Reopens(s, a) && SlotTaken(s, a.conv))
    ensures Slots(Next(s, a))
  {
    var t := Next(s, a);
    forall x: Sender, c, d | OpenFor(t, c, x) && OpenFor(t, d, x)
      ensures c == d
    {
      OneSlot(s, a, x, c, d);
    }
    forall x | x in t.txns
      ensures OnlyOpen(t, x, t.txns[x].conv)
    {
      forall other | OpenFor(t, other, x)
        ensures other == t.txns[x].conv
      {
        SlotHeld(s, a, x, other);
      }
    }
  }

  ghost predicate NoReopening(s: State, run: seq<Step>)
    decreases run
  {
    run == [] ||
    (Enabled(s, run[0]) && !Reopens(s, run[0]) && NoReopening(Next(s, run[0]), run[1..]))
  }

  lemma {:induction false} SlotsHold(s: State, run: seq<Step>)
    requires Inv(s) && Slots(s) && NoReopening(s, run)
    ensures Run(s, run).Some? && Slots(Run(s, run).value)
    decreases run
  {
    if run != [] {
      InvKept(s, run[0]);
      SlotsKept(s, run[0]);
      SlotsHold(Next(s, run[0]), run[1..]);
    }
  }

  /** Without an agent reopening a resolved conversation, a sender never has two open ones. */
  lemma AtMostOneOpenConversation(run: seq<Step>, c: ConvId, d: ConvId)
    requires NoReopening(Empty, run) && Run(Empty, run).Some?
    requires var s := Run(Empty, run).value;
             && c in s.convs && d in s.convs && s.convs[c].sender == s.convs[d].sender
             && IsOpen(s.convs[c]) && IsOpen(s.convs[d])
    ensures c == d
  {
    SlotsHold(Empty, run);
    var s := Run(Empty, run).value;
    assert OpenFor(s, c, s.convs[c].sender) && OpenFor(s, d, s.convs[c].sender);
  }

  // ---------------------------------------------------------------------------
  // When a sender gets two open conversations
  // ---------------------------------------------------------------------------

  ghost predicate TwoOpen(s: State, x: Sender) {
    exists c, d :: c != d && OpenFor(s, c, x) && OpenFor(s, d, x)
  }

  ghost predicate OtherOpen(s: State, id: ConvId, x: Sender) {
    exists other :: other != id && OpenFor(s, other, x)
  }

  /** The commit stores its message and leaves its conversation open. */
  predicate StoresOpen(s: State, x: Sender)
    requires x in s.txns
  {
    var t := s.txns[x];
    && !UniqueViolation(s, t)
    && (t.read.None? || t.read.value.status != OPEN || (t.conv in s.convs && IsOpen(s.convs[t.conv])))
  }

  /**
    A sender gets a second open conversation exactly by an agent reopening one, or by a commit that
    stores a message and leaves its conversation open, while another one is open.
   */
  lemma TwoOpenExactlyWhen(s: State, a: Step, x: Sender)
    requires Inv(s) && Enabled(s, a) && !TwoOpen(s, x)
    ensures TwoOpen(Next(s, a), x) <==>
            || (Reopens(s, a) && s.convs[a.conv].sender == x && OtherOpen(s, a.conv, x))
            || (a.Commit? && a.sender == x && StoresOpen(s, x) && OtherOpen(s, s.txns[x].conv, x))
  {
    var t := Next(s, a);
    forall c
      ensures OpenFor(t, c, x) && !OpenFor(s, c, x) ==>
                || (a.Commit? && a.sender == x && c == s.txns[x].conv && StoresOpen(s, x))
                || (Reopens(s, a) && a.conv == c && s.convs[c].sender == x)
    {
      if OpenFor(t, c, x) {
        OpenedBy(s, a, c, x);
        OpenedByCommit(s, a, c, x);
      }
    }
    if a.Commit? && a.sender == x && StoresOpen(s, x) && OtherOpen(s, s.txns[x].conv, x) {
      CommitOpens(s, a, x);
    } else if Reopens(s, a) && s.convs[a.conv].sender == x && OtherOpen(s, a.conv, x) {
      var other :| other != a.conv && OpenFor(s, other, x);
      assert OpenFor(t, a.conv, x) && OpenFor(t, other, x);
    }
  }

  lemma OpenedByCommit(s: State, a: Step, c: ConvId, x: Sender)
    requires Inv(s) && Enabled(s, a) && OpenFor(Next(s, a), c, x)
    ensures a.Commit? && a.sender == x && c == s.txns[x].conv && !OpenFor(s, c, x) ==> StoresOpen(s, x)
  {
    if a.Commit? {
      assert TxnOk(s, a.sender);
    }
  }

  lemma CommitOpens(s: State, a: Step, x: Sender)
    requires Inv(s) && Enabled(s, a) && a.Commit? && a.sender == x && StoresOpen(s, x)
    requires OtherOpen(s, s.txns[x].conv, x)
    ensures TwoOpen(Next(s, a), x)
  {
    assert TxnOk(s, x);
    var other :| other != s.txns[x].conv && OpenFor(s, other, x);
    assert OpenFor(Next(s, a), other, x) && OpenFor(Next(s, a), s.txns[x].conv, x);
  }

  // A contact with two open conversations, step by step: the first is resolved, a message starts a
  // second one, and an agent reopens the first.

  ghost const Conv1 := Conversation("c", OPEN, 1, Some(0), Some(0), 0)
  ghost const Message1 := Message("m1", "a", 0)
  ghost const Txn1 := Txn("p1", "m1", 0, "a", None)
  ghost const Txn2 := Txn("p2", "m2", 0, "b", None)
  ghost const Log1 := [Stored("a", "p1", 0)]
  ghost const T1 := Empty.(txns := map["c" := Txn1])
  ghost const T2 := State(map["p1" := Message1], map["a" := Conv1], map[], Log1)
  ghost const T3 := T2.(convs := map["a" := Conv1.(status := RESOLVED)])
  ghost const T4 := T3.(txns := map["c" := Txn2])

  lemma FirstMessage()
    ensures Enabled(Empty, Begin("c", "p1", "m1", None, 0, "a"))
    ensures Next(Empty, Begin("c", "p1", "m1", None, 0, "a")) == T1
    ensures Enabled(T1, Commit("c")) && Next(T1, Commit("c")) == T2
    ensures Enabled(T2, SetStatus("a", RESOLVED)) && Next(T2, SetStatus("a", RESOLVED)) == T3
  {
    assert !exists other :: OpenFor(Empty, other, "c");
    assert T1.txns - {"c"} == map[];
  }

  lemma SecondMessage()
    ensures Enabled(T3, Begin("c", "p2", "m2", None, 0, "b"))
    ensures Next(T3, Begin("c", "p2", "m2", None, 0, "b")) == T4
    ensures Enabled(T4, Commit("c"))
    ensures var t := Next(T4, Commit("c"));
            && OpenFor(t, "b", "c") && !OpenFor(t, "a", "c") && Enabled(t, SetStatus("a", OPEN))
            && TwoOpen(Next(t, SetStatus("a", OPEN)), "c")
  {
    assert !exists other :: OpenFor(T3, other, "c");
    var t := Next(T4, Commit("c"));
    var u := Next(t, SetStatus("a", OPEN));
    assert OpenFor(u, "a", "c") && OpenFor(u, "b", "c");
  }

  /** A run from the empty tables that leaves one contact with two open conversations. */
  lemma ReopeningGivesTwoOpen() returns (run: seq<Step>)
    ensures Run(Empty, run).Some? && TwoOpen(Run(Empty, run).value, "c")
  {
    FirstMessage();
    SecondMessage();
    hide Next, Enabled;
    run := [];
    RunSnoc(Empty, run, Begin("c", "p1", "m1", None, 0, "a"));
    run := run + [Begin("c", "p1", "m1", None, 0, "a")];
    RunSnoc(Empty, run, Commit("c"));
    run := run + [Commit("c")];
    RunSnoc(Empty, run, SetStatus("a", RESOLVED));
    run := run + [SetStatus("a", RESOLVED)];
    RunSnoc(Empty, run, Begin("c", "p2", "m2", None, 0, "b"));
    run := run + [Begin("c", "p2", "m2", None, 0, "b")];
    RunSnoc(Empty, run, Commit("c"));
    run := run + [Commit("c")];
    RunSnoc(Empty, run, SetStatus("a", OPEN));
    run := run + [SetStatus("a", OPEN)];
  }
}
