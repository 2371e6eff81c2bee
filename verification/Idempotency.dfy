/**
  Idempotency-Key records: what the three atomic scripts do to a map whose entries expire, and
  every interleaving of requests, handler results, store failures and clock steps over it.
 */
module Idempotency {
  import opened Common

  type Key = string
  type Fingerprint = string
  type Nonce = string
  type RequestId = nat

  const TTL_MS := 24 * 60 * 60 * 1000
  const IN_FLIGHT_TTL_MS := 60 * 1000

  datatype Response = Response(statusCode: int, body: string)

  /** A stored value. The lease of a claim is the exact in-flight value it wrote. */
  datatype Value =
    | InFlight(fingerprint: Fingerprint, nonce: Nonce)
    | Completed(fingerprint: Fingerprint, response: Response)

  datatype Entry = Entry(value: Value, expiresAt: int)

  type Records = map<Key, Entry>

  // ---------------------------------------------------------------------------
  // The scripts over a map with expiry
  // ---------------------------------------------------------------------------

  predicate Alive(m: Records, now: int, key: Key) {
    key in m && now <= m[key].expiresAt
  }

  function Get(m: Records, now: int, key: Key): Option<Value> {
    if Alive(m, now, key) then Some(m[key].value) else None
  }

  function Claim(m: Records, now: int, key: Key, lease: Value, ttl: nat): (Records, Option<Value>) {
    if Get(m, now, key).Some? then (m, Get(m, now, key))
    else (m[key := Entry(lease, now + ttl)], None)
  }

  function Complete(m: Records, now: int, key: Key, lease: Value, record: Value, ttl: nat): (Records, bool) {
    if Get(m, now, key) != Some(lease) then (m, false)
    else (m[key := Entry(record, now + ttl)], true)
  }

  function Release(m: Records, now: int, key: Key, lease: Value): Records {
    if Get(m, now, key) == Some(lease) then m - {key} else m
  }

  /** Two maps nobody can tell apart from now on. */
  ghost predicate SameView(m: Records, n: Records, now: int) {
    forall key, t | now <= t :: Get(m, t, key) == Get(n, t, key)
  }

  /** The scripts see and leave only what is alive: dead entries may stay or be deleted. */
  lemma ScriptsRespectViews(m: Records, n: Records, now: int, key: Key, lease: Value, record: Value, ttl: nat)
    requires SameView(m, n, now)
    ensures Claim(m, now, key, lease, ttl).1 == Claim(n, now, key, lease, ttl).1
    ensures Complete(m, now, key, lease, record, ttl).1 == Complete(n, now, key, lease, record, ttl).1
    ensures SameView(Claim(m, now, key, lease, ttl).0, Claim(n, now, key, lease, ttl).0, now)
    ensures SameView(Complete(m, now, key, lease, record, ttl).0, Complete(n, now, key, lease, record, ttl).0, now)
    ensures SameView(Release(m, now, key, lease), Release(n, now, key, lease), now)
  {
    assert Get(m, now, key) == Get(n, now, key);
    forall k, t | now <= t
      ensures Get(Claim(m, now, key, lease, ttl).0, t, k) == Get(Claim(n, now, key, lease, ttl).0, t, k)
      ensures Get(Complete(m, now, key, lease, record, ttl).0, t, k)
              == Get(Complete(n, now, key, lease, record, ttl).0, t, k)
      ensures Get(Release(m, now, key, lease), t, k) == Get(Release(n, now, key, lease), t, k)
    {
      assert Get(m, t, k) == Get(n, t, k);
    }
  }

  // ---------------------------------------------------------------------------
  // Requests
  // ---------------------------------------------------------------------------

  datatype Answer =
    | Ran(response: Response)
    | HandlerFailed
    | Replayed(response: Response)
    | InProgress
    | KeyReused
    | Unavailable
    | Gone

  datatype Request =
    | Running(key: Key, lease: Value)
    | Completing(key: Key, lease: Value, response: Response)
    | Releasing(key: Key, lease: Value)
    | Done(key: Key, fingerprint: Fingerprint, answer: Answer)

  /** Successful claims, releases that freed the key, and expiries, of one key (history). */
  datatype Ledger = Ledger(claims: nat, releases: nat, expiries: nat)

  datatype State = State(
    now: int,
    records: Records,
    requests: map<RequestId, Request>,
    used: set<Nonce>,
    ledger: map<Key, Ledger>)

  datatype Step =
    | Tick(elapsed: nat)
    | ClaimKey(r: RequestId, key: Key, fingerprint: Fingerprint, nonce: Nonce)
    | ClaimLost(r: RequestId, key: Key, fingerprint: Fingerprint, nonce: Nonce)
    | ClaimFailed(r: RequestId, key: Key, fingerprint: Fingerprint)
    | HandlerReturns(r: RequestId, response: Response)
    | HandlerThrows(r: RequestId)
    | StoreComplete(r: RequestId)
    | CompleteFailed(r: RequestId)
    | StoreRelease(r: RequestId)
    | ReleaseFailed(r: RequestId)
    | Crash(r: RequestId)

  function AnswerFromRecord(record: Value, fingerprint: Fingerprint): Answer {
    if record.fingerprint != fingerprint then KeyReused
    else if record.InFlight? then InProgress
    else Replayed(record.response)
  }

  predicate Enabled(s: State, a: Step) {
    match a
    case Tick(_) => true
    case ClaimKey(r, _, _, nonce) => r !in s.requests && nonce !in s.used
    case ClaimLost(r, _, _, nonce) => r !in s.requests && nonce !in s.used
    case ClaimFailed(r, _, _) => r !in s.requests
    case HandlerReturns(r, _) => r in s.requests && s.requests[r].Running?
    case HandlerThrows(r) => r in s.requests && s.requests[r].Running?
    case StoreComplete(r) => r in s.requests && s.requests[r].Completing?
    case CompleteFailed(r) => r in s.requests && s.requests[r].Completing?
    case StoreRelease(r) => r in s.requests && s.requests[r].Releasing?
    case ReleaseFailed(r) => r in s.requests && s.requests[r].Releasing?
    case Crash(r) => r in s.requests && !s.requests[r].Done?
  }

  function Of(s: State, key: Key): Ledger {
    if key in s.ledger then s.ledger[key] else Ledger(0, 0, 0)
  }

  function Present(s: State, key: Key): Option<Value> {
    Get(s.records, s.now, key)
  }

  function SetRequest(s: State, r: RequestId, q: Request): State {
    s.(requests := s.requests[r := q])
  }

  function Ended(q: Request, answer: Answer): Request
    requires !q.Done?
  {
    Done(q.key, q.lease.fingerprint, answer)
  }

  /** The claim script's effect, with the ledger entry of a successful claim. */
  function Claimed(s: State, key: Key, lease: Value): State
    requires lease.InFlight?
  {
    var t := s.(records := Claim(s.records, s.now, key, lease, IN_FLIGHT_TTL_MS).0,
                used := s.used + {lease.nonce});
    if Present(s, key).Some? then t
    else t.(ledger := s.ledger[key := Of(s, key).(claims := Of(s, key).claims + 1)])
  }

  function Released(s: State, key: Key, lease: Value): State {
    var t := s.(records := Release(s.records, s.now, key, lease));
    if Present(s, key) != Some(lease) then t
    else t.(ledger := s.ledger[key := Of(s, key).(releases := Of(s, key).releases + 1)])
  }

  function Ticked(s: State, elapsed: nat): State {
    var now := s.now + elapsed;
    s.(now := now,
       ledger := map key | key in s.ledger.Keys + s.records.Keys ::
         if Alive(s.records, s.now, key) && !Alive(s.records, now, key)
         then Of(s, key).(expiries := Of(s, key).expiries + 1) else Of(s, key))
  }

  function Next(s: State, a: Step): State
    requires Enabled(s, a)
  {
    match a
    case Tick(d) => Ticked(s, d)
    case ClaimKey(r, key, fingerprint, nonce) =>
      var lease := InFlight(fingerprint, nonce);
      SetRequest(Claimed(s, key, lease), r,
        if Present(s, key).Some? then Done(key, fingerprint, AnswerFromRecord(Present(s, key).value, fingerprint))
        else Running(key, lease))
    case ClaimLost(r, key, fingerprint, nonce) =>
      SetRequest(Claimed(s, key, InFlight(fingerprint, nonce)), r, Done(key, fingerprint, Unavailable))
    case ClaimFailed(r, key, fingerprint) => SetRequest(s, r, Done(key, fingerprint, Unavailable))
    case HandlerReturns(r, response) =>
      SetRequest(s, r, Completing(s.requests[r].key, s.requests[r].lease, response))
    case HandlerThrows(r) => SetRequest(s, r, Releasing(s.requests[r].key, s.requests[r].lease))
    case StoreComplete(r) =>
      var q := s.requests[r];
      var record := Completed(q.lease.fingerprint, q.response);
      SetRequest(s.(records := Complete(s.records, s.now, q.key, q.lease, record, TTL_MS).0),
                 r, Ended(q, Ran(q.response)))
    case CompleteFailed(r) => SetRequest(s, r, Ended(s.requests[r], Ran(s.requests[r].response)))
    case StoreRelease(r) =>
      SetRequest(Released(s, s.requests[r].key, s.requests[r].lease), r,
                 Ended(s.requests[r], HandlerFailed))
    case ReleaseFailed(r) => SetRequest(s, r, Ended(s.requests[r], HandlerFailed))
    case Crash(r) => SetRequest(s, r, Ended(s.requests[r], Gone))
  }

  function Run(s: State, run: seq<Step>): Option<State>
    decreases run
  {
    if run == [] then Some(s)
    else if Enabled(s, run[0]) then Run(Next(s, run[0]), run[1..])
    else None
  }

  lemma {:induction false} RunSnoc(s: State, run: seq<Step>, a: Step)
    requires Run(s, run).Some? && Enabled(Run(s, run).value, a)
    ensures Run(s, run + [a]) == Some(Next(Run(s, run).value, a))
    decreases run
  {
    if run == [] {
      assert run + [a] == [a];
      assert Run(Next(s, a), [a][1..]) == Some(Next(s, a));
    } else {
      assert (run + [a])[0] == run[0] && (run + [a])[1..] == run[1..] + [a];
      RunSnoc(Next(s, run[0]), run[1..], a);
    }
  }

  const Empty := State(0, map[], map[], {}, map[])

  // ---------------------------------------------------------------------------
  // What every run keeps
  // ---------------------------------------------------------------------------

  /** Claims not yet released or expired: one if a record is present, none if not. */
  predicate Balanced(s: State, key: Key) {
    Of(s, key).claims - Of(s, key).releases - Of(s, key).expiries == if Present(s, key).Some? then 1 else 0
  }

  predicate Holds(s: State, r: RequestId, lease: Value) {
    r in s.requests && !s.requests[r].Done? && s.requests[r].lease == lease
  }

  ghost predicate LeasesDistinct(s: State) {
    && (forall r <- s.requests | !s.requests[r].Done? ::
          s.requests[r].lease.InFlight? && s.requests[r].lease.nonce in s.used)
    && (forall r <- s.requests, q <- s.requests | r != q && !s.requests[r].Done? && !s.requests[q].Done? ::
          s.requests[r].lease.nonce != s.requests[q].lease.nonce)
    && (forall k <- s.records | s.records[k].value.InFlight? :: s.records[k].value.nonce in s.used)
  }

  ghost predicate Inv(s: State) {
    (forall key :: Balanced(s, key)) && LeasesDistinct(s)
  }

  lemma BalanceKept(s: State, a: Step, key: Key)
    requires Balanced(s, key) && Enabled(s, a)
    requires forall r <- s.requests | !s.requests[r].Done? :: s.requests[r].lease.InFlight?
    ensures Balanced(Next(s, a), key)
  {
  }

  /** A request at work after a step was at work before, with the same lease, or has just claimed. */
  lemma LeaseComesFrom(s: State, a: Step, r: RequestId)
    requires Enabled(s, a) && r in Next(s, a).requests && !Next(s, a).requests[r].Done?
    ensures var lease := Next(s, a).requests[r].lease;
            || Holds(s, r, lease)
            || (a.ClaimKey? && a.r == r && lease == InFlight(a.fingerprint, a.nonce))
  {
    hide Of, Present;
  }

  lemma RecordComesFrom(s: State, a: Step, key: Key)
    requires Enabled(s, a) && key in Next(s, a).records && Next(s, a).records[key].value.InFlight?
    ensures var value := Next(s, a).records[key].value;
            || (key in s.records && s.records[key].value == value)
            || ((a.ClaimKey? || a.ClaimLost?) && value.nonce == a.nonce)
  {
    hide Of;
  }

  lemma UsedGrows(s: State, a: Step)
    requires Enabled(s, a)
    ensures Next(s, a).used == s.used + if a.ClaimKey? || a.ClaimLost? then {a.nonce} else {}
  {
    hide Of, Get;
  }

  lemma LeasesKept(s: State, a: Step)
    requires LeasesDistinct(s) && Enabled(s, a)
    ensures LeasesDistinct(Next(s, a))
  {
    hide Next;
    UsedGrows(s, a);
    var t := Next(s, a);
    forall r | r in t.requests && !t.requests[r].Done?
      ensures t.requests[r].lease.InFlight? && t.requests[r].lease.nonce in t.used
      ensures Holds(s, r, t.requests[r].lease)
              || (a.ClaimKey? && a.r == r && t.requests[r].lease.nonce == a.nonce)
    {
      LeaseComesFrom(s, a, r);
    }
    forall k | k in t.records && t.records[k].value.InFlight?
      ensures t.records[k].value.nonce in t.used
    {
      RecordComesFrom(s, a, k);
    }
  }

  lemma {:induction false} InvHolds(s: State, run: seq<Step>)
    requires Inv(s) && Run(s, run).Some?
    ensures Inv(Run(s, run).value)
    decreases run
  {
    if run != [] {
      forall key
        ensures Balanced(Next(s, run[0]), key)
      {
        BalanceKept(s, run[0], key);
      }
      LeasesKept(s, run[0]);
      InvHolds(Next(s, run[0]), run[1..]);
    }
  }

  /** Conservation, over all interleavings: claims minus releases minus expiries is the presence. */
  lemma ClaimsBalance(run: seq<Step>, key: Key)
    requires Run(Empty, run).Some?
    ensures var s := Run(Empty, run).value;
            Of(s, key).claims == Of(s, key).releases + Of(s, key).expiries
                                 + if Present(s, key).Some? then 1 else 0
  {
    InvHolds(Empty, run);
    assert Balanced(Run(Empty, run).value, key);
  }

  /** Of all the requests still at work on one key, at most one holds its lease. */
  lemma AtMostOneHolder(run: seq<Step>, key: Key, r: RequestId, q: RequestId)
    requires Run(Empty, run).Some?
    requires var s := Run(Empty, run).value;
             && Present(s, key).Some? && Holds(s, r, Present(s, key).value)
             && Holds(s, q, Present(s, key).value)
    ensures r == q
  {
    InvHolds(Empty, run);
  }

  /**
    A request whose lease is not the present record of its key, because it expired or was lost,
    changes nothing when it completes or releases; one that holds it touches no other key.
   */
  lemma StaleLeaseChangesNothing(run: seq<Step>, a: Step, key: Key)
    requires Run(Empty, run).Some? && Enabled(Run(Empty, run).value, a)
    requires a.StoreComplete? || a.StoreRelease?
    ensures var s := Run(Empty, run).value;
            var t := Next(s, a);
            && (!(key == s.requests[a.r].key && Present(s, key) == Some(s.requests[a.r].lease)) ==>
                  Present(t, key) == Present(s, key))
            && (forall q | q != a.r && Present(s, key).Some? && Holds(s, q, Present(s, key).value) ::
                  Present(t, key) == Present(s, key) && Holds(t, q, Present(t, key).value))
  {
    InvHolds(Empty, run);
    var s := Run(Empty, run).value;
    assert !s.requests[a.r].Done?;
  }

  // ---------------------------------------------------------------------------
  // Completed records
  // ---------------------------------------------------------------------------

  /** The answers given to requests that reached the key during a run. */
  ghost predicate AnsweredFrom(s: State, t: State, key: Key, record: Value)
    requires record.Completed?
  {
    forall r <- t.requests | r !in s.requests && t.requests[r].key == key ::
      && t.requests[r].Done?
      && (t.requests[r].answer == Unavailable
          || t.requests[r].answer ==
             if t.requests[r].fingerprint == record.fingerprint then Replayed(record.response) else KeyReused)
  }

  /** A request keeps its key through a step, and an answered one its answer. */
  lemma RequestsStep(s: State, a: Step, r: RequestId)
    requires Enabled(s, a) && r in s.requests
    ensures r in Next(s, a).requests && Next(s, a).requests[r].key == s.requests[r].key
    ensures s.requests[r].Done? ==> Next(s, a).requests[r] == s.requests[r]
  {
    hide Of, Present;
  }

  lemma CompletedStep(s: State, a: Step, key: Key)
    requires LeasesDistinct(s) && Enabled(s, a)
    requires Present(s, key).Some? && Present(s, key).value.Completed?
    requires Next(s, a).now <= s.records[key].expiresAt
    ensures key in Next(s, a).records && Next(s, a).records[key] == s.records[key]
    ensures Of(Next(s, a), key) == Of(s, key)
  {
  }

  lemma CompletedAnswers(s: State, a: Step, key: Key)
    requires Enabled(s, a) && Present(s, key).Some? && Present(s, key).value.Completed?
    ensures AnsweredFrom(s, Next(s, a), key, Present(s, key).value)
  {
    hide Of, Alive;
  }

  lemma {:induction false} TimeMovesForward(s: State, run: seq<Step>)
    requires Run(s, run).Some?
    ensures s.now <= Run(s, run).value.now
    decreases run
  {
    if run != [] {
      TimeMovesForward(Next(s, run[0]), run[1..]);
    }
  }

  /**
    While a completed record lives, it stays as it is, and no request that arrives on the key runs
    its handler: one with the same fingerprint gets the stored response, any other the reused-key
    rejection, unless the store fails.
   */
  lemma {:induction false} CompletedAnswersRepeats(s: State, run: seq<Step>, key: Key)
    requires LeasesDistinct(s) && Run(s, run).Some?
    requires Present(s, key).Some? && Present(s, key).value.Completed?
    requires Run(s, run).value.now <= s.records[key].expiresAt
    ensures var t := Run(s, run).value;
            && Present(t, key) == Present(s, key) && Of(t, key) == Of(s, key)
            && AnsweredFrom(s, t, key, Present(s, key).value)
    decreases run
  {
    if run != [] {
      var n := Next(s, run[0]);
      TimeMovesForward(n, run[1..]);
      CompletedStep(s, run[0], key);
      CompletedAnswers(s, run[0], key);
      LeasesKept(s, run[0]);
      hide Next, LeasesDistinct;
      CompletedAnswersRepeats(n, run[1..], key);
      DoneStays(n, run[1..]);
      var t := Run(s, run).value;
      forall r | r in t.requests && r !in s.requests && t.requests[r].key == key
        ensures r in n.requests ==> n.requests[r] == t.requests[r]
      {
        assert r in n.requests ==> n.requests[r].key == key;
      }
    }
  }

  /**
    For a day after a request's response was stored, every repeat is answered with it, and requests
    with another payload are rejected; no handler runs.
   */
  lemma RepliesLastADay(s: State, r: RequestId, run: seq<Step>)
    requires LeasesDistinct(s) && r in s.requests && s.requests[r].Completing?
    requires Present(s, s.requests[r].key) == Some(s.requests[r].lease) && s.requests[r].lease.InFlight?
    requires Enabled(s, StoreComplete(r)) && Run(Next(s, StoreComplete(r)), run).Some?
    requires Run(Next(s, StoreComplete(r)), run).value.now <= s.now + 86_400_000
    ensures var q, t := s.requests[r], Run(Next(s, StoreComplete(r)), run).value;
            && Present(t, q.key) == Some(Completed(q.lease.fingerprint, q.response))
            && forall other <- t.requests | other !in s.requests && t.requests[other].key == q.key ::
                 && t.requests[other].Done?
                 && (t.requests[other].answer == Unavailable
                     || t.requests[other].answer ==
                        if t.requests[other].fingerprint == q.lease.fingerprint then Replayed(q.response)
                        else KeyReused)
  {
    var n := Next(s, StoreComplete(r));
    LeasesKept(s, StoreComplete(r));
    TimeMovesForward(n, run);
    CompletedAnswersRepeats(n, run, s.requests[r].key);
  }

  /** A day later the key is free again. */
  lemma RepliesEndAfterADay(s: State, r: RequestId, elapsed: nat)
    requires r in s.requests && s.requests[r].Completing?
    requires Present(s, s.requests[r].key) == Some(s.requests[r].lease) && Enabled(s, StoreComplete(r))
    ensures var n := Next(s, StoreComplete(r));
            Present(Next(n, Tick(elapsed)), s.requests[r].key).None? <==> elapsed > 86_400_000
  {
  }

  /** A request that never comes back holds its key for a minute. */
  lemma CrashedRequestsFreeTheirKey(s: State, r: RequestId, key: Key, fingerprint: Fingerprint, nonce: Nonce,
                                    elapsed: nat)
    requires Enabled(s, ClaimKey(r, key, fingerprint, nonce)) && Present(s, key).None?
    ensures var n := Next(s, ClaimKey(r, key, fingerprint, nonce));
            && n.requests[r] == Running(key, InFlight(fingerprint, nonce))
            && Enabled(n, Crash(r))
            && (Present(Next(Next(n, Crash(r)), Tick(elapsed)), key).None? <==> elapsed > 60_000)
  {
  }

  /** A request keeps its key, and an answered one its answer. */
  lemma {:induction false} DoneStays(s: State, run: seq<Step>)
    requires Run(s, run).Some?
    ensures var t := Run(s, run).value;
            forall r <- s.requests :: r in t.requests && t.requests[r].key == s.requests[r].key
                                      && (s.requests[r].Done? ==> t.requests[r] == s.requests[r])
    decreases run
  {
    hide Next;
    if run != [] {
      forall r | r in s.requests
        ensures r in Next(s, run[0]).requests && Next(s, run[0]).requests[r].key == s.requests[r].key
        ensures s.requests[r].Done? ==> Next(s, run[0]).requests[r] == s.requests[r]
      {
        RequestsStep(s, run[0], r);
      }
      DoneStays(Next(s, run[0]), run[1..]);
    }
  }
}

/** The per-process store: a map whose dead entries are deleted when someone looks at them. */
module MemoryIdempotency {
  import opened Common
  import opened Idempotency

  /** The lease is kept beside an in-flight value, and absent beside a completed one. */
  datatype MemoryEntry = MemoryEntry(value: Value, lease: Option<Value>, expiresAt: int)

  datatype ClaimResult = Taken(lease: Value) | Found(record: Value)

  function Plain(records: map<Key, MemoryEntry>): Records {
    map key | key in records :: Entry(records[key].value, records[key].expiresAt)
  }

  /**
    `shadow` is what the scripts would hold after the same calls. The two stores differ only in dead
    entries, as long as the clock does not run backwards.
   */
  class MemoryIdempotencyStore {
    var records: map<Key, MemoryEntry>
    ghost var shadow: Records
    ghost var clock: int

    ghost predicate Valid()
      reads this
    {
      && SameView(Plain(records), shadow, clock)
      && forall key <- records ::
           records[key].lease == if records[key].value.InFlight? then Some(records[key].value) else None
    }

    constructor (ghost now: int)
      ensures Valid() && clock == now && shadow == map[]
    {
      records := map[];
      shadow, clock := map[], now;
    }

    method Current(key: Key, now: int) returns (entry: Option<MemoryEntry>)
      requires Valid() && clock <= now
      modifies `records, `clock
      ensures Valid() && clock == now
      ensures entry.Some? <==> Get(shadow, now, key).Some?
      ensures entry.Some? ==> entry.value.value == Get(shadow, now, key).value
      ensures entry.Some? ==> key in records && records[key] == entry.value
      ensures entry.None? ==> key !in records
      ensures entry.Some? ==>
                entry.value.lease == if entry.value.value.InFlight? then Some(entry.value.value) else None
    {
      entry := if key in records then Some(records[key]) else None;
      assert Get(Plain(records), now, key) == Get(shadow, now, key);
      clock := now;
      if entry.Some? && now > entry.value.expiresAt {
        ghost var before := records;
        records := records - {key};
        entry := None;
        forall k, t | now <= t
          ensures Get(Plain(records), t, k) == Get(shadow, t, k)
        {
          assert Get(Plain(before), t, k) == Get(shadow, t, k);
        }
      }
    }

    /** The claim script, with the same result. `nonce` is the generated UUID. */
    method Claim(key: Key, fingerprint: Fingerprint, nonce: Nonce, ttl: nat, now: int)
      returns (r: ClaimResult)
      requires Valid() && clock <= now
      modifies this
      ensures Valid() && clock == now
      ensures var (after, current) :=
                Idempotency.Claim(old(shadow), now, key, InFlight(fingerprint, nonce), ttl);
              && shadow == after
              && r == if current.Some? then Found(current.value) else Taken(InFlight(fingerprint, nonce))
    {
      var existing := Current(key, now);
      if existing.Some? {
        return Found(existing.value.value);
      }
      var lease := InFlight(fingerprint, nonce);
      ScriptsRespectViews(Plain(records), shadow, now, key, lease, lease, ttl);
      ghost var before := Plain(records);
      assert Get(before, now, key) == Get(shadow, now, key);
      records := records[key := MemoryEntry(lease, Some(lease), now + ttl)];
      shadow := shadow[key := Entry(lease, now + ttl)];
      assert Plain(records) == before[key := Entry(lease, now + ttl)];
      r := Taken(lease);
    }

    method Complete(key: Key, lease: Value, fingerprint: Fingerprint, response: Response, ttl: nat, now: int)
      returns (stored: bool)
      requires Valid() && clock <= now && lease.InFlight?
      modifies this
      ensures Valid() && clock == now
      ensures (shadow, stored) ==
              Idempotency.Complete(old(shadow), now, key, lease, Completed(fingerprint, response), ttl)
    {
      var entry := Current(key, now);
      if entry.None? || entry.value.lease != Some(lease) {
        return false;
      }
      ghost var before := Plain(records);
      var record := Completed(fingerprint, response);
      ScriptsRespectViews(before, shadow, now, key, lease, record, ttl);
      assert Get(before, now, key) == Get(shadow, now, key);
      records := records[key := MemoryEntry(record, None, now + ttl)];
      shadow := shadow[key := Entry(record, now + ttl)];
      assert Plain(records) == before[key := Entry(record, now + ttl)];
      stored := true;
    }

    method Release(key: Key, lease: Value, now: int)
      requires Valid() && clock <= now && lease.InFlight?
      modifies this
      ensures Valid() && clock == now
      ensures shadow == Idempotency.Release(old(shadow), now, key, lease)
    {
      var entry := Current(key, now);
      if entry.Some? && entry.value.lease == Some(lease) {
        ghost var before := Plain(records);
        ScriptsRespectViews(before, shadow, now, key, lease, lease, 0);
        assert Get(before, now, key) == Get(shadow, now, key);
        records := records - {key};
        shadow := shadow - {key};
        assert Plain(records) == before - {key};
      }
    }
  }
}
