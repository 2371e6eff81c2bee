/**
  Fixed-window rate limits: the atomic Redis script, the per-process store, and how many hits of one
  identity are let through over any stretch of time.
 */
module RateLimit {
  import opened Common

  type Key = string

  const MAX_KEYS := 10_000

  // ---------------------------------------------------------------------------
  // One identity in each store
  // ---------------------------------------------------------------------------

  /** The per-process entry. */
  datatype Window = Window(count: nat, resetAt: int)

  /** A hit in memory: a missing or past window is replaced, and its first hit always passes. */
  function MemoryHit(w: Option<Window>, now: int, limit: int, windowMs: nat): (Window, bool) {
    if w.None? || w.value.resetAt < now then (Window(1, now + windowMs), true)
    else (w.value.(count := w.value.count + 1), w.value.count + 1 <= limit)
  }

  /** A Redis counter, with the moment its expiry is set to, if any. */
  datatype Counter = Counter(count: nat, expiresAt: Option<int>)

  predicate Alive(c: Option<Counter>, now: int) {
    c.Some? && (c.value.expiresAt.None? || now <= c.value.expiresAt.value)
  }

  /** INCR keeps the expiry of a live counter and creates a missing one without any. */
  function Incr(c: Option<Counter>, now: int): Counter {
    if Alive(c, now) then c.value.(count := c.value.count + 1) else Counter(1, None)
  }

  /** The script: INCR, then PEXPIRE on a new counter or one without an expiry. */
  function RedisHit(c: Option<Counter>, now: int, limit: int, windowMs: nat): (Counter, bool) {
    var incremented := Incr(c, now);
    (if incremented.count == 1 || incremented.expiresAt.None?
     then incremented.(expiresAt := Some(now + windowMs)) else incremented,
     incremented.count <= limit)
  }

  /** No counter blocks its key for good: one window after a hit, even one without an expiry has started over. */
  lemma CountersRecover(c: Option<Counter>, now: int, later: int, limit: int, windowMs: nat)
    requires c.Some? && c.value.expiresAt.Some? ==> c.value.expiresAt.value <= now + windowMs
    requires limit >= 1 && later > now + windowMs
    ensures RedisHit(Some(RedisHit(c, now, limit, windowMs).0), later, limit, windowMs)
            == (Counter(1, Some(later + windowMs)), true)
  {
  }

  // ---------------------------------------------------------------------------
  // Sequences of hits
  // ---------------------------------------------------------------------------

  ghost predicate Ordered(times: seq<int>) {
    forall i, j | 0 <= i < j < |times| :: times[i] <= times[j]
  }

  function MemoryVerdicts(w: Option<Window>, times: seq<int>, limit: int, windowMs: nat): seq<bool>
    decreases times
  {
    if times == [] then []
    else
      var (next, ok) := MemoryHit(w, times[0], limit, windowMs);
      [ok] + MemoryVerdicts(Some(next), times[1..], limit, windowMs)
  }

  // ---------------------------------------------------------------------------
  // How many hits pass
  // ---------------------------------------------------------------------------

  function After(w: Option<Window>, times: seq<int>, limit: int, windowMs: nat): Option<Window>
    decreases times
  {
    if times == [] then w
    else After(Some(MemoryHit(w, times[0], limit, windowMs).0), times[1..], limit, windowMs)
  }

  function Passed(verdicts: seq<bool>): nat {
    if verdicts == [] then 0 else (if verdicts[0] then 1 else 0) + Passed(verdicts[1..])
  }

  function Accepted(w: Option<Window>, times: seq<int>, limit: int, windowMs: nat): nat {
    Passed(MemoryVerdicts(w, times, limit, windowMs))
  }

  function Min(a: int, b: int): int {
    if a < b then a else b
  }

  lemma AcceptedFirst(w: Option<Window>, times: seq<int>, limit: int, windowMs: nat)
    requires times != []
    ensures var (next, ok) := MemoryHit(w, times[0], limit, windowMs);
            Accepted(w, times, limit, windowMs) ==
            (if ok then 1 else 0) + Accepted(Some(next), times[1..], limit, windowMs)
  {
    var (next, ok) := MemoryHit(w, times[0], limit, windowMs);
    var rest := MemoryVerdicts(Some(next), times[1..], limit, windowMs);
    assert ([ok] + rest)[1..] == rest;
  }

  lemma NoHits(w: Option<Window>, limit: int, windowMs: nat)
    ensures Accepted(w, [], limit, windowMs) == 0 && After(w, [], limit, windowMs) == w
  {
  }

  /** Hits that fall into a running window pass until its count reaches the limit. */
  lemma {:induction false} RunningWindowAccepts(w: Window, times: seq<int>, limit: int, windowMs: nat)
    requires limit >= 0 && forall i | 0 <= i < |times| :: times[i] <= w.resetAt
    ensures Accepted(Some(w), times, limit, windowMs) == Min(w.count + |times|, limit) - Min(w.count, limit)
    ensures After(Some(w), times, limit, windowMs) == Some(w.(count := w.count + |times|))
    decreases times
  {
    if times != [] {
      AcceptedFirst(Some(w), times, limit, windowMs);
      RunningWindowAccepts(w.(count := w.count + 1), times[1..], limit, windowMs);
    }
  }

  predicate Opens(w: Option<Window>, t: int) {
    w.None? || w.value.resetAt < t
  }

  /** A window accepts exactly the smaller of its hits and the limit. */
  lemma EachWindowAcceptsMin(w: Option<Window>, times: seq<int>, limit: int, windowMs: nat)
    requires limit >= 1 && times != [] && Opens(w, times[0])
    requires forall i | 0 <= i < |times| :: times[i] <= times[0] + windowMs
    ensures Accepted(w, times, limit, windowMs) == Min(|times|, limit)
    ensures After(w, times, limit, windowMs) == Some(Window(|times|, times[0] + windowMs))
  {
    AcceptedFirst(w, times, limit, windowMs);
    RunningWindowAccepts(Window(1, times[0] + windowMs), times[1..], limit, windowMs);
  }

  lemma {:induction false} AcceptedConcat(
    w: Option<Window>, before: seq<int>, times: seq<int>, limit: int, windowMs: nat)
    ensures Accepted(w, before + times, limit, windowMs) ==
            Accepted(w, before, limit, windowMs)
            + Accepted(After(w, before, limit, windowMs), times, limit, windowMs)
    decreases before
  {
    if before == [] {
      assert before + times == times;
    } else {
      assert (before + times)[0] == before[0] && (before + times)[1..] == before[1..] + times;
      AcceptedFirst(w, before, limit, windowMs);
      AcceptedFirst(w, before + times, limit, windowMs);
      AcceptedConcat(Some(MemoryHit(w, before[0], limit, windowMs).0), before[1..], times, limit, windowMs);
    }
  }

  /** The length of the part that still falls into the running window. */
  function Within(times: seq<int>, resetAt: int): (n: nat)
    ensures n <= |times|
    ensures forall i | 0 <= i < n :: times[i] <= resetAt
    ensures n < |times| ==> times[n] > resetAt
  {
    if times == [] || times[0] > resetAt then 0 else 1 + Within(times[1..], resetAt)
  }

  lemma LaterHitsAreClose(times: seq<int>, n: nat, windowMs: nat)
    requires Ordered(times) && n < |times| && times[|times| - 1] - times[0] <= windowMs
    ensures forall i | 0 <= i < |times[n..]| :: times[n..][i] <= times[n..][0] + windowMs
  {
    forall i | 0 <= i < |times[n..]|
      ensures times[n..][i] <= times[n..][0] + windowMs
    {
      assert times[n..][i] == times[n + i];
    }
  }

  lemma AtMostTwoWindows(w: Option<Window>, times: seq<int>, limit: int, windowMs: nat)
    requires limit >= 1 && Ordered(times) && times != [] && (w.Some? ==> w.value.count >= 1)
    requires times[|times| - 1] - times[0] <= windowMs
    ensures Accepted(w, times, limit, windowMs) <= 2 * limit - 1
  {
    hide Ordered, Accepted, After;
    var n := if w.None? then 0 else Within(times, w.value.resetAt);
    var earlier, later := times[..n], times[n..];
    assert times == earlier + later;
    AcceptedConcat(w, earlier, later, limit, windowMs);
    if n > 0 {
      RunningWindowAccepts(w.value, earlier, limit, windowMs);
    }
    NoHits(w, limit, windowMs);
    NoHits(After(w, earlier, limit, windowMs), limit, windowMs);
    assert n == 0 ==> earlier == [];
    if later != [] {
      LaterHitsAreClose(times, n, windowMs);
      EachWindowAcceptsMin(After(w, earlier, limit, windowMs), later, limit, windowMs);
    }
  }

  lemma {:induction false} CountsArePositive(w: Option<Window>, times: seq<int>, limit: int, windowMs: nat)
    requires w.Some? ==> w.value.count >= 1
    ensures After(w, times, limit, windowMs).Some? ==> After(w, times, limit, windowMs).value.count >= 1
    decreases times
  {
    if times != [] {
      CountsArePositive(Some(MemoryHit(w, times[0], limit, windowMs).0), times[1..], limit, windowMs);
    }
  }

  /**
    The sliding bound, for every sequence of hits: of the hits in any stretch of time no longer than
    the window, at most 2 * limit - 1 are accepted, although windows start where they like.
   */
  lemma SlidingBound(times: seq<int>, i: nat, j: nat, limit: int, windowMs: nat)
    requires limit >= 1 && Ordered(times) && i < j <= |times| && times[j - 1] - times[i] <= windowMs
    ensures Accepted(None, times[..j], limit, windowMs) - Accepted(None, times[..i], limit, windowMs)
            <= 2 * limit - 1
  {
    assert times[..j] == times[..i] + times[i..j];
    AcceptedConcat(None, times[..i], times[i..j], limit, windowMs);
    CountsArePositive(None, times[..i], limit, windowMs);
    AtMostTwoWindows(After(None, times[..i], limit, windowMs), times[i..j], limit, windowMs);
  }

  function Times(n: nat, t: int): (s: seq<int>)
    ensures |s| == n && forall i | 0 <= i < n :: s[i] == t
  {
    seq(n, _ => t)
  }

  /** And the bound is reached: the end of one window directly followed by the start of the next. */
  lemma SlidingBoundIsReached(limit: int, windowMs: nat) returns (times: seq<int>, i: nat)
    requires limit >= 1 && windowMs >= 1
    ensures Ordered(times) && i < |times| && times[|times| - 1] - times[i] <= windowMs
    ensures Accepted(None, times, limit, windowMs) - Accepted(None, times[..i], limit, windowMs)
            == 2 * limit - 1
  {
    var first, second := [0] + Times(limit - 1, windowMs), Times(limit, windowMs + 1);
    times, i := first + second, 1;
    EachWindowAcceptsMin(None, first, limit, windowMs);
    EachWindowAcceptsMin(After(None, first, limit, windowMs), second, limit, windowMs);
    AcceptedConcat(None, first, second, limit, windowMs);
    assert times[..1] == [0];
    EachWindowAcceptsMin(None, [0], limit, windowMs);
  }

  // ---------------------------------------------------------------------------
  // Whole stores
  // ---------------------------------------------------------------------------

  /** A scope's limit and window; a key belongs to one scope. */
  datatype Rule = Rule(limit: int, windowMs: nat)

  type Rules = Key -> Rule

  datatype Request = Request(key: Key, now: int)

  type Windows = map<Key, Window>

  type Counters = map<Key, Counter>

  function Lookup<T>(m: map<Key, T>, key: Key): Option<T> {
    if key in m then Some(m[key]) else None
  }

  /** A new window that makes the map too large empties it, that window included. */
  function MemoryStoreHit(m: Windows, h: Request, rule: Rule): (Windows, bool) {
    var (w, ok) := MemoryHit(Lookup(m, h.key), h.now, rule.limit, rule.windowMs);
    var n := m[h.key := w];
    (if Opens(Lookup(m, h.key), h.now) && |n| > MAX_KEYS then map[] else n, ok)
  }

  function RedisStoreHit(m: Counters, h: Request, rule: Rule): (Counters, bool) {
    var (c, ok) := RedisHit(Lookup(m, h.key), h.now, rule.limit, rule.windowMs);
    (m[h.key := c], ok)
  }

  function MemoryStoreVerdicts(m: Windows, hits: seq<Request>, rules: Rules): seq<bool>
    decreases hits
  {
    if hits == [] then []
    else
      var (n, ok) := MemoryStoreHit(m, hits[0], rules(hits[0].key));
      [ok] + MemoryStoreVerdicts(n, hits[1..], rules)
  }

  function RedisStoreVerdicts(m: Counters, hits: seq<Request>, rules: Rules): seq<bool>
    decreases hits
  {
    if hits == [] then []
    else
      var (n, ok) := RedisStoreHit(m, hits[0], rules(hits[0].key));
      [ok] + RedisStoreVerdicts(n, hits[1..], rules)
  }

  function MemoryStoreAfter(m: Windows, hits: seq<Request>, rules: Rules): Windows
    decreases hits
  {
    if hits == [] then m
    else MemoryStoreAfter(MemoryStoreHit(m, hits[0], rules(hits[0].key)).0, hits[1..], rules)
  }

  function RedisStoreAfter(m: Counters, hits: seq<Request>, rules: Rules): Counters
    decreases hits
  {
    if hits == [] then m
    else RedisStoreAfter(RedisStoreHit(m, hits[0], rules(hits[0].key)).0, hits[1..], rules)
  }

  /** The two stores hold the same for an identity. */
  predicate Coupled(w: Option<Window>, c: Option<Counter>) {
    match w
    case None => c == None
    case Some(x) => c == Some(Counter(x.count, Some(x.resetAt))) && x.count >= 1
  }

  ghost predicate AllCoupled(m: Windows, c: Counters) {
    forall key :: Coupled(Lookup(m, key), Lookup(c, key))
  }

  predicate Empties(m: Windows, h: Request) {
    Opens(Lookup(m, h.key), h.now) && h.key !in m && |m| >= MAX_KEYS
  }

  ghost predicate NeverEmptied(m: Windows, hits: seq<Request>, rules: Rules)
    decreases hits
  {
    hits == []
    || (!Empties(m, hits[0])
        && NeverEmptied(MemoryStoreHit(m, hits[0], rules(hits[0].key)).0, hits[1..], rules))
  }

  ghost predicate WithinKeys(hits: seq<Request>, keys: set<Key>) {
    forall h <- hits :: h.key in keys
  }

  lemma SizeAfterUpdate(m: Windows, key: Key, w: Window)
    ensures |m[key := w]| == |m| + if key in m then 0 else 1
  {
    assert m[key := w].Keys == m.Keys + {key};
  }

  /** One identity: same verdict, still coupled. */
  lemma HitsAgree(w: Option<Window>, c: Option<Counter>, now: int, rule: Rule)
    requires Coupled(w, c) && rule.limit >= 1
    ensures MemoryHit(w, now, rule.limit, rule.windowMs).1 == RedisHit(c, now, rule.limit, rule.windowMs).1
    ensures Coupled(Some(MemoryHit(w, now, rule.limit, rule.windowMs).0),
                    Some(RedisHit(c, now, rule.limit, rule.windowMs).0))
  {
  }

  lemma HitWithoutEmptying(m: Windows, h: Request, rule: Rule)
    requires !Empties(m, h) && |m| <= MAX_KEYS
    ensures var (w, ok) := MemoryHit(Lookup(m, h.key), h.now, rule.limit, rule.windowMs);
            MemoryStoreHit(m, h, rule) == (m[h.key := w], ok) && |m[h.key := w]| <= MAX_KEYS
  {
    hide MemoryHit;
    SizeAfterUpdate(m, h.key, MemoryHit(Lookup(m, h.key), h.now, rule.limit, rule.windowMs).0);
  }

  /** One hit on coupled stores that does not empty the map. */
  lemma HitKeepsCoupled(m: Windows, c: Counters, h: Request, rule: Rule)
    requires AllCoupled(m, c) && rule.limit >= 1 && !Empties(m, h) && |m| <= MAX_KEYS
    ensures MemoryStoreHit(m, h, rule).1 == RedisStoreHit(c, h, rule).1
    ensures AllCoupled(MemoryStoreHit(m, h, rule).0, RedisStoreHit(c, h, rule).0)
    ensures |MemoryStoreHit(m, h, rule).0| <= MAX_KEYS
  {
    HitWithoutEmptying(m, h, rule);
    HitsAgree(Lookup(m, h.key), Lookup(c, h.key), h.now, rule);
    hide MemoryHit, RedisHit, Coupled, MemoryStoreHit;
    forall key
      ensures Coupled(Lookup(MemoryStoreHit(m, h, rule).0, key), Lookup(RedisStoreHit(c, h, rule).0, key))
    {
      assert Coupled(Lookup(m, key), Lookup(c, key));
    }
  }

  /** As long as the map is not emptied, the two stores give the same verdicts. */
  lemma {:induction false} StoresAgreeUntilEmptied(m: Windows, c: Counters, hits: seq<Request>, rules: Rules)
    requires AllCoupled(m, c) && |m| <= MAX_KEYS && NeverEmptied(m, hits, rules)
    requires forall h <- hits :: rules(h.key).limit >= 1
    ensures MemoryStoreVerdicts(m, hits, rules) == RedisStoreVerdicts(c, hits, rules)
    decreases hits
  {
    if hits != [] {
      assert hits[0] in hits && forall h <- hits[1..] :: h in hits;
      HitKeepsCoupled(m, c, hits[0], rules(hits[0].key));
      hide AllCoupled, MemoryStoreHit, RedisStoreHit, Empties;
      StoresAgreeUntilEmptied(MemoryStoreHit(m, hits[0], rules(hits[0].key)).0,
                              RedisStoreHit(c, hits[0], rules(hits[0].key)).0, hits[1..], rules);
    }
  }

  lemma SubsetSize(a: set<Key>, b: set<Key>)
    requires a <= b
    ensures |a| <= |b|
  {
    if a != {} {
      var x :| x in a;
      SubsetSize(a - {x}, b - {x});
    }
  }

  lemma {:induction false} FewKeysNeverEmpty(m: Windows, hits: seq<Request>, rules: Rules, keys: set<Key>)
    requires m.Keys <= keys && WithinKeys(hits, keys) && |keys| <= MAX_KEYS
    ensures NeverEmptied(m, hits, rules)
    decreases hits
  {
    if hits != [] {
      var h, rule := hits[0], rules(hits[0].key);
      assert h in hits && forall x <- hits[1..] :: x in hits;
      SubsetSize(m.Keys + {h.key}, keys);
      assert h.key !in m ==> |m.Keys + {h.key}| == |m.Keys| + 1;
      SizeAfterUpdate(m, h.key, MemoryHit(Lookup(m, h.key), h.now, rule.limit, rule.windowMs).0);
      SubsetSize(m.Keys, keys);
      FewKeysNeverEmpty(MemoryStoreHit(m, h, rule).0, hits[1..], rules, keys);
    }
  }

  // A sequence on which the stores differ: one identity uses up its limit, enough others come to
  // empty the map, and the first is let through again.

  lemma MemoryUnfolds(m: Windows, a: seq<Request>, rules: Rules)
    requires a != []
    ensures var (n, ok) := MemoryStoreHit(m, a[0], rules(a[0].key));
            && MemoryStoreVerdicts(m, a, rules) == [ok] + MemoryStoreVerdicts(n, a[1..], rules)
            && MemoryStoreAfter(m, a, rules) == MemoryStoreAfter(n, a[1..], rules)
  {
  }

  lemma {:induction false} MemoryVerdictsConcat(m: Windows, a: seq<Request>, b: seq<Request>, rules: Rules)
    ensures MemoryStoreVerdicts(m, a + b, rules) ==
            MemoryStoreVerdicts(m, a, rules) + MemoryStoreVerdicts(MemoryStoreAfter(m, a, rules), b, rules)
    ensures MemoryStoreAfter(m, a + b, rules) == MemoryStoreAfter(MemoryStoreAfter(m, a, rules), b, rules)
    ensures |MemoryStoreVerdicts(m, a, rules)| == |a|
    decreases a
  {
    if a == [] {
      assert a + b == b;
    } else {
      hide MemoryStoreHit, MemoryStoreVerdicts, MemoryStoreAfter;
      assert (a + b)[0] == a[0] && (a + b)[1..] == a[1..] + b;
      MemoryUnfolds(m, a, rules);
      MemoryUnfolds(m, a + b, rules);
      MemoryVerdictsConcat(MemoryStoreHit(m, a[0], rules(a[0].key)).0, a[1..], b, rules);
    }
  }

  lemma {:induction false} RedisVerdictsConcat(m: Counters, a: seq<Request>, b: seq<Request>, rules: Rules)
    ensures RedisStoreVerdicts(m, a + b, rules) ==
            RedisStoreVerdicts(m, a, rules) + RedisStoreVerdicts(RedisStoreAfter(m, a, rules), b, rules)
    ensures RedisStoreAfter(m, a + b, rules) == RedisStoreAfter(RedisStoreAfter(m, a, rules), b, rules)
    ensures |RedisStoreVerdicts(m, a, rules)| == |a|
    decreases a
  {
    if a == [] {
      assert a + b == b;
    } else {
      hide RedisStoreHit;
      assert (a + b)[0] == a[0] && (a + b)[1..] == a[1..] + b;
      RedisVerdictsConcat(RedisStoreHit(m, a[0], rules(a[0].key)).0, a[1..], b, rules);
    }
  }

  function HitsOf(keys: seq<Key>): (hits: seq<Request>)
    ensures |hits| == |keys| && forall i | 0 <= i < |keys| :: hits[i] == Request(keys[i], 0)
  {
    seq(|keys|, i requires 0 <= i < |keys| => Request(keys[i], 0))
  }

  lemma HitsOfSnoc(keys: seq<Key>, key: Key)
    ensures HitsOf(keys + [key]) == HitsOf(keys) + [Request(key, 0)]
  {
  }

  lemma OneMemoryHit(m: Windows, h: Request, rules: Rules)
    ensures MemoryStoreAfter(m, [h], rules) == MemoryStoreHit(m, h, rules(h.key)).0
    ensures MemoryStoreVerdicts(m, [h], rules) == [MemoryStoreHit(m, h, rules(h.key)).1]
  {
    assert [h][1..] == [];
  }

  lemma OneRedisHit(m: Counters, h: Request, rules: Rules)
    ensures RedisStoreAfter(m, [h], rules) == RedisStoreHit(m, h, rules(h.key)).0
    ensures RedisStoreVerdicts(m, [h], rules) == [RedisStoreHit(m, h, rules(h.key)).1]
  {
    assert [h][1..] == [];
  }

  lemma MemorySnoc(m: Windows, before: seq<Request>, h: Request, rules: Rules)
    ensures MemoryStoreAfter(m, before + [h], rules)
            == MemoryStoreHit(MemoryStoreAfter(m, before, rules), h, rules(h.key)).0
  {
    MemoryVerdictsConcat(m, before, [h], rules);
    OneMemoryHit(MemoryStoreAfter(m, before, rules), h, rules);
  }

  lemma RedisSnoc(m: Counters, before: seq<Request>, h: Request, rules: Rules)
    ensures RedisStoreAfter(m, before + [h], rules)
            == RedisStoreHit(RedisStoreAfter(m, before, rules), h, rules(h.key)).0
  {
    RedisVerdictsConcat(m, before, [h], rules);
    OneRedisHit(RedisStoreAfter(m, before, rules), h, rules);
  }

  lemma FirstOfA(a: Key, rule: Rule)
    ensures MemoryStoreHit(map[], Request(a, 0), rule).0 == map[a := Window(1, rule.windowMs)]
    ensures RedisStoreHit(map[], Request(a, 0), rule).0 == map[a := Counter(1, Some(rule.windowMs))]
  {
    assert |map[a := Window(1, rule.windowMs)]| == 1;
  }

  lemma MoreOfA(a: Key, rule: Rule, n: nat)
    requires n >= 1
    ensures MemoryStoreHit(map[a := Window(n, rule.windowMs)], Request(a, 0), rule).0
            == map[a := Window(n + 1, rule.windowMs)]
    ensures RedisStoreHit(map[a := Counter(n, Some(rule.windowMs))], Request(a, 0), rule).0
            == map[a := Counter(n + 1, Some(rule.windowMs))]
  {
  }

  /** The identity `a` after `n` hits at one time. */
  lemma {:induction false} Repeats(a: Key, n: nat, rules: Rules)
    requires n >= 1
    ensures var hits, at := HitsOf(seq(n, _ => a)), rules(a).windowMs;
            && MemoryStoreAfter(map[], hits, rules) == map[a := Window(n, at)]
            && RedisStoreAfter(map[], hits, rules) == map[a := Counter(n, Some(at))]
  {
    hide MemoryStoreAfter, RedisStoreAfter, MemoryStoreHit, RedisStoreHit;
    var before, hit := HitsOf(seq(n - 1, _ => a)), Request(a, 0);
    assert HitsOf(seq(n, _ => a)) == before + [hit];
    MemorySnoc(map[], before, hit, rules);
    RedisSnoc(map[], before, hit, rules);
    if n == 1 {
      assert before == [];
      NothingHit(rules);
      FirstOfA(a, rules(a));
    } else {
      Repeats(a, n - 1, rules);
      MoreOfA(a, rules(a), n - 1);
    }
  }

  lemma NothingHit(rules: Rules)
    ensures MemoryStoreAfter(map[], [], rules) == map[] && RedisStoreAfter(map[], [], rules) == map[]
  {
  }

  ghost predicate Distinct(keys: seq<Key>) {
    forall i, j | 0 <= i < j < |keys| :: keys[i] != keys[j]
  }

  lemma NewIdentity(m: Windows, key: Key, rule: Rule)
    requires key !in m
    ensures MemoryStoreHit(m, Request(key, 0), rule).0 ==
            if |m| >= MAX_KEYS then map[] else m[key := Window(1, rule.windowMs)]
  {
    SizeAfterUpdate(m, key, Window(1, rule.windowMs));
  }

  /** New identities arriving at one time fill the map, up to its bound; the last one empties it. */
  lemma {:induction false} OthersFill(m: Windows, others: seq<Key>, rules: Rules)
    requires Distinct(others) && (forall key <- others :: key !in m) && |m| == 1
    requires |others| <= MAX_KEYS
    ensures var n := MemoryStoreAfter(m, HitsOf(others), rules);
            if |others| < MAX_KEYS then |n| == 1 + |others| && forall key :: key in n <==> key in m || key in others
            else n == map[]
  {
    if others == [] {
      assert HitsOf(others) == [];
    } else {
      var last := |others| - 1;
      var init, key := others[..last], others[last];
      assert others == init + [key] && key !in init;
      hide MemoryStoreAfter, MemoryStoreHit;
      OthersFill(m, init, rules);
      HitsOfSnoc(init, key);
      MemorySnoc(m, HitsOf(init), Request(key, 0), rules);
      var n := MemoryStoreAfter(m, HitsOf(init), rules);
      assert key !in m && key !in n;
      NewIdentity(n, key, rules(key));
      SizeAfterUpdate(n, key, Window(1, rules(key).windowMs));
    }
  }

  /** Hits of other identities leave a counter as it is. */
  lemma {:induction false} OthersLeaveCounter(c: Counters, others: seq<Key>, rules: Rules, a: Key)
    requires a !in others && a in c
    ensures a in RedisStoreAfter(c, HitsOf(others), rules) && RedisStoreAfter(c, HitsOf(others), rules)[a] == c[a]
  {
    if others == [] {
      assert HitsOf(others) == [];
    } else {
      var last := |others| - 1;
      var init, key := others[..last], others[last];
      assert others == init + [key];
      hide RedisStoreAfter, RedisHit;
      OthersLeaveCounter(c, init, rules, a);
      HitsOfSnoc(init, key);
      RedisSnoc(c, HitsOf(init), Request(key, 0), rules);
    }
  }

  /** With one identity more than the map holds, there is a sequence the stores judge differently. */
  lemma EmptyingSeparatesStores(a: Key, others: seq<Key>, rules: Rules)
    requires Distinct(others) && a !in others && |others| == 10_000 && rules(a).limit >= 1
    ensures var hits := HitsOf(seq(rules(a).limit, _ => a)) + HitsOf(others) + [Request(a, 0)];
            MemoryStoreVerdicts(map[], hits, rules) != RedisStoreVerdicts(map[], hits, rules)
  {
    var limit, at := rules(a).limit, rules(a).windowMs;
    var first, hit := HitsOf(seq(limit, _ => a)), Request(a, 0);
    var before := first + HitsOf(others);
    Repeats(a, limit, rules);
    OthersFill(map[a := Window(limit, at)], others, rules);
    OthersLeaveCounter(map[a := Counter(limit, Some(at))], others, rules, a);
    MemoryVerdictsConcat(map[], first, HitsOf(others), rules);
    RedisVerdictsConcat(map[], first, HitsOf(others), rules);
    MemoryVerdictsConcat(map[], before, [hit], rules);
    RedisVerdictsConcat(map[], before, [hit], rules);
    OneMemoryHit(map[], hit, rules);
    OneRedisHit(RedisStoreAfter(map[], before, rules), hit, rules);
    assert MemoryStoreVerdicts(map[], before + [hit], rules)[|before|] == true;
    assert RedisStoreVerdicts(map[], before + [hit], rules)[|before|] == false;
  }

  lemma {:induction false} Listed(keys: set<Key>, n: nat) returns (s: seq<Key>)
    requires n <= |keys|
    ensures |s| == n && Distinct(s) && forall key <- s :: key in keys
  {
    if n == 0 {
      s := [];
    } else {
      var key :| key in keys;
      s := Listed(keys - {key}, n - 1);
      s := s + [key];
    }
  }

  ghost predicate AgreeOn(keys: set<Key>, rules: Rules) {
    forall hits: seq<Request> | WithinKeys(hits, keys) ::
      MemoryStoreVerdicts(map[], hits, rules) == RedisStoreVerdicts(map[], hits, rules)
  }

  /**
    From empty stores, all hit sequences over a set of identities get the same verdicts from both
    exactly when every limit is at least one and the map can hold all the identities.
   */
  lemma StoresAgreeExactlyWhen(keys: set<Key>, rules: Rules)
    ensures AgreeOn(keys, rules) <==>
            (forall key <- keys :: rules(key).limit >= 1) && |keys| <= 10_000
  {
    hide MemoryStoreVerdicts, RedisStoreVerdicts, MemoryStoreAfter, RedisStoreAfter;
    if key :| key in keys && rules(key).limit < 1 {
      var hit := Request(key, 0);
      OneMemoryHit(map[], hit, rules);
      OneRedisHit(map[], hit, rules);
      assert WithinKeys([hit], keys);
      assert MemoryStoreVerdicts(map[], [hit], rules)[0] != RedisStoreVerdicts(map[], [hit], rules)[0];
    } else if |keys| > MAX_KEYS {
      var s := Listed(keys, MAX_KEYS + 1);
      var a, others := s[0], s[1..];
      EmptyingSeparatesStores(a, others, rules);
      var hits := HitsOf(seq(rules(a).limit, _ => a)) + HitsOf(others) + [Request(a, 0)];
      assert WithinKeys(hits, keys);
    } else {
      forall hits: seq<Request> | WithinKeys(hits, keys)
        ensures MemoryStoreVerdicts(map[], hits, rules) == RedisStoreVerdicts(map[], hits, rules)
      {
        FewKeysNeverEmpty(map[], hits, rules, keys);
        StoresAgreeUntilEmptied(map[], map[], hits, rules);
      }
    }
  }

  // ---------------------------------------------------------------------------
  // The per-process store
  // ---------------------------------------------------------------------------

  class MemoryRateLimitStore {
    var hits: map<Key, Window>

    constructor ()
      ensures hits == map[]
    {
      hits := map[];
    }

    /** One hit; a new window that makes the map too large empties it, that window included. */
    method Hit(key: Key, limit: int, windowMs: nat, now: int) returns (ok: bool)
      modifies this
      ensures (hits, ok) == MemoryStoreHit(old(hits), Request(key, now), Rule(limit, windowMs))
      ensures |hits| <= 10_000 || |hits| <= |old(hits)|
    {
      if key !in hits || hits[key].resetAt < now {
        hits := hits[key := Window(1, now + windowMs)];
        if |hits| > MAX_KEYS {
          hits := map[];
        }
        return true;
      }
      var entry := hits[key];
      hits := hits[key := entry.(count := entry.count + 1)];
      assert hits.Keys == old(hits).Keys;
      assert key in hits;
      ok := hits[key].count <= limit;
    }
  }
}
