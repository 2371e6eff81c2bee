/**
  One request through the Idempotency-Key interceptor, while other requests on other instances use
  the shared store between any two of its statements.
 */
module IdempotencyInterceptor {
  import opened Common
  import opened Idempotency
  import MemoryIdempotency

  // ---------------------------------------------------------------------------
  // Record keys
  // ---------------------------------------------------------------------------

  /** The hashed scope is represented by the text that is hashed. */
  function RecordKey(workspace: string, verb: string, path: string, clientKey: string): Key {
    "idem:" + workspace + ":" + verb + " " + path + " " + clientKey
  }

  predicate KeyChar(c: char) {
    'a' <= c <= 'z' || 'A' <= c <= 'Z' || '0' <= c <= '9' || c == '_' || c == '-'
  }

  predicate ValidClientKey(k: string) {
    8 <= |k| <= 128 && forall c <- k :: KeyChar(c)
  }

  /** Digits, letters, the underscore and the dash by their codes, 8 to 128 of them. */
  lemma ValidClientKeyExactlyWhen(k: string)
    ensures ValidClientKey(k) <==>
            && 8 <= |k| < 129
            && forall c <- k ::
                 c as int in {45, 95} || 48 <= c as int < 58 || 65 <= c as int < 91 || 97 <= c as int < 123
  {
    assert forall c :: KeyChar(c) <==>
      c as int in {45, 95} || 48 <= c as int < 58 || 65 <= c as int < 91 || 97 <= c as int < 123;
  }

  lemma LastSeparator(a: string, x: string, b: string, y: string, c: char)
    requires c !in x && c !in y && a + [c] + x == b + [c] + y
    ensures a == b && x == y
  {
    var s := a + [c] + x;
    assert s[|a|] == c && s[|b|] == c;
    assert forall i | |a| < i < |s| :: s[i] == x[i - |a| - 1] && s[i] in x;
    assert forall i | |b| < i < |s| :: s[i] == y[i - |b| - 1] && s[i] in y;
    assert a == s[..|a|] && b == s[..|b|];
    assert x == s[|a| + 1..] && y == s[|b| + 1..];
  }

  /** Requests share a record only within one workspace, method, path and client key. */
  lemma RecordKeyIsInjective(w: string, v: string, p: string, k: string,
                             w': string, v': string, p': string, k': string)
    requires ':' !in w && ':' !in w' && ' ' !in v && ' ' !in v'
    requires ValidClientKey(k) && ValidClientKey(k')
    requires RecordKey(w, v, p, k) == RecordKey(w', v', p', k')
    ensures w == w' && v == v' && p == p' && k == k'
  {
    var tail, tail' := v + " " + p + " " + k, v' + " " + p' + " " + k';
    assert RecordKey(w, v, p, k) == "idem:" + (w + [':'] + tail);
    assert RecordKey(w', v', p', k') == "idem:" + (w' + [':'] + tail');
    assert w + [':'] + tail == RecordKey(w, v, p, k)[5..];
    assert w' + [':'] + tail' == RecordKey(w', v', p', k')[5..];
    FirstSeparator(w, tail, w', tail', ':');
    assert tail == (v + " " + p) + [' '] + k && tail' == (v' + " " + p') + [' '] + k';
    LastSeparator(v + " " + p, k, v' + " " + p', k', ' ');
    assert v + " " + p == v + [' '] + p && v' + " " + p' == v' + [' '] + p';
    FirstSeparator(v, p, v', p', ' ');
  }

  // ---------------------------------------------------------------------------
  // The shared store
  // ---------------------------------------------------------------------------

  class SharedStore {
    var now: int
    var records: Records
    ghost var requests: map<RequestId, Request>
    ghost var used: set<Nonce>
    ghost var ledger: map<Key, Ledger>
    ghost var run: seq<Step>

    ghost function S(): State
      reads this
    {
      State(now, records, requests, used, ledger)
    }

    ghost predicate Reached()
      reads this
    {
      Run(Empty, run) == Some(S())
    }

    ghost method Record(before: State, a: Step)
      requires Run(Empty, run) == Some(before) && Enabled(before, a)
      requires now == Next(before, a).now && records == Next(before, a).records
      modifies `requests, `used, `ledger, `run
      ensures Reached() && S() == Next(before, a) && run == old(run) + [a]
    {
      RunSnoc(Empty, run, a);
      var after := Next(before, a);
      requests, used, ledger := after.requests, after.used, after.ledger;
      run := run + [a];
    }

    /** Whatever other requests do meanwhile; a generated nonce is never generated again. */
    method Interfere(ghost r: RequestId, ghost mine: Nonce)
      requires Reached()
      modifies this
      ensures Reached() && old(run) <= run
      ensures r in requests <==> r in old(requests)
      ensures r in requests ==> requests[r] == old(requests)[r]
      ensures mine !in old(used) ==> mine !in used
    {
    }

    /** The claim script; None when the store is unreachable, with or without an effect. */
    method ClaimKey(ghost r: RequestId, key: Key, fingerprint: Fingerprint, nonce: Nonce, end: Write)
      returns (claim: Option<MemoryIdempotency.ClaimResult>)
      requires Reached() && r !in requests && nonce !in used
      modifies this
      ensures Reached() && old(run) <= run && r in requests && requests[r].key == key
      ensures claim.Some? <==> end == Written
      ensures end == NotWritten ==> records == old(records)
      ensures claim.Some? ==> claim.value == (match Get(old(records), old(now), key)
                                              case Some(record) => MemoryIdempotency.Found(record)
                                              case None => MemoryIdempotency.Taken(InFlight(fingerprint, nonce)))
      ensures claim == None ==> requests[r] == Done(key, fingerprint, Unavailable)
      ensures claim.Some? && claim.value.Taken? ==>
                claim.value.lease == InFlight(fingerprint, nonce) && requests[r] == Running(key, claim.value.lease)
      ensures claim.Some? && claim.value.Found? ==>
                requests[r] == Done(key, fingerprint, AnswerFromRecord(claim.value.record, fingerprint))
    {
      hide Run;
      ghost var before := S();
      var lease := InFlight(fingerprint, nonce);
      if end == NotWritten {
        Record(before, ClaimFailed(r, key, fingerprint));
        return None;
      }
      var (after, current) := Claim(records, now, key, lease, IN_FLIGHT_TTL_MS);
      records := after;
      if end == Unreported {
        Record(before, ClaimLost(r, key, fingerprint, nonce));
        return None;
      }
      Record(before, Step.ClaimKey(r, key, fingerprint, nonce));
      claim := Some(if current.Some? then MemoryIdempotency.Found(current.value)
                    else MemoryIdempotency.Taken(lease));
    }

    /** The complete script; None when the store is unreachable. */
    method CompleteKey(ghost r: RequestId, key: Key, lease: Value, response: Response, end: Write)
      returns (stored: Option<bool>)
      requires Reached() && r in requests && requests[r] == Completing(key, lease, response)
      modifies this
      ensures Reached() && old(run) <= run && r in requests
      ensures requests[r] == Done(key, lease.fingerprint, Ran(response))
      ensures stored.Some? <==> end == Written
      ensures end == NotWritten ==> records == old(records)
      ensures end != NotWritten && Get(old(records), old(now), key) == Some(lease) ==>
                Get(records, now, key) == Some(Completed(lease.fingerprint, response))
      ensures stored == Some(true) ==>
                Get(records, now, key) == Some(Completed(lease.fingerprint, response))
      ensures stored == Some(false) ==> records == old(records) && Get(old(records), old(now), key) != Some(lease)
    {
      hide Run;
      ghost var before := S();
      stored := None;
      if end != NotWritten {
        var record := Completed(lease.fingerprint, response);
        var (after, done) := Complete(records, now, key, lease, record, TTL_MS);
        records := after;
        stored := if end == Written then Some(done) else None;
        Record(before, StoreComplete(r));
      } else {
        Record(before, CompleteFailed(r));
      }
    }

    /** The release script. */
    method ReleaseKey(ghost r: RequestId, key: Key, lease: Value, end: Write) returns (answered: bool)
      requires Reached() && r in requests && requests[r] == Releasing(key, lease)
      modifies this
      ensures Reached() && old(run) <= run && r in requests
      ensures requests[r] == Done(key, lease.fingerprint, HandlerFailed)
      ensures answered <==> end == Written
      ensures end == NotWritten ==> records == old(records)
      ensures end != NotWritten ==> Get(records, now, key) != Some(lease)
    {
      hide Run;
      ghost var before := S();
      answered := end == Written;
      if end != NotWritten {
        records := Release(records, now, key, lease);
        Record(before, StoreRelease(r));
      } else {
        Record(before, ReleaseFailed(r));
      }
    }

    /** The handler came back; nothing in the store changes. */
    ghost method HandlerEnded(r: RequestId, response: Option<Response>)
      requires Reached() && r in requests && requests[r].Running?
      modifies `requests, `used, `ledger, `run
      ensures Reached() && old(run) <= run && r in requests
      ensures requests[r] ==
                if response.Some? then Completing(old(requests)[r].key, old(requests)[r].lease, response.value)
                else Releasing(old(requests)[r].key, old(requests)[r].lease)
    {
      hide Run;
      Record(S(), if response.Some? then HandlerReturns(r, response.value) else HandlerThrows(r));
    }
  }

  // ---------------------------------------------------------------------------
  // The interceptor
  // ---------------------------------------------------------------------------

  datatype HttpRequest = HttpRequest(
    verb: string, path: string, workspace: string, key: Option<string>, fingerprint: Fingerprint)

  /** What the handler does when it runs. */
  datatype HandlerResult = Returned(statusCode: int, body: string) | Threw(error: string)

  datatype Outcome =
    | Passed(result: HandlerResult)
    | Replay(response: Response)
    | ApiError(status: int, code: string)

  predicate IsMutating(verb: string) {
    verb == "POST" || verb == "PATCH" || verb == "DELETE"
  }

  predicate UsesKey(q: HttpRequest) {
    IsMutating(q.verb) && q.key.Some? && q.key.value != ""
  }

  /** The outcome a request that reached the store must have, by how the protocol answered it. */
  predicate Fits(answer: Answer, outcome: Outcome, handler: HandlerResult, handlerRuns: nat) {
    match answer
    case Ran(response) =>
      && handlerRuns == 1 && outcome == Passed(handler) && handler.Returned? && response.body == handler.body
      && response.statusCode == if handler.statusCode == 0 then 200 else handler.statusCode
    case HandlerFailed => handlerRuns == 1 && outcome == Passed(handler) && handler.Threw?
    case Replayed(response) => handlerRuns == 0 && outcome == Replay(response)
    case InProgress => handlerRuns == 0 && outcome == ApiError(409, "IDEMPOTENCY_CONFLICT")
    case KeyReused => handlerRuns == 0 && outcome == ApiError(422, "IDEMPOTENCY_KEY_REUSED")
    case Unavailable => handlerRuns == 0 && outcome == ApiError(503, "SERVICE_UNAVAILABLE")
    case Gone => false
  }

  method ReadRecord(record: Value, fingerprint: Fingerprint) returns (outcome: Outcome)
    ensures forall handler :: Fits(AnswerFromRecord(record, fingerprint), outcome, handler, 0)
  {
    if record.fingerprint != fingerprint {
      return ApiError(422, "IDEMPOTENCY_KEY_REUSED");
    }
    if record.InFlight? {
      return ApiError(409, "IDEMPOTENCY_CONFLICT");
    }
    outcome := Replay(record.response);
  }

  /**
    `handler` is what the handler does if it runs, `nonce` the generated part of the lease, and the
    store's calls end as given. `found` is the living record the claim met. The
    handler runs at most once, exactly when the protocol says so, and the caller sees the
    protocol's answer; a store failure after the handler ran is not visible to the caller.
   */
  method Intercept(store: SharedStore, ghost r: RequestId, q: HttpRequest, handler: HandlerResult, nonce: Nonce,
                   claimEnds: Write, recordEnds: Write)
    returns (outcome: Outcome, handlerRuns: nat, ghost found: Option<Value>)
    requires store.Reached() && r !in store.requests && nonce !in store.used
    modifies store
    ensures store.Reached() && old(store.run) <= store.run
    ensures !UsesKey(q) ==> outcome == Passed(handler) && handlerRuns == 1 && store.run == old(store.run)
    ensures UsesKey(q) && !ValidClientKey(q.key.value) ==>
              outcome == ApiError(400, "BAD_REQUEST") && handlerRuns == 0 && store.run == old(store.run)
    ensures UsesKey(q) && ValidClientKey(q.key.value) ==>
              && r in store.requests && store.requests[r].Done?
              && store.requests[r].key == RecordKey(q.workspace, q.verb, q.path, q.key.value)
              && store.requests[r].fingerprint == q.fingerprint
              && Fits(store.requests[r].answer, outcome, handler, handlerRuns)
    // Only three methods use the key; the rest of the answer is the claim's and the record's.
    ensures q.verb !in ["POST", "PATCH", "DELETE"] || q.key.None? || q.key.value == "" ==>
              outcome == Passed(handler) && handlerRuns == 1
    ensures q.verb in ["POST", "PATCH", "DELETE"] && q.key.Some? && q.key.value != ""
            && ValidClientKey(q.key.value) ==>
              if claimEnds != Written then outcome == ApiError(503, "SERVICE_UNAVAILABLE") && handlerRuns == 0
              else if found.None? then outcome == Passed(handler) && handlerRuns == 1
              else if found.value.fingerprint != q.fingerprint then
                outcome == ApiError(422, "IDEMPOTENCY_KEY_REUSED") && handlerRuns == 0
              else if found.value.InFlight? then outcome == ApiError(409, "IDEMPOTENCY_CONFLICT") && handlerRuns == 0
              else outcome == Replay(found.value.response) && handlerRuns == 0
  {
    hide Run, ValidClientKey;
    found := None;
    if !IsMutating(q.verb) || q.key.None? || q.key.value == "" {
      return Passed(handler), 1, None;
    }
    if !ValidClientKey(q.key.value) {
      return ApiError(400, "BAD_REQUEST"), 0, None;
    }
    var key := RecordKey(q.workspace, q.verb, q.path, q.key.value);
    store.Interfere(r, nonce);
    found := Get(store.records, store.now, key);
    var claim := store.ClaimKey(r, key, q.fingerprint, nonce, claimEnds);
    if claim.None? {
      return ApiError(503, "SERVICE_UNAVAILABLE"), 0, found;
    }
    if claim.value.Found? {
      outcome := ReadRecord(claim.value.record, q.fingerprint);
      return outcome, 0, found;
    }
    store.Interfere(r, nonce);
    outcome, handlerRuns := Passed(handler), 1;
    if handler.Returned? {
      var response := Response(if handler.statusCode == 0 then 200 else handler.statusCode, handler.body);
      store.HandlerEnded(r, Some(response));
      store.Interfere(r, nonce);
      var stored := store.CompleteKey(r, key, claim.value.lease, response, recordEnds);
    } else {
      store.HandlerEnded(r, None);
      store.Interfere(r, nonce);
      var answered := store.ReleaseKey(r, key, claim.value.lease, recordEnds);
    }
  }
}
