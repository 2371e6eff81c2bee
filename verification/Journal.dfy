/**
  The provider event journal: a batch is deduplicated against itself and against the table, and
  each event that is new gets one outbox row, all in one transaction.
 */
module Journal {
  import opened Common
  import opened Outbox

  type Account = string
  type Key = string

  const PROVIDER_EVENT_RECEIVED := "webhook.received"

  datatype EventStatus = RECEIVED | PROCESSING | PROCESSED | IGNORED | FAILED

  datatype EventInput = EventInput(key: Key, isFingerprinted: bool, payload: string)

  datatype Event = Event(
    account: Account,
    input: EventInput,
    status: EventStatus,
    processingAttempts: nat)

  /** The journal's rows, its unique index on account and key, and the outbox table. */
  datatype Tables = Tables(
    events: map<Id, Event>,
    index: map<(Account, Key), Id>,
    outbox: Table)

  // ---------------------------------------------------------------------------
  // Deduplication within a batch
  // ---------------------------------------------------------------------------

  predicate HasKey(inputs: seq<EventInput>, key: Key) {
    exists e <- inputs :: e.key == key
  }

  /** `new Map(entries).values()`: the first occurrence fixes the place, the last one the value. */
  function Dedup(inputs: seq<EventInput>): seq<EventInput> {
    if inputs == [] then []
    else
      var n := |inputs| - 1;
      Put(Dedup(inputs[..n]), inputs[n])
  }

  function Put(unique: seq<EventInput>, e: EventInput): seq<EventInput> {
    if unique == [] then [e]
    else if unique[0].key == e.key then [e] + unique[1..]
    else [unique[0]] + Put(unique[1..], e)
  }

  ghost predicate DistinctKeys(inputs: seq<EventInput>) {
    forall i, j | 0 <= i < j < |inputs| :: inputs[i].key != inputs[j].key
  }

  lemma {:induction false} PutKeeps(unique: seq<EventInput>, e: EventInput)
    requires DistinctKeys(unique)
    ensures DistinctKeys(Put(unique, e))
    ensures forall x :: x in Put(unique, e) <==> x == e || (x in unique && x.key != e.key)
    ensures |Put(unique, e)| == |unique| + if HasKey(unique, e.key) then 0 else 1
  {
    if unique != [] {
      assert unique == [unique[0]] + unique[1..];
      if unique[0].key != e.key {
        PutKeeps(unique[1..], e);
        forall j | 0 <= j < |Put(unique[1..], e)|
          ensures Put(unique[1..], e)[j].key != unique[0].key
        {
          assert Put(unique[1..], e)[j] in Put(unique[1..], e);
        }
      } else {
        forall x
          ensures x in unique[1..] ==> x.key != e.key
        {
        }
      }
    }
  }

  /** `e` is the last input of the batch with its key. */
  ghost predicate LastWithKey(inputs: seq<EventInput>, e: EventInput) {
    exists i :: 0 <= i < |inputs| && inputs[i] == e && forall j | i < j < |inputs| :: inputs[j].key != e.key
  }

  /** Deduplication keeps one input per key, the last one given. */
  lemma {:induction false} DedupKeepsTheLast(inputs: seq<EventInput>)
    ensures DistinctKeys(Dedup(inputs)) && |Dedup(inputs)| <= |inputs|
    ensures forall e :: e in Dedup(inputs) <==> LastWithKey(inputs, e)
  {
    if inputs != [] {
      var n := |inputs| - 1;
      var init, last := inputs[..n], inputs[n];
      assert inputs == init + [last];
      assert Dedup(inputs) == Put(Dedup(init), last);
      hide *;
      DedupKeepsTheLast(init);
      PutKeeps(Dedup(init), last);
      forall e
        ensures e in Dedup(inputs) <==> LastWithKey(inputs, e)
      {
        LastOfSnoc(init, last, e);
      }
    }
  }

  lemma LastOfSnoc(init: seq<EventInput>, last: EventInput, e: EventInput)
    ensures LastWithKey(init + [last], e) <==> e == last || (LastWithKey(init, e) && e.key != last.key)
  {
    var all := init + [last];
    assert all[|init|] == last;
    if e != last && LastWithKey(all, e) {
      var i :| 0 <= i < |all| && all[i] == e && forall j | i < j < |all| :: all[j].key != e.key;
      assert i < |init| && init[i] == e;
      assert forall j | i < j < |init| :: init[j] == all[j];
    }
    if LastWithKey(init, e) && e.key != last.key {
      var i :| 0 <= i < |init| && init[i] == e && forall j | i < j < |init| :: init[j].key != e.key;
      assert all[i] == e;
      forall j | i < j < |all|
        ensures all[j].key != e.key
      {
        assert j < |init| ==> all[j] == init[j];
      }
    }
  }

  lemma {:induction false} KeysSurvive(inputs: seq<EventInput>, key: Key)
    ensures HasKey(Dedup(inputs), key) <==> HasKey(inputs, key)
  {
    if inputs != [] {
      var n := |inputs| - 1;
      KeysSurvive(inputs[..n], key);
      assert inputs == inputs[..n] + [inputs[n]];
      PutKeys(Dedup(inputs[..n]), inputs[n], key);
    }
  }

  lemma {:induction false} PutKeys(unique: seq<EventInput>, e: EventInput, key: Key)
    ensures HasKey(Put(unique, e), key) <==> HasKey(unique, key) || e.key == key
  {
    if unique != [] {
      assert unique == [unique[0]] + unique[1..];
      if unique[0].key != e.key {
        PutKeys(unique[1..], e, key);
      }
    }
  }

  // ---------------------------------------------------------------------------
  // The transaction
  // ---------------------------------------------------------------------------

  /** INSERT … ON CONFLICT DO NOTHING: the inputs whose key the account has not journaled yet. */
  function Created(t: Tables, account: Account, unique: seq<EventInput>): seq<EventInput> {
    if unique == [] then []
    else (if (account, unique[0].key) in t.index then [] else [unique[0]])
         + Created(t, account, unique[1..])
  }

  function Insert(t: Tables, account: Account, created: seq<EventInput>, ids: seq<Id>): Tables
    requires |created| <= |ids|
  {
    if created == [] then t
    else
      var n := |created| - 1;
      var u := Insert(t, account, created[..n], ids);
      u.(events := u.events[ids[n] := Event(account, created[n], RECEIVED, 0)],
         index := u.index[(account, created[n].key) := ids[n]])
  }

  function AddRows(outbox: Table, subjects: seq<Id>, ids: seq<Id>, now: int): Table
    requires |subjects| <= |ids|
  {
    if subjects == [] then outbox
    else
      var n := |subjects| - 1;
      AddRows(outbox, subjects[..n], ids, now)[ids[n] := NewRow(PROVIDER_EVENT_RECEIVED, subjects[n], now)]
  }

  /** What the inserts leave behind, given the generated event ids and outbox ids. */
  function Journaled(
    t: Tables, account: Account, inputs: seq<EventInput>, ids: seq<Id>, outboxIds: seq<Id>, now: int
  ): Tables
    requires |inputs| <= |ids| && |inputs| <= |outboxIds|
    requires |NewInputs(t, account, inputs)| <= |inputs|
  {
    var created := NewInputs(t, account, inputs);
    var u := Insert(t, account, created, ids);
    u.(outbox := AddRows(u.outbox, ids[..|created|], outboxIds, now))
  }

  function NewInputs(t: Tables, account: Account, inputs: seq<EventInput>): seq<EventInput> {
    Created(t, account, Dedup(inputs))
  }

  ghost predicate Distinct(ids: seq<Id>) {
    forall i, j | 0 <= i < j < |ids| :: ids[i] != ids[j]
  }

  /** Generated ids are fresh. */
  ghost predicate FreshIds(t: Tables, ids: seq<Id>, outboxIds: seq<Id>) {
    && Distinct(ids) && (forall id <- ids :: id !in t.events)
    && Distinct(outboxIds) && (forall id <- outboxIds :: id !in t.outbox)
  }

  lemma {:induction false} CreatedAre(t: Tables, account: Account, unique: seq<EventInput>)
    ensures forall e :: e in Created(t, account, unique) <==>
                        e in unique && (account, e.key) !in t.index
    ensures |Created(t, account, unique)| <= |unique|
  {
    if unique != [] {
      CreatedAre(t, account, unique[1..]);
      assert unique == [unique[0]] + unique[1..];
    }
  }

  lemma {:induction false} CreatedDistinct(t: Tables, account: Account, unique: seq<EventInput>)
    requires DistinctKeys(unique)
    ensures DistinctKeys(Created(t, account, unique))
  {
    if unique != [] {
      var rest := Created(t, account, unique[1..]);
      CreatedDistinct(t, account, unique[1..]);
      CreatedAre(t, account, unique[1..]);
      forall j | 0 <= j < |rest|
        ensures rest[j].key != unique[0].key
      {
        assert rest[j] in rest;
      }
    }
  }

  /** The new inputs: one per key, never one the account already has. */
  lemma NewInputsAre(t: Tables, account: Account, inputs: seq<EventInput>)
    ensures var created := NewInputs(t, account, inputs);
            && DistinctKeys(created) && |created| <= |inputs|
            && (forall e :: e in created <==>
                  LastWithKey(inputs, e) && (account, e.key) !in t.index)
            && (forall key :: HasKey(created, key) <==>
                  HasKey(inputs, key) && (account, key) !in t.index)
  {
    DedupKeepsTheLast(inputs);
    CreatedAre(t, account, Dedup(inputs));
    CreatedDistinct(t, account, Dedup(inputs));
    var created := NewInputs(t, account, inputs);
    forall key
      ensures HasKey(created, key) <==> HasKey(inputs, key) && (account, key) !in t.index
    {
      KeysSurvive(inputs, key);
      if HasKey(inputs, key) && (account, key) !in t.index {
        assert HasKey(Dedup(inputs), key);
        var e :| e in Dedup(inputs) && e.key == key;
        assert e in created;
      }
    }
  }

  // ---------------------------------------------------------------------------
  // One outbox row per event
  // ---------------------------------------------------------------------------

  /** The index points at the event with its key, and every event is indexed. */
  ghost predicate Indexed(t: Tables) {
    && (forall k <- t.index :: t.index[k] in t.events
          && t.events[t.index[k]].account == k.0 && t.events[t.index[k]].input.key == k.1)
    && (forall id <- t.events ::
          var e := t.events[id];
          (e.account, e.input.key) in t.index && t.index[(e.account, e.input.key)] == id)
  }

  ghost predicate IsRowOf(t: Tables, o: Id, event: Id) {
    o in t.outbox && t.outbox[o].eventType == PROVIDER_EVENT_RECEIVED && t.outbox[o].subject == event
  }

  ghost predicate OneRow(t: Tables, event: Id) {
    && (exists o :: IsRowOf(t, o, event))
    && (forall o, p | IsRowOf(t, o, event) && IsRowOf(t, p, event) :: o == p)
  }

  ghost predicate Sound(t: Tables) {
    && Indexed(t)
    && (forall id <- t.events :: OneRow(t, id))
    && (forall o <- t.outbox | t.outbox[o].eventType == PROVIDER_EVENT_RECEIVED ::
          t.outbox[o].subject in t.events)
  }

  lemma NewInputsAreFewer(t: Tables, account: Account, inputs: seq<EventInput>)
    ensures |NewInputs(t, account, inputs)| <= |inputs|
  {
    NewInputsAre(t, account, inputs);
  }

  lemma HasKeySnoc(init: seq<EventInput>, last: EventInput, key: Key)
    ensures HasKey(init + [last], key) <==> HasKey(init, key) || last.key == key
  {
    assert last in init + [last];
  }

  lemma {:induction false} InsertKeepsOutbox(t: Tables, account: Account, created: seq<EventInput>, ids: seq<Id>)
    requires |created| <= |ids|
    ensures Insert(t, account, created, ids).outbox == t.outbox
  {
    if created != [] {
      InsertKeepsOutbox(t, account, created[..|created| - 1], ids);
    }
  }

  lemma {:induction false} InsertAdds(t: Tables, account: Account, created: seq<EventInput>, ids: seq<Id>)
    requires |created| <= |ids| && Distinct(ids)
    requires forall id <- ids :: id !in t.events
    ensures var u := Insert(t, account, created, ids);
            && u.outbox == t.outbox
            && (forall id :: id in u.events <==> id in t.events || id in ids[..|created|])
            && (forall id <- t.events :: u.events[id] == t.events[id])
            && (forall i | 0 <= i < |created| ::
                  u.events[ids[i]] == Event(account, created[i], RECEIVED, 0))
  {
    if created != [] {
      var n := |created| - 1;
      InsertAdds(t, account, created[..n], ids);
      assert ids[..|created|] == ids[..n] + [ids[n]];
    }
  }

  lemma {:induction false} InsertIndexes(t: Tables, account: Account, created: seq<EventInput>, ids: seq<Id>)
    requires |created| <= |ids| && DistinctKeys(created)
    requires forall e <- created :: (account, e.key) !in t.index
    ensures var u := Insert(t, account, created, ids);
            && (forall k :: k in u.index <==> k in t.index || (k.0 == account && HasKey(created, k.1)))
            && (forall k <- t.index :: k in u.index && u.index[k] == t.index[k])
            && (forall i | 0 <= i < |created| ::
                  (account, created[i].key) in u.index && u.index[(account, created[i].key)] == ids[i])
  {
    if created != [] {
      var n := |created| - 1;
      var init, last := created[..n], created[n];
      assert created == init + [last] && DistinctKeys(init);
      var before, u := Insert(t, account, init, ids).index, Insert(t, account, created, ids).index;
      assert u == before[(account, last.key) := ids[n]];
      assert last in created && (account, last.key) !in t.index;
      hide Insert, HasKey;
      forall k
        ensures k in u <==> k in t.index || (k.0 == account && HasKey(created, k.1))
        ensures k in t.index ==> k in u && u[k] == t.index[k]
      {
        InsertIndexes(t, account, init, ids);
        HasKeySnoc(init, last, k.1);
      }
      forall i | 0 <= i < |created|
        ensures (account, created[i].key) in u && u[(account, created[i].key)] == ids[i]
      {
        InsertIndexes(t, account, init, ids);
        assert i < n ==> created[i].key != last.key && init[i] == created[i];
      }
    }
  }

  lemma InsertKeepsIndexed(t: Tables, account: Account, created: seq<EventInput>, ids: seq<Id>)
    requires |created| <= |ids| && DistinctKeys(created) && Distinct(ids)
    requires forall e <- created :: (account, e.key) !in t.index
    requires forall id <- ids :: id !in t.events
    requires Indexed(t)
    ensures Indexed(Insert(t, account, created, ids))
  {
    InsertAdds(t, account, created, ids);
    InsertIndexes(t, account, created, ids);
    hide Insert;
    var u := Insert(t, account, created, ids);
    forall k | k in u.index
      ensures u.index[k] in u.events && u.events[u.index[k]].account == k.0
      ensures u.events[u.index[k]].input.key == k.1
    {
      if k !in t.index {
        var e :| e in created && e.key == k.1;
        var i :| 0 <= i < |created| && created[i] == e;
        assert ids[i] in ids[..|created|] && u.index[(account, created[i].key)] == ids[i];
      }
    }
    forall id | id in u.events
      ensures var e := u.events[id];
              (e.account, e.input.key) in u.index && u.index[(e.account, e.input.key)] == id
    {
      if id !in t.events {
        var i :| 0 <= i < |created| && ids[..|created|][i] == id;
        assert u.events[ids[i]] == Event(account, created[i], RECEIVED, 0);
      }
    }
  }

  lemma PrefixMember(ids: seq<Id>, n: nat, o: Id)
    requires n < |ids|
    ensures o in ids[..n + 1] <==> o in ids[..n] || o == ids[n]
  {
    assert ids[..n + 1] == ids[..n] + [ids[n]];
  }

  lemma {:induction false} AddRowsAdds(outbox: Table, subjects: seq<Id>, ids: seq<Id>, now: int)
    requires |subjects| <= |ids| && Distinct(ids) && forall id <- ids :: id !in outbox
    ensures var u := AddRows(outbox, subjects, ids, now);
            && (forall o :: o in u <==> o in outbox || o in ids[..|subjects|])
            && (forall o <- outbox :: u[o] == outbox[o])
            && (forall i | 0 <= i < |subjects| ::
                  u[ids[i]] == NewRow(PROVIDER_EVENT_RECEIVED, subjects[i], now))
  {
    if subjects != [] {
      var n := |subjects| - 1;
      var before, u := AddRows(outbox, subjects[..n], ids, now), AddRows(outbox, subjects, ids, now);
      assert u == before[ids[n] := NewRow(PROVIDER_EVENT_RECEIVED, subjects[n], now)];
      hide NewRow, AddRows;
      forall o
        ensures o in u <==> o in outbox || o in ids[..n + 1]
        ensures o in outbox ==> u[o] == outbox[o]
      {
        AddRowsAdds(outbox, subjects[..n], ids, now);
        PrefixMember(ids, n, o);
      }
      forall i | 0 <= i < |subjects|
        ensures u[ids[i]] == NewRow(PROVIDER_EVENT_RECEIVED, subjects[i], now)
      {
        AddRowsAdds(outbox, subjects[..n], ids, now);
        assert i < n ==> ids[i] != ids[n] && subjects[..n][i] == subjects[i];
      }
    }
  }

  lemma RowsBefore(outbox: Table, subjects: seq<Id>, ids: seq<Id>, now: int, i: nat)
    requires i < |subjects| <= |ids| && Distinct(ids) && forall id <- ids :: id !in outbox
    ensures ids[i] !in AddRows(outbox, subjects[..i], ids, now)
    ensures forall o <- outbox :: o in AddRows(outbox, subjects[..i], ids, now)
  {
    AddRowsAdds(outbox, subjects[..i], ids, now);
  }

  /** `u` has the outbox rows of `t` plus one row `ids[i]` for each `subjects[i]`. */
  ghost predicate RowsAdded(t: Tables, u: Tables, subjects: seq<Id>, ids: seq<Id>) {
    && |subjects| <= |ids|
    && (forall o :: o in u.outbox <==> o in t.outbox || o in ids[..|subjects|])
    && (forall o <- t.outbox :: u.outbox[o] == t.outbox[o])
    && (forall i | 0 <= i < |subjects| :: IsRowOf(u, ids[i], subjects[i]))
  }

  lemma OldEventKeepsItsRow(t: Tables, u: Tables, id: Id, subjects: seq<Id>, ids: seq<Id>)
    requires OneRow(t, id) && id !in subjects && RowsAdded(t, u, subjects, ids)
    ensures OneRow(u, id)
  {
    var o :| IsRowOf(t, o, id);
    assert IsRowOf(u, o, id);
    forall p | IsRowOf(u, p, id)
      ensures p == o
    {
      assert p in t.outbox;
      assert IsRowOf(t, p, id);
    }
  }

  lemma NewEventGetsOneRow(t: Tables, u: Tables, i: nat, subjects: seq<Id>, ids: seq<Id>)
    requires i < |subjects| && Distinct(subjects) && RowsAdded(t, u, subjects, ids)
    requires forall o :: !IsRowOf(t, o, subjects[i])
    ensures OneRow(u, subjects[i])
  {
    assert IsRowOf(u, ids[i], subjects[i]);
    forall o | IsRowOf(u, o, subjects[i])
      ensures o == ids[i]
    {
      assert !IsRowOf(t, o, subjects[i]);
      var k :| 0 <= k < |subjects| && ids[..|subjects|][k] == o;
      assert IsRowOf(u, ids[k], subjects[k]);
    }
  }

  lemma RowsHaveEvents(t: Tables, u: Tables, subjects: seq<Id>, ids: seq<Id>)
    requires Sound(t) && RowsAdded(t, u, subjects, ids)
    requires forall id :: id in u.events <==> id in t.events || id in subjects
    ensures forall o <- u.outbox | u.outbox[o].eventType == PROVIDER_EVENT_RECEIVED ::
              u.outbox[o].subject in u.events
  {
    forall o | o in u.outbox && u.outbox[o].eventType == PROVIDER_EVENT_RECEIVED
      ensures u.outbox[o].subject in u.events
    {
      if o !in t.outbox {
        var k :| 0 <= k < |subjects| && ids[..|subjects|][k] == o;
        assert IsRowOf(u, ids[k], subjects[k]);
      }
    }
  }

  lemma SoundGrows(t: Tables, u: Tables, subjects: seq<Id>, ids: seq<Id>)
    requires Sound(t) && Indexed(u) && RowsAdded(t, u, subjects, ids) && Distinct(subjects)
    requires forall id :: id in u.events <==> id in t.events || id in subjects
    requires forall id <- subjects :: id !in t.events
    ensures Sound(u)
  {
    RowsHaveEvents(t, u, subjects, ids);
    forall id | id in u.events
      ensures OneRow(u, id)
    {
      if id in t.events {
        OldEventKeepsItsRow(t, u, id, subjects, ids);
      } else {
        var i :| 0 <= i < |subjects| && subjects[i] == id;
        NewEventGetsOneRow(t, u, i, subjects, ids);
      }
    }
  }

  lemma JournaledRows(
    t: Tables, account: Account, inputs: seq<EventInput>, ids: seq<Id>, outboxIds: seq<Id>, now: int)
    requires FreshIds(t, ids, outboxIds) && |inputs| <= |ids| && |inputs| <= |outboxIds|
    requires |NewInputs(t, account, inputs)| <= |inputs|
    ensures RowsAdded(t, Journaled(t, account, inputs, ids, outboxIds, now),
                      ids[..|NewInputs(t, account, inputs)|], outboxIds)
  {
    hide Insert, AddRows, NewInputs;
    var created := NewInputs(t, account, inputs);
    assert Insert(t, account, created, ids).outbox == t.outbox by {
      InsertAdds(t, account, created, ids);
    }
    AddRowsAdds(t.outbox, ids[..|created|], outboxIds, now);
  }

  lemma JournaledEvents(
    t: Tables, account: Account, inputs: seq<EventInput>, ids: seq<Id>, outboxIds: seq<Id>, now: int)
    requires FreshIds(t, ids, outboxIds) && |inputs| <= |ids| && |inputs| <= |outboxIds|
    ensures |NewInputs(t, account, inputs)| <= |inputs|
    ensures var u := Journaled(t, account, inputs, ids, outboxIds, now);
            && (Indexed(t) ==> Indexed(u))
            && (forall id :: id in u.events <==>
                  id in t.events || id in ids[..|NewInputs(t, account, inputs)|])
            && (forall input <- inputs :: (account, input.key) in u.index)
  {
    NewInputsAre(t, account, inputs);
    var created := NewInputs(t, account, inputs);
    InsertAdds(t, account, created, ids);
    InsertIndexes(t, account, created, ids);
    if Indexed(t) {
      InsertKeepsIndexed(t, account, created, ids);
    }
    hide Insert, AddRows, NewInputs;
    forall input | input in inputs
      ensures (account, input.key) in Journaled(t, account, inputs, ids, outboxIds, now).index
    {
      assert HasKey(inputs, input.key);
    }
  }

  /** Journaling keeps exactly one outbox row per journaled event, and every event indexed once. */
  lemma JournalingKeepsSound(
    t: Tables, account: Account, inputs: seq<EventInput>, ids: seq<Id>, outboxIds: seq<Id>, now: int)
    requires Sound(t) && FreshIds(t, ids, outboxIds)
    requires |inputs| <= |ids| && |inputs| <= |outboxIds|
    ensures |NewInputs(t, account, inputs)| <= |inputs|
    ensures Sound(Journaled(t, account, inputs, ids, outboxIds, now))
    ensures forall input <- inputs ::
              (account, input.key) in Journaled(t, account, inputs, ids, outboxIds, now).index
  {
    JournaledEvents(t, account, inputs, ids, outboxIds, now);
    JournaledRows(t, account, inputs, ids, outboxIds, now);
    hide Journaled, NewInputs, RowsAdded;
    SoundGrows(t, Journaled(t, account, inputs, ids, outboxIds, now),
               ids[..|NewInputs(t, account, inputs)|], outboxIds);
  }

  /** A redelivered batch is all duplicates. */
  lemma RedeliveryAcceptsNothing(
    t: Tables, account: Account, inputs: seq<EventInput>, ids: seq<Id>, outboxIds: seq<Id>, now: int)
    requires Sound(t) && FreshIds(t, ids, outboxIds)
    requires |inputs| <= |ids| && |inputs| <= |outboxIds|
    ensures |NewInputs(t, account, inputs)| <= |inputs|
    ensures NewInputs(Journaled(t, account, inputs, ids, outboxIds, now), account, inputs) == []
  {
    JournalingKeepsSound(t, account, inputs, ids, outboxIds, now);
    var u := Journaled(t, account, inputs, ids, outboxIds, now);
    NewInputsAre(u, account, inputs);
    var again := NewInputs(u, account, inputs);
    forall e
      ensures e !in again
    {
      if LastWithKey(inputs, e) {
        assert e in inputs;
      }
    }
    HasMember(again);
  }

  class EventJournal {
    var t: Tables

    constructor ()
      ensures t == Tables(map[], map[], map[])
    {
      t := Tables(map[], map[], map[]);
    }

    /**
      Journals a batch in one transaction; `ids` and `outboxIds` are what the id generator yields.
      Returns the new events' ids and how many inputs were skipped.
     */
    method JournalInTransaction(
      account: Account, inputs: seq<EventInput>, ids: seq<Id>, outboxIds: seq<Id>, now: int
    ) returns (accepted: seq<Id>, duplicateCount: nat)
      requires Sound(t) && FreshIds(t, ids, outboxIds)
      requires |inputs| <= |ids| && |inputs| <= |outboxIds|
      modifies this
      ensures |NewInputs(old(t), account, inputs)| <= |inputs|
      ensures t == Journaled(old(t), account, inputs, ids, outboxIds, now) && Sound(t)
      ensures accepted == ids[..|NewInputs(old(t), account, inputs)|]
      ensures duplicateCount == |inputs| - |accepted|
      ensures forall input <- inputs :: (account, input.key) in t.index
    {
      JournalingKeepsSound(t, account, inputs, ids, outboxIds, now);
      assert Distinct(outboxIds) && forall id <- outboxIds :: id !in t.outbox;
      hide Insert, NewInputs, Sound, FreshIds, NewRow, AddRows, Distinct;
      var created := NewInputs(t, account, inputs);
      InsertKeepsOutbox(t, account, created, ids);
      t := Insert(t, account, created, ids);
      accepted := ids[..|created|];
      CreateOutboxRows(accepted, outboxIds, now);
      duplicateCount := |inputs| - |created|;
    }

    /** One outbox row per new event, in order. */
    method CreateOutboxRows(subjects: seq<Id>, ids: seq<Id>, now: int)
      requires |subjects| <= |ids| && Distinct(ids) && forall id <- ids :: id !in t.outbox
      modifies this
      ensures t == old(t).(outbox := AddRows(old(t).outbox, subjects, ids, now))
    {
      var i := 0;
      while i < |subjects|
        invariant 0 <= i <= |subjects|
        invariant t == old(t).(outbox := AddRows(old(t).outbox, subjects[..i], ids, now))
      {
        RowsBefore(old(t).outbox, subjects, ids, now, i);
        CreateOutboxEvent(ids[i], PROVIDER_EVENT_RECEIVED, subjects[i], now);
        assert subjects[..i + 1][..i] == subjects[..i];
        i := i + 1;
      }
      assert subjects[..|subjects|] == subjects;
    }

    /**
      A row under an id no row has: waiting, unclaimed, never retried, with a job key of its own;
      every other row and the journal stay as they are.
     */
    method CreateOutboxEvent(id: Id, eventType: string, subject: Id, scheduledAt: int)
      requires id !in t.outbox
      modifies this
      ensures t == old(t).(outbox := t.outbox) && t.outbox.Keys == old(t).outbox.Keys + {id}
      ensures forall o <- old(t).outbox :: t.outbox[o] == old(t).outbox[o] && JobKey(o) != JobKey(id)
      ensures t.outbox[id] == NewRow(eventType, subject, scheduledAt)
      ensures t.outbox[id].status == PENDING && t.outbox[id].retryCount == 0
      ensures t.outbox[id].claimedBy == None && t.outbox[id].leaseUntil == None
      ensures forall now :: Due(t.outbox[id], now) <==> scheduledAt <= now
    {
      forall o | o in t.outbox
        ensures JobKey(o) != JobKey(id)
      {
        JobKeyInjective(o, id);
      }
      t := t.(outbox := t.outbox[id := NewRow(eventType, subject, scheduledAt)]);
    }
  }
}
