/**
  Applying delivery receipts to the message table: one message, or everything up to a watermark,
  while other receipts, send results and retries change the same rows.
 */
module Receipts {
  import opened Common
  import opened DeliveryStatus

  type Id = string
  type Contact = string

  datatype Row = Row(
    outbound: bool,
    isPrivate: bool,
    status: Status,
    providerMessageId: Option<string>,
    contact: Contact,
    sentAt: Option<int>,
    deliveredAt: Option<int>,
    readAt: Option<int>,
    failedAt: Option<int>)

  type Rows = map<Id, Row>

  /** `watermark` is the time given in the metadata, or the receipt's own. */
  datatype Receipt = Receipt(messageId: string, status: Status, at: int, recipient: Contact, watermark: int)

  const WATERMARK_PREFIX := "watermark:"

  /** A write to a row, by this receipt or by somebody else (history). */
  datatype Change = Change(id: Id, before: Row, after: Row, mine: bool)

  /** What a row is after some changes to the table. */
  function RowAfter(row: Row, id: Id, changes: seq<Change>): Row {
    if changes == [] then row
    else
      var last := changes[|changes| - 1];
      if last.id == id then last.after else RowAfter(row, id, changes[..|changes| - 1])
  }

  /** The rows were there throughout, and the recorded changes account for them. */
  ghost predicate Explains(before: Rows, after: Rows, changes: seq<Change>) {
    forall id <- before :: id in after && after[id] == RowAfter(before[id], id, changes)
  }

  /** Somebody else took the row from one status to another. */
  ghost predicate Moved(changes: seq<Change>, id: Id, seen: Status) {
    exists c <- changes :: c.id == id && c.before.status == seen && c.after.status != seen && !c.mine
  }

  /** Every recorded change starts from what its row then was. */
  ghost predicate Chained(before: Rows, changes: seq<Change>) {
    forall i | 0 <= i < |changes| && changes[i].id in before ::
      changes[i].before == RowAfter(before[changes[i].id], changes[i].id, changes[..i])
  }

  /** The write of a receipt: the status and the one time that belongs to it; nothing else changes. */
  ghost predicate IsReceipt(c: Change, id: Id, seen: Status, status: Status, at: int) {
    && c.mine && c.id == id && c.before.status == seen && c.after.status == status
    && c.after.sentAt == (if status == SENT then Some(at) else c.before.sentAt)
    && c.after.deliveredAt == (if status == DELIVERED then Some(at) else c.before.deliveredAt)
    && c.after.readAt == (if status == READ then Some(at) else c.before.readAt)
    && c.after.failedAt == (if status == FAILED then Some(at) else c.before.failedAt)
    && c.after.outbound == c.before.outbound && c.after.isPrivate == c.before.isPrivate
    && c.after.providerMessageId == c.before.providerMessageId && c.after.contact == c.before.contact
  }

  /** A row that no longer has the status it had was moved away from it. */
  lemma {:induction false} ChangedMeansMoved(before: Rows, changes: seq<Change>, id: Id)
    requires id in before && Chained(before, changes) && forall c <- changes | c.id == id :: !c.mine
    requires RowAfter(before[id], id, changes).status != before[id].status
    ensures Moved(changes, id, before[id].status)
  {
    var n := |changes| - 1;
    var last, rest := changes[n], changes[..n];
    assert changes == rest + [last] && last in changes;
    assert Chained(before, rest) by {
      assert forall i | 0 <= i < n :: rest[i] == changes[i] && rest[..i] == changes[..i];
    }
    if RowAfter(before[id], id, rest).status != before[id].status {
      ChangedMeansMoved(before, rest, id);
      var seen := before[id].status;
      var c :| c in rest && c.id == id && c.before.status == seen && c.after.status != seen && !c.mine;
      assert c in changes;
    } else {
      assert changes[..n] == rest && last.before.status == before[id].status;
    }
  }

  lemma {:induction false} RowAfterConcat(row: Row, id: Id, x: seq<Change>, y: seq<Change>)
    ensures RowAfter(row, id, x + y) == RowAfter(RowAfter(row, id, x), id, y)
  {
    if y == [] {
      assert x + y == x;
    } else {
      var n := |y| - 1;
      assert (x + y)[|x + y| - 1] == y[n] && (x + y)[..|x + y| - 1] == x + y[..n];
      RowAfterConcat(row, id, x, y[..n]);
    }
  }

  /** Histories of one table follow each other. */
  lemma HistoriesConcat(a: Rows, b: Rows, c: Rows, x: seq<Change>, y: seq<Change>)
    requires Explains(a, b, x) && Chained(a, x) && Explains(b, c, y) && Chained(b, y)
    ensures Explains(a, c, x + y) && Chained(a, x + y)
  {
    forall id | id in a
      ensures id in c && c[id] == RowAfter(a[id], id, x + y)
    {
      RowAfterConcat(a[id], id, x, y);
    }
    forall i | 0 <= i < |x + y| && (x + y)[i].id in a
      ensures (x + y)[i].before == RowAfter(a[(x + y)[i].id], (x + y)[i].id, (x + y)[..i])
    {
      var id := (x + y)[i].id;
      if i < |x| {
        assert (x + y)[..i] == x[..i];
      } else {
        assert (x + y)[..i] == x + y[..i - |x|];
        RowAfterConcat(a[id], id, x, y[..i - |x|]);
        assert y[i - |x|].id == id && id in b;
      }
    }
  }

  lemma OneChange(a: Rows, c: Change)
    requires c.id in a && a[c.id] == c.before
    ensures Explains(a, a[c.id := c.after], [c]) && Chained(a, [c])
  {
    assert forall id :: RowAfter(c.before, id, []) == c.before;
    forall id | id in a
      ensures a[c.id := c.after][id] == RowAfter(a[id], id, [c])
    {
      assert [c][..0] == [];
    }
  }

  predicate Wanted(seen: Status, next: Status) {
    IsMonotonic(seen, next) && seen != next
  }

  /** The columns a receipt sets, besides the status. */
  function Stamped(r: Row, status: Status, at: int): Row {
    match status
    case SENT => r.(status := status, sentAt := Some(at))
    case DELIVERED => r.(status := status, deliveredAt := Some(at))
    case READ => r.(status := status, readAt := Some(at))
    case FAILED => r.(status := status, failedAt := Some(at))
    case PENDING => r.(status := status)
  }

  lemma StampIsReceipt(id: Id, r: Row, status: Status, at: int)
    ensures IsReceipt(Change(id, r, Stamped(r, status, at), true), id, r.status, status, at)
  {
  }

  predicate IsCandidate(r: Row, contact: Contact, status: Status, watermark: int) {
    && r.outbound && !r.isPrivate && r.contact == contact
    && (r.status == SENT || (status == READ && r.status == DELIVERED))
    && r.sentAt.Some? && r.sentAt.value <= watermark
  }

  function CountMine(changes: seq<Change>): nat {
    if changes == [] then 0
    else CountMine(changes[..|changes| - 1]) + if changes[|changes| - 1].mine then 1 else 0
  }

  lemma {:induction false} NoneMine(changes: seq<Change>)
    requires forall c <- changes :: !c.mine
    ensures CountMine(changes) == 0
  {
    if changes != [] {
      assert changes[|changes| - 1] in changes;
      assert forall c <- changes[..|changes| - 1] :: c in changes;
      NoneMine(changes[..|changes| - 1]);
    }
  }

  lemma {:induction false} NoneMineHere(changes: seq<Change>)
    requires CountMine(changes) == 0
    ensures forall c <- changes :: !c.mine
  {
    if changes != [] {
      NoneMineHere(changes[..|changes| - 1]);
      assert changes == changes[..|changes| - 1] + [changes[|changes| - 1]];
    }
  }

  lemma {:induction false} CountMineConcat(x: seq<Change>, y: seq<Change>)
    ensures CountMine(x + y) == CountMine(x) + CountMine(y)
  {
    if y == [] {
      assert x + y == x;
    } else {
      var n := |y| - 1;
      assert (x + y)[|x + y| - 1] == y[n] && (x + y)[..|x + y| - 1] == x + y[..n];
      CountMineConcat(x, y[..n]);
    }
  }

  lemma CountOne(c: Change)
    requires c.mine
    ensures CountMine([c]) == 1
  {
    assert [c][..0] == [];
  }

  /** The receipt reached the message, or somebody moved it away from the status that was read. */
  ghost predicate Settled(did: seq<Change>, id: Id, seen: Status, status: Status, at: int) {
    IsMonotonic(seen, status) && seen != status ==>
      (exists c <- did :: IsReceipt(c, id, seen, status, at)) || Moved(did, id, seen)
  }

  lemma SettledGrows(x: seq<Change>, y: seq<Change>, id: Id, seen: Status, status: Status, at: int)
    requires Settled(x, id, seen, status, at)
    ensures Settled(x + y, id, seen, status, at)
  {
    hide IsReceipt;
    assert forall c <- x :: c in x + y;
  }

  lemma NoHistory(rows: Rows)
    ensures Explains(rows, rows, []) && Chained(rows, []) && CountMine([]) == 0
  {
  }

  predicate NobodyCarries(rows: Rows, messageId: string) {
    forall id <- rows :: rows[id].providerMessageId != Some(messageId)
  }

  class MessageTable {
    var rows: Rows
    ghost var changes: seq<Change>

    /** Whatever the others do meanwhile; rows are never deleted. */
    method Others() returns (ghost more: seq<Change>)
      modifies this
      ensures changes == old(changes) + more && (forall c <- more :: !c.mine)
      ensures Explains(old(rows), rows, more) && Chained(old(rows), more)
      ensures old(rows.Keys) <= rows.Keys
    {
      more := [];
    }

    /**
      A receipt against a message as it was read, possibly a while ago: nothing when the status rule
      says no, otherwise one write guarded by the status that was read, which happens unless the
      message no longer has that status.
     */
    method Transition(id: Id, seen: Status, status: Status, at: int)
      returns (count: nat, ghost did: seq<Change>)
      requires id in rows
      modifies this
      ensures changes == old(changes) + did && Chained(old(rows), did) && Explains(old(rows), rows, did)
      ensures forall c <- did | c.mine :: IsReceipt(c, id, seen, status, at)
      ensures CountMine(did) == count <= 1 && (count == 1 ==> Wanted(seen, status))
      ensures !Wanted(seen, status) ==> did == [] && rows == old(rows)
      ensures old(rows.Keys) <= rows.Keys
      ensures Wanted(seen, status) && count == 0 ==> rows[id].status != seen
    {
      hide Chained, Explains, CountMine, Stamped, IsReceipt;
      count, did := 0, [];
      NoHistory(rows);
      if !IsMonotonic(seen, status) || seen == status {
        return;
      }
      did := Others();
      NoneMine(did);
      if id in rows && rows[id].status == seen {
        ghost var before, c := rows, Change(id, rows[id], Stamped(rows[id], status, at), true);
        ghost var more := did;
        rows := rows[id := Stamped(rows[id], status, at)];
        changes := changes + [c];
        did := did + [c];
        StampIsReceipt(id, before[id], status, at);
        OneChange(before, c);
        HistoriesConcat(old(rows), before, rows, more, [c]);
        CountMineConcat(more, [c]);
        CountOne(c);
        count := 1;
      }
    }

    /** findUnique by provider id, else an outbound message with that internal id. */
    method Find(messageId: string) returns (found: Option<Id>)
      ensures found.Some? ==> found.value in rows
      ensures found.Some? ==> rows[found.value].providerMessageId == Some(messageId)
                              || (found.value == messageId && rows[found.value].outbound
                                  && forall id <- rows :: rows[id].providerMessageId != Some(messageId))
      ensures found.None? ==>
                && (forall id <- rows :: rows[id].providerMessageId != Some(messageId))
                && !(messageId in rows && rows[messageId].outbound)
    {
      var left := rows.Keys;
      while left != {}
        invariant left <= rows.Keys
        invariant forall id <- rows.Keys - left :: rows[id].providerMessageId != Some(messageId)
      {
        var id :| id in left;
        if rows[id].providerMessageId == Some(messageId) {
          return Some(id);
        }
        left := left - {id};
      }
      found := if messageId in rows && rows[messageId].outbound then Some(messageId) else None;
    }

    /** Not matchable exactly when no message carries the id; otherwise one transition of it. */
    method ApplyToMessage(receipt: Receipt) returns (matched: bool, count: nat, ghost did: seq<Change>)
      modifies this
      ensures matched <==>
                (exists id <- old(rows) :: old(rows)[id].providerMessageId == Some(receipt.messageId))
                || (receipt.messageId in old(rows) && old(rows)[receipt.messageId].outbound)
      ensures changes == old(changes) + did && CountMine(did) == count
      ensures !matched ==> did == [] && rows == old(rows)
      ensures matched ==> exists id <- old(rows) ::
                  && (old(rows)[id].providerMessageId == Some(receipt.messageId)
                      || (id == receipt.messageId && old(rows)[id].outbound
                          && NobodyCarries(old(rows), receipt.messageId)))
                  && (forall c <- did | c.mine ::
                        IsReceipt(c, id, old(rows)[id].status, receipt.status, receipt.at))
                  && Settled(did, id, old(rows)[id].status, receipt.status, receipt.at)
      ensures Explains(old(rows), rows, did)
    {
      hide IsReceipt, Explains, Chained;
      NoHistory(rows);
      var found := Find(receipt.messageId);
      if found.None? {
        return false, 0, [];
      }
      matched := true;
      var id, seen := found.value, rows[found.value].status;
      count, did := Transition(id, seen, receipt.status, receipt.at);
      assert [] + did == did;
      SettleOne(old(rows), rows, [], did, id, receipt.status, receipt.at);
    }

    method Candidates(contact: Contact, status: Status, watermark: int) returns (ids: seq<Id>)
      ensures forall i, j | 0 <= i < j < |ids| :: ids[i] != ids[j]
      ensures forall id :: id in ids <==> id in rows && IsCandidate(rows[id], contact, status, watermark)
      ensures forall id <- rows :: id in ids <==>
                && rows[id].outbound && !rows[id].isPrivate && rows[id].contact == contact
                && (rows[id].status == SENT || (rows[id].status == DELIVERED && status == READ))
                && (exists sent :: rows[id].sentAt == Some(sent) && sent <= watermark)
    {
      ids := [];
      var left := rows.Keys;
      while left != {}
        invariant left <= rows.Keys
        invariant forall i, j | 0 <= i < j < |ids| :: ids[i] != ids[j]
        invariant forall id :: id in ids <==>
                    id in rows && id !in left && IsCandidate(rows[id], contact, status, watermark)
      {
        var id :| id in left;
        if IsCandidate(rows[id], contact, status, watermark) {
          ids := ids + [id];
        }
        left := left - {id};
      }
    }

    /**
      A watermark receipt: every candidate gets the receipt's status, unless somebody else moves it
      first, and nothing but a candidate is written.
     */
    method ApplyWatermarkReceipt(contact: Contact, status: Status, watermark: int, at: int)
      returns (changed: nat, ghost did: seq<Change>)
      modifies this
      ensures changes == old(changes) + did && Chained(old(rows), did) && Explains(old(rows), rows, did)
      ensures changed == CountMine(did)
      ensures forall c <- did | c.mine ::
                && c.id in old(rows) && IsCandidate(old(rows)[c.id], contact, status, watermark)
                && IsReceipt(c, c.id, old(rows)[c.id].status, status, at)
      ensures forall id <- old(rows) | IsCandidate(old(rows)[id], contact, status, watermark) ::
                Settled(did, id, old(rows)[id].status, status, at)
    {
      hide IsReceipt, Chained, Explains, CountMine, Settled, IsCandidate, Wanted;
      var candidates := Candidates(contact, status, watermark);
      var seen := map id | id in candidates :: rows[id].status;
      changed, did := 0, [];
      NoHistory(rows);
      for i := 0 to |candidates|
        invariant changes == old(changes) + did && changed == CountMine(did)
        invariant old(rows.Keys) <= rows.Keys
        invariant Chained(old(rows), did) && Explains(old(rows), rows, did)
        invariant forall c <- did | c.mine ::
          c.id in candidates[..i] && IsReceipt(c, c.id, old(rows)[c.id].status, status, at)
        invariant forall id <- candidates[..i] :: Settled(did, id, old(rows)[id].status, status, at)
      {
        var id := candidates[i];
        assert id in candidates && id !in candidates[..i];
        ghost var before, x := rows, did;
        var count;
        ghost var y;
        count, y := Transition(id, seen[id], status, at);
        HistoriesConcat(old(rows), before, rows, x, y);
        CountMineConcat(x, y);
        ReceiptIds(y, id, seen[id], status, at);
        SettleOne(old(rows), rows, x, y, id, status, at);
        forall other | other in candidates[..i]
          ensures Settled(x + y, other, old(rows)[other].status, status, at)
        {
          SettledGrows(x, y, other, old(rows)[other].status, status, at);
        }
        assert candidates[..i + 1] == candidates[..i] + [id];
        changed, did := changed + count, x + y;
      }
      assert candidates[..|candidates|] == candidates;
    }

    /** A receipt names one message, or a watermark; only the first kind can be unmatchable. */
    method ApplyReceipt(receipt: Receipt) returns (matched: bool, count: nat, ghost did: seq<Change>)
      modifies this
      ensures changes == old(changes) + did && CountMine(did) == count
      ensures "watermark:" <= receipt.messageId ==>
                && matched
                && (forall id <- old(rows) |
                      IsCandidate(old(rows)[id], receipt.recipient, receipt.status, receipt.watermark) ::
                      Settled(did, id, old(rows)[id].status, receipt.status, receipt.at))
                && (forall c <- did | c.mine ::
                      && c.id in old(rows)
                      && IsCandidate(old(rows)[c.id], receipt.recipient, receipt.status, receipt.watermark)
                      && IsReceipt(c, c.id, old(rows)[c.id].status, receipt.status, receipt.at))
      ensures !("watermark:" <= receipt.messageId) ==>
                (matched <==>
                   (exists id <- old(rows) :: old(rows)[id].providerMessageId == Some(receipt.messageId))
                   || (receipt.messageId in old(rows) && old(rows)[receipt.messageId].outbound))
      ensures !("watermark:" <= receipt.messageId) && matched ==> exists id <- old(rows) ::
                  && (old(rows)[id].providerMessageId == Some(receipt.messageId)
                      || (id == receipt.messageId && old(rows)[id].outbound
                          && NobodyCarries(old(rows), receipt.messageId)))
                  && Settled(did, id, old(rows)[id].status, receipt.status, receipt.at)
                  && (forall c <- did | c.mine ::
                        IsReceipt(c, id, old(rows)[id].status, receipt.status, receipt.at))
      ensures Explains(old(rows), rows, did)
      ensures !matched ==> did == [] && rows == old(rows)
    {
      hide Chained, Explains, IsCandidate, Wanted, Moved, IsReceipt, Settled;
      if WATERMARK_PREFIX <= receipt.messageId {
        matched := true;
        count, did := ApplyWatermarkReceipt(receipt.recipient, receipt.status, receipt.watermark, receipt.at);
      } else {
        matched, count, did := ApplyToMessage(receipt);
      }
    }
  }

  lemma ReceiptIds(y: seq<Change>, id: Id, seen: Status, status: Status, at: int)
    requires forall c <- y | c.mine :: IsReceipt(c, id, seen, status, at)
    ensures forall c <- y | c.mine :: c.id == id
  {
  }

  lemma SettleOne(before: Rows, after: Rows, x: seq<Change>, y: seq<Change>, id: Id, status: Status, at: int)
    requires id in before && Chained(before, x + y) && Explains(before, after, x + y)
    requires forall c <- x | c.mine :: c.id != id
    requires forall c <- y | c.mine :: IsReceipt(c, id, before[id].status, status, at)
    requires Wanted(before[id].status, status) && CountMine(y) == 0 ==> after[id].status != before[id].status
    ensures Settled(x + y, id, before[id].status, status, at)
  {
    hide IsReceipt;
    if Wanted(before[id].status, status) {
      if CountMine(y) == 0 {
        NoneMineHere(y);
        ChangedMeansMoved(before, x + y, id);
      } else {
        SomeMine(y);
        assert forall c <- y :: c in x + y;
      }
    }
  }

  lemma {:induction false} SomeMine(changes: seq<Change>)
    requires CountMine(changes) > 0
    ensures exists c <- changes :: c.mine
  {
    var n := |changes| - 1;
    assert changes == changes[..n] + [changes[n]];
    if !changes[n].mine {
      SomeMine(changes[..n]);
    }
  }
}
