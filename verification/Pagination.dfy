/**
  Keyset pages of a conversation's messages, and walks that follow the cursor to its end. The column
  keeps microseconds; a cursor carries its row's time in milliseconds.
 */
module Pagination {
  import opened Common

  /** `id` is the row's place in the order of ids. */
  datatype Row = Row(createdAt: int, id: nat)

  datatype Cursor = Cursor(createdAtMs: int, id: nat)

  datatype Page = Page(data: seq<Row>, nextCursor: Option<Cursor>)

  /** ORDER BY createdAt DESC, id DESC. */
  predicate Newer(a: Row, b: Row) {
    a.createdAt > b.createdAt || (a.createdAt == b.createdAt && a.id > b.id)
  }

  ghost predicate Descending(rows: seq<Row>) {
    forall i, j | 0 <= i < j < |rows| :: Newer(rows[i], rows[j])
  }

  /** A JavaScript date keeps whole milliseconds. */
  function Encode(r: Row): Cursor {
    Cursor(r.createdAt / 1000, r.id)
  }

  predicate Matches(r: Row, before: Option<Cursor>) {
    before.None? || r.createdAt < before.value.createdAtMs * 1000
    || (r.createdAt == before.value.createdAtMs * 1000 && r.id < before.value.id)
  }

  /** The WHERE clause, over the rows in display order. */
  function Select(rows: seq<Row>, before: Option<Cursor>): (found: seq<Row>)
    ensures |found| <= |rows|
  {
    if rows == [] then []
    else (if Matches(rows[0], before) then [rows[0]] else []) + Select(rows[1..], before)
  }

  function Take(rows: seq<Row>, n: nat): seq<Row> {
    if n < |rows| then rows[..n] else rows
  }

  function Reverse(rows: seq<Row>): seq<Row> {
    if rows == [] then [] else Reverse(rows[1..]) + [rows[0]]
  }

  function ListMessages(rows: seq<Row>, before: Option<Cursor>, limit: nat): Page
    requires limit >= 1
  {
    var found := Take(Select(rows, before), limit + 1);
    var page := Take(found, limit);
    Page(Reverse(page), if |found| > limit then Some(Encode(page[|page| - 1])) else None)
  }

  // ---------------------------------------------------------------------------
  // Selection
  // ---------------------------------------------------------------------------

  lemma {:induction false} SelectAll(rows: seq<Row>)
    ensures Select(rows, None) == rows
  {
    if rows != [] {
      SelectAll(rows[1..]);
    }
  }

  lemma {:induction false} SelectNone(rows: seq<Row>, before: Option<Cursor>)
    requires forall r <- rows :: !Matches(r, before)
    ensures Select(rows, before) == []
  {
    if rows != [] {
      assert rows[0] in rows;
      assert forall r <- rows[1..] :: r in rows;
      SelectNone(rows[1..], before);
    }
  }

  lemma {:induction false} SelectEvery(rows: seq<Row>, before: Option<Cursor>)
    requires forall r <- rows :: Matches(r, before)
    ensures Select(rows, before) == rows
  {
    if rows != [] {
      assert rows[0] in rows;
      assert forall r <- rows[1..] :: r in rows;
      SelectEvery(rows[1..], before);
    }
  }

  lemma {:induction false} SelectConcat(a: seq<Row>, b: seq<Row>, before: Option<Cursor>)
    ensures Select(a + b, before) == Select(a, before) + Select(b, before)
  {
    if a == [] {
      assert a + b == b;
    } else {
      assert (a + b)[0] == a[0] && (a + b)[1..] == a[1..] + b;
      SelectConcat(a[1..], b, before);
    }
  }

  /** What a cursor matches is older than its row, and everything older than a match matches. */
  lemma MatchesDownwards(c: Row, r: Row, older: Row)
    requires Matches(r, Some(Encode(c)))
    ensures Newer(c, r)
    ensures Newer(r, older) ==> Matches(older, Some(Encode(c)))
  {
  }

  /** On a row stamped in whole milliseconds the cursor is exact. */
  lemma AlignedCursorIsExact(c: Row, r: Row)
    requires c.createdAt % 1000 == 0
    ensures Matches(r, Some(Encode(c))) <==> Newer(c, r)
  {
  }

  /** The first row from `k` on that the cursor of the row before `k` does not skip. */
  function Resume(rows: seq<Row>, k: nat): (m: nat)
    requires 0 < k <= |rows|
    ensures k <= m <= |rows|
  {
    FirstMatch(rows, k, Some(Encode(rows[k - 1])))
  }

  function FirstMatch(rows: seq<Row>, k: nat, before: Option<Cursor>): (m: nat)
    requires k <= |rows|
    ensures k <= m <= |rows|
    ensures forall i | k <= i < m :: !Matches(rows[i], before)
    ensures m < |rows| ==> Matches(rows[m], before)
    decreases |rows| - k
  {
    if k == |rows| || Matches(rows[k], before) then k else FirstMatch(rows, k + 1, before)
  }

  /** A cursor selects a tail of the listing. */
  lemma CursorSelectsTail(rows: seq<Row>, k: nat)
    requires Descending(rows) && 0 < k <= |rows|
    ensures Select(rows, Some(Encode(rows[k - 1]))) == rows[Resume(rows, k)..]
  {
    var c, m := rows[k - 1], Resume(rows, k);
    var before := Some(Encode(c));
    forall i | 0 <= i < m
      ensures !Matches(rows[i], before)
    {
      if i < k && Matches(rows[i], before) {
        MatchesDownwards(c, rows[i], rows[i]);
      }
    }
    forall i | m <= i < |rows|
      ensures Matches(rows[i], before)
    {
      MatchesDownwards(c, rows[m], rows[i]);
    }
    assert rows == rows[..m] + rows[m..];
    SelectConcat(rows[..m], rows[m..], before);
    SelectNone(rows[..m], before);
    SelectEvery(rows[m..], before);
  }

  // ---------------------------------------------------------------------------
  // Walking a fixed set of messages
  // ---------------------------------------------------------------------------

  /** The pages a client gets by following the cursor to its end. */
  function Walk(rows: seq<Row>, before: Option<Cursor>, limit: nat): seq<seq<Row>>
    requires limit >= 1 && Descending(rows)
    requires before.Some? ==> exists c <- rows :: before == Some(Encode(c))
    decreases |Select(rows, before)|
  {
    var page := ListMessages(rows, before, limit);
    if page.nextCursor.None? then [page.data]
    else
      NextIsLater(rows, before, limit);
      [page.data] + Walk(rows, page.nextCursor, limit)
  }

  /** The pages joined, the last one first, as a client that scrolls up shows them. */
  function Joined(pages: seq<seq<Row>>): seq<Row> {
    if pages == [] then [] else Joined(pages[1..]) + pages[0]
  }

  lemma StartOf(rows: seq<Row>, before: Option<Cursor>) returns (k: nat)
    requires Descending(rows)
    requires before.Some? ==> exists c <- rows :: before == Some(Encode(c))
    ensures k <= |rows| && Select(rows, before) == rows[k..]
  {
    if before.None? {
      SelectAll(rows);
      k := 0;
    } else {
      var c :| c in rows && before == Some(Encode(c));
      var i :| 0 <= i < |rows| && rows[i] == c;
      CursorSelectsTail(rows, i + 1);
      k := Resume(rows, i + 1);
    }
  }

  /** Where the next page starts. */
  lemma PageOf(rows: seq<Row>, before: Option<Cursor>, limit: nat, k: nat)
    requires Descending(rows) && limit >= 1 && k <= |rows| && Select(rows, before) == rows[k..]
    ensures var page := ListMessages(rows, before, limit);
            if |rows| - k <= limit then page == Page(Reverse(rows[k..]), None)
            else
              && page == Page(Reverse(rows[k..k + limit]), Some(Encode(rows[k + limit - 1])))
              && rows[k + limit - 1] in rows
              && Select(rows, page.nextCursor) == rows[Resume(rows, k + limit)..]
  {
    var tail := rows[k..];
    if |rows| - k > limit {
      assert Take(Take(tail, limit + 1), limit) == rows[k..k + limit];
      CursorSelectsTail(rows, k + limit);
    }
  }

  lemma NextIsLater(rows: seq<Row>, before: Option<Cursor>, limit: nat)
    requires limit >= 1 && Descending(rows)
    requires before.Some? ==> exists c <- rows :: before == Some(Encode(c))
    ensures var next := ListMessages(rows, before, limit).nextCursor;
            next.Some? ==> |Select(rows, next)| < |Select(rows, before)|
                           && exists c <- rows :: next == Some(Encode(c))
  {
    var k := StartOf(rows, before);
    PageOf(rows, before, limit, k);
  }

  /** The cursor of the row before reaches this row. */
  ghost predicate Reached(rows: seq<Row>, i: nat)
    requires 0 < i < |rows|
  {
    Matches(rows[i], Some(Encode(rows[i - 1])))
  }

  ghost predicate NoneSkipped(rows: seq<Row>, k: nat) {
    forall i | k < i < |rows| :: Reached(rows, i)
  }

  /** One page per `limit` rows, and one page for none. */
  function PagesFor(n: nat, limit: nat): nat
    requires limit >= 1
  {
    if n <= limit then 1 else 1 + PagesFor(n - limit, limit)
  }

  /** That is ceil(n / limit). */
  lemma {:induction false} PagesForIsCeil(n: nat, limit: nat)
    requires limit >= 1 && n >= 1
    ensures (PagesFor(n, limit) - 1) * limit < n <= PagesFor(n, limit) * limit
  {
    if n > limit {
      PagesForIsCeil(n - limit, limit);
    }
  }

  lemma {:induction false} ReverseConcat(a: seq<Row>, b: seq<Row>)
    ensures Reverse(a + b) == Reverse(b) + Reverse(a)
  {
    if a == [] {
      assert a + b == b;
    } else {
      assert (a + b)[0] == a[0] && (a + b)[1..] == a[1..] + b;
      ReverseConcat(a[1..], b);
    }
  }

  lemma {:induction false} ReverseLength(a: seq<Row>)
    ensures |Reverse(a)| == |a|
  {
    if a != [] {
      ReverseLength(a[1..]);
    }
  }

  lemma WalkUnfolds(rows: seq<Row>, before: Option<Cursor>, limit: nat)
    requires limit >= 1 && Descending(rows)
    requires before.Some? ==> exists c <- rows :: before == Some(Encode(c))
    ensures var page := ListMessages(rows, before, limit);
            && (page.nextCursor.None? ==> Walk(rows, before, limit) == [page.data]
                                          && Joined(Walk(rows, before, limit)) == page.data)
            && (page.nextCursor.Some? ==>
                  && (exists c <- rows :: page.nextCursor == Some(Encode(c)))
                  && |Walk(rows, before, limit)| == 1 + |Walk(rows, page.nextCursor, limit)|
                  && Joined(Walk(rows, before, limit)) == Joined(Walk(rows, page.nextCursor, limit)) + page.data)
  {
    NextIsLater(rows, before, limit);
    hide ListMessages;
    var page := ListMessages(rows, before, limit);
    if page.nextCursor.Some? {
      JoinedMore(page.data, Walk(rows, page.nextCursor, limit));
    } else {
      JoinedOne(page.data);
    }
  }

  /** The rest of a walk returns the rest of the rows, in ceil(rest / limit) pages. */
  lemma {:induction false} WalkReturnsRest(rows: seq<Row>, before: Option<Cursor>, limit: nat, k: nat)
    requires limit >= 1 && Descending(rows) && k <= |rows| && Select(rows, before) == rows[k..]
    requires before.Some? ==> exists c <- rows :: before == Some(Encode(c))
    requires NoneSkipped(rows, k)
    ensures Joined(Walk(rows, before, limit)) == Reverse(rows[k..])
    ensures |Walk(rows, before, limit)| == PagesFor(|rows| - k, limit)
    decreases |rows| - k
  {
    hide ListMessages, Walk, Select, Reverse, Joined, Matches, Descending;
    PageOf(rows, before, limit, k);
    WalkUnfolds(rows, before, limit);
    if |rows| - k > limit {
      var n := k + limit;
      ResumesAtOnce(rows, k, n);
      WalkReturnsRest(rows, ListMessages(rows, before, limit).nextCursor, limit, n);
      assert rows[k..] == rows[k..n] + rows[n..];
      ReverseConcat(rows[k..n], rows[n..]);
    }
  }

  lemma ResumesAtOnce(rows: seq<Row>, k: nat, n: nat)
    requires k < n < |rows| && NoneSkipped(rows, k)
    ensures Resume(rows, n) == n && NoneSkipped(rows, n)
  {
    assert Reached(rows, n);
  }

  lemma JoinedOne(page: seq<Row>)
    ensures Joined([page]) == page
  {
  }

  lemma JoinedMore(page: seq<Row>, pages: seq<seq<Row>>)
    ensures Joined([page] + pages) == Joined(pages) + page
  {
    assert ([page] + pages)[1..] == pages;
  }

  /** A cursor that skips a row loses it: pages of one row then return fewer rows than there are. */
  lemma {:induction false} SkippedIsLost(rows: seq<Row>, before: Option<Cursor>, k: nat)
    requires Descending(rows) && k <= |rows| && Select(rows, before) == rows[k..]
    requires before.Some? ==> exists c <- rows :: before == Some(Encode(c))
    ensures |Joined(Walk(rows, before, 1))| <= |rows| - k
    ensures !NoneSkipped(rows, k) ==> |Joined(Walk(rows, before, 1))| < |rows| - k
    decreases |rows| - k
  {
    hide ListMessages, Walk, Select, Reverse, Joined, Matches, Descending;
    PageOf(rows, before, 1, k);
    WalkUnfolds(rows, before, 1);
    ReverseLength(rows[k..]);
    if |rows| - k > 1 {
      var m := Resume(rows, k + 1);
      ReverseLength(rows[k..k + 1]);
      SkippedIsLost(rows, ListMessages(rows, before, 1).nextCursor, m);
      if !NoneSkipped(rows, k) {
        SkipIsLater(rows, k);
      }
    }
  }

  lemma SkipIsLater(rows: seq<Row>, k: nat)
    requires k + 1 < |rows| && !NoneSkipped(rows, k)
    ensures Resume(rows, k + 1) > k + 1 || !NoneSkipped(rows, k + 1)
  {
    var i :| k < i < |rows| && !Reached(rows, i);
    hide Matches;
    assert i == k + 1 ==> !Matches(rows[i], Some(Encode(rows[k])));
  }

  /**
    Following the cursor returns every message once, newest page first and in (createdAt, id) order
    once joined, for every page size exactly when the cursor of each message reaches the next one.
   */
  lemma WalkEnumeratesExactlyWhen(rows: seq<Row>)
    requires Descending(rows)
    ensures NoneSkipped(rows, 0) <==>
            forall limit: nat | limit >= 1 :: Joined(Walk(rows, None, limit)) == Reverse(rows)
  {
    SelectAll(rows);
    assert rows[0..] == rows;
    if NoneSkipped(rows, 0) {
      forall limit: nat | limit >= 1
        ensures Joined(Walk(rows, None, limit)) == Reverse(rows)
      {
        WalkReturnsRest(rows, None, limit, 0);
      }
    } else {
      SkippedIsLost(rows, None, 0);
      ReverseLength(rows);
      assert Joined(Walk(rows, None, 1)) != Reverse(rows);
    }
  }

  /** With timestamps in whole milliseconds: complete, ordered, and in ceil(n / limit) pages. */
  lemma WalkEnumerates(rows: seq<Row>, limit: nat)
    requires limit >= 1 && Descending(rows) && rows != []
    requires forall r <- rows :: r.createdAt % 1000 == 0
    ensures Joined(Walk(rows, None, limit)) == Reverse(rows)
    ensures (|Walk(rows, None, limit)| - 1) * limit < |rows| <= |Walk(rows, None, limit)| * limit
  {
    forall i | 0 < i < |rows|
      ensures Reached(rows, i)
    {
      assert rows[i - 1] in rows;
      AlignedCursorIsExact(rows[i - 1], rows[i]);
    }
    SelectAll(rows);
    assert rows[0..] == rows;
    WalkReturnsRest(rows, None, limit, 0);
    PagesForIsCeil(|rows|, limit);
  }

  /**
    Two messages within one millisecond: the older one is on no page, and the last page is empty.
    Such stamps come from the column's default, which replies are created with; dates that the code
    passes itself are whole milliseconds.
   */
  lemma MicrosecondsLoseMessages()
    ensures var rows := [Row(1_999, 2), Row(1_001, 1)];
            Descending(rows) && Walk(rows, None, 1) == [[Row(1_999, 2)], []]
  {
    var rows := [Row(1_999, 2), Row(1_001, 1)];
    SelectAll(rows);
    assert rows[0..] == rows;
    PageOf(rows, None, 1, 0);
    assert Resume(rows, 1) == 2;
    var page := ListMessages(rows, None, 1);
    PageOf(rows, page.nextCursor, 1, 2);
    assert Walk(rows, page.nextCursor, 1) == [[]];
    assert rows[0..1] == [rows[0]] && Reverse([rows[0]]) == [rows[0]];
  }

  // ---------------------------------------------------------------------------
  // Messages arriving, or going, during the walk
  // ---------------------------------------------------------------------------

  /** The k-th request sees the k-th table. */
  function WalkOver(tables: seq<seq<Row>>, before: Option<Cursor>, limit: nat): seq<seq<Row>>
    requires limit >= 1
  {
    if tables == [] then []
    else
      var page := ListMessages(tables[0], before, limit);
      [page.data] + if page.nextCursor.None? then [] else WalkOver(tables[1..], page.nextCursor, limit)
  }

  /** The walk got to a page without a cursor. */
  ghost predicate Finishes(tables: seq<seq<Row>>, before: Option<Cursor>, limit: nat)
    requires limit >= 1
  {
    tables != [] &&
    var next := ListMessages(tables[0], before, limit).nextCursor;
    next.None? || Finishes(tables[1..], next, limit)
  }

  ghost predicate Listings(tables: seq<seq<Row>>) {
    forall rows <- tables :: Descending(rows) && forall r <- rows :: r.createdAt % 1000 == 0
  }

  ghost predicate OlderThan(r: Row, last: Option<Row>) {
    last.None? || Newer(last.value, r)
  }

  function CursorOf(last: Option<Row>): Option<Cursor> {
    if last.None? then None else Some(Encode(last.value))
  }

  lemma {:induction false} SelectIs(rows: seq<Row>, last: Option<Row>)
    requires Descending(rows) && (last.Some? ==> last.value.createdAt % 1000 == 0)
    ensures var found := Select(rows, CursorOf(last));
            && Descending(found)
            && forall r :: r in found <==> r in rows && OlderThan(r, last)
  {
    if rows != [] {
      SelectIs(rows[1..], last);
      assert rows == [rows[0]] + rows[1..];
      if last.Some? {
        AlignedCursorIsExact(last.value, rows[0]);
      }
      var rest := Select(rows[1..], CursorOf(last));
      forall j | 0 <= j < |rest|
        ensures Newer(rows[0], rest[j])
      {
        assert rest[j] in rest;
        var i :| 0 <= i < |rows[1..]| && rows[1..][i] == rest[j];
        assert rows[1 + i] == rest[j];
      }
    }
  }

  lemma {:induction false} ReverseKeeps(rows: seq<Row>)
    ensures multiset(Reverse(rows)) == multiset(rows)
  {
    if rows != [] {
      ReverseKeeps(rows[1..]);
      assert rows == [rows[0]] + rows[1..];
    }
  }

  lemma {:induction false} OnceInDescending(rows: seq<Row>, r: Row)
    requires Descending(rows)
    ensures multiset(rows)[r] == if r in rows then 1 else 0
  {
    if rows != [] {
      assert rows == [rows[0]] + rows[1..];
      OnceInDescending(rows[1..], r);
      if r in rows[1..] {
        var i :| 0 <= i < |rows[1..]| && rows[1..][i] == r;
        assert Newer(rows[0], rows[1 + i]);
      }
    }
  }

  /** One page of a descending listing: what it holds, and what lies behind it. */
  lemma SplitAt(found: seq<Row>, n: nat, r: Row)
    requires Descending(found) && 0 < n < |found|
    ensures Descending(found[..n])
    ensures r in found[..n] ==> r in found && !Newer(found[n - 1], r)
    ensures r in found && r !in found[..n] ==> Newer(found[n - 1], r)
  {
    if r in found {
      var i :| 0 <= i < |found| && found[i] == r;
      assert i < n ==> found[..n][i] == r;
    }
    if r in found[..n] {
      var i :| 0 <= i < n && found[..n][i] == r;
      assert i < n - 1 ==> Newer(found[i], found[n - 1]);
    }
  }

  /** The rows of one page: those older than the last position and not behind the page's end. */
  ghost predicate OnPage(rows: seq<Row>, last: Option<Row>, end: Option<Row>, r: Row) {
    r in rows && OlderThan(r, last) && (end.None? || !Newer(end.value, r))
  }

  lemma PageIs(rows: seq<Row>, before: Option<Cursor>, limit: nat)
    requires limit >= 1
    ensures var found, page := Select(rows, before), ListMessages(rows, before, limit);
            if |found| <= limit then page == Page(Reverse(found), None)
            else page == Page(Reverse(found[..limit]), Some(Encode(found[limit - 1])))
  {
    var found := Select(rows, before);
    if |found| > limit {
      assert Take(Take(found, limit + 1), limit) == found[..limit];
    }
  }

  lemma PageHolds(rows: seq<Row>, last: Option<Row>, limit: nat, r: Row) returns (end: Option<Row>)
    requires limit >= 1 && Descending(rows) && (forall x <- rows :: x.createdAt % 1000 == 0)
    requires last.Some? ==> last.value.createdAt % 1000 == 0
    ensures ListMessages(rows, CursorOf(last), limit).nextCursor == CursorOf(end)
    ensures end.Some? ==> end.value.createdAt % 1000 == 0 && OlderThan(end.value, last)
    ensures multiset(ListMessages(rows, CursorOf(last), limit).data)[r] ==
            if OnPage(rows, last, end, r) then 1 else 0
  {
    var found := Select(rows, CursorOf(last));
    SelectIs(rows, last);
    PageIs(rows, CursorOf(last), limit);
    hide Select, ListMessages, Reverse, Newer;
    if |found| <= limit {
      end := None;
      ReverseKeeps(found);
      OnceInDescending(found, r);
    } else {
      end := Some(found[limit - 1]);
      assert found[limit - 1] in found;
      SplitAt(found, limit, r);
      ReverseKeeps(found[..limit]);
      OnceInDescending(found[..limit], r);
    }
  }

  lemma {:induction false} OnceInWalk(tables: seq<seq<Row>>, last: Option<Row>, limit: nat, r: Row)
    requires limit >= 1 && Listings(tables) && (last.Some? ==> last.value.createdAt % 1000 == 0)
    ensures multiset(Joined(WalkOver(tables, CursorOf(last), limit)))[r] <= 1
    ensures !OlderThan(r, last) ==> multiset(Joined(WalkOver(tables, CursorOf(last), limit)))[r] == 0
    ensures Finishes(tables, CursorOf(last), limit) && OlderThan(r, last) && (forall rows <- tables :: r in rows)
            ==> multiset(Joined(WalkOver(tables, CursorOf(last), limit)))[r] == 1
    decreases tables
  {
    if tables != [] {
      assert tables[0] in tables;
      assert forall rows <- tables[1..] :: rows in tables;
      hide ListMessages, Descending;
      var end := PageHolds(tables[0], last, limit, r);
      var page := ListMessages(tables[0], CursorOf(last), limit);
      if end.None? {
        JoinedOne(page.data);
        assert WalkOver(tables, CursorOf(last), limit) == [page.data];
      } else {
        OnceInWalk(tables[1..], end, limit, r);
        JoinedMore(page.data, WalkOver(tables[1..], CursorOf(end), limit));
      }
    }
  }

  /**
    While messages come and go between the requests, no message is returned twice, and one that is
    there throughout is returned exactly once.
   */
  lemma WalkUnderChange(tables: seq<seq<Row>>, limit: nat, r: Row)
    requires limit >= 1 && Listings(tables)
    ensures multiset(Joined(WalkOver(tables, None, limit)))[r] <= 1
    ensures Finishes(tables, None, limit) && (forall rows <- tables :: r in rows) ==>
              multiset(Joined(WalkOver(tables, None, limit)))[r] == 1
  {
    OnceInWalk(tables, None, limit, r);
  }
}
