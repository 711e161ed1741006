/**
 Keyset pagination of the call list: the cursor logic of `list_calls_for_user` in
 backend/app/services/call_service.py, with the default sort (newest first).

 The table changes between page requests: newer calls are inserted, rows stop or start matching
 (soft deletion, status changes, block-list edits), and rows are purged (backend/app/workers/hard_deletion_worker.py).
*/
module CallPaging {
  import opened Options
  import Products
  import Sets

  /** A call row. `matches` stands for the whole WHERE clause apart from the cursor: the owner, not deleted,
      no parent call, and the request's filters. */
  datatype Row = Row(id: nat, createdAt: int, matches: bool)

  /** A cursor that is not a UUID is ignored. */
  datatype Cursor = NoCursor | Malformed | At(id: nat)

  datatype Page = Page(rows: seq<Row>, nextCursor: Option<nat>, hasMore: bool)

  /** The cursor condition `created_at < (SELECT created_at WHERE id = cursor)`. Comparing with
      the NULL of a missing row holds for no row. */
  datatype Bound = Unbounded | Below(createdAt: int) | Nothing

  function CreatedAt(table: seq<Row>, id: nat): Option<int> {
    if table == [] then None
    else if table[0].id == id then Some(table[0].createdAt)
    else CreatedAt(table[1..], id)
  }

  function BoundOf(table: seq<Row>, cursor: Cursor): Bound {
    match cursor
    case NoCursor => Unbounded
    case Malformed => Unbounded
    case At(id) => match CreatedAt(table, id) case None => Nothing case Some(ts) => Below(ts)
  }

  predicate Passes(r: Row, bound: Bound) {
    && r.matches
    && match bound case Unbounded => true case Below(ts) => r.createdAt < ts case Nothing => false
  }

  function Selected(table: seq<Row>, bound: Bound): (s: seq<Row>)
    ensures forall r :: r in s <==> r in table && Passes(r, bound)
  {
    if table == [] then []
    else if Passes(table[0], bound) then [table[0]] + Selected(table[1..], bound)
    else Selected(table[1..], bound)
  }

  ghost predicate NewestFirst(s: seq<Row>) {
    forall i, j :: 0 <= i < j < |s| ==> s[i].createdAt >= s[j].createdAt
  }

  function InsertNewestFirst(r: Row, s: seq<Row>): (t: seq<Row>)
    requires NewestFirst(s)
    ensures NewestFirst(t) && |t| == |s| + 1
    ensures forall x :: x in t <==> x == r || x in s
  {
    if s == [] || s[0].createdAt <= r.createdAt then [r] + s
    else
      var rest := InsertNewestFirst(r, s[1..]);
      assert s == [s[0]] + s[1..];
      assert forall x :: x in rest ==> x.createdAt <= s[0].createdAt;
      [s[0]] + rest
  }

  /** ORDER BY created_at DESC */
  function Ordered(s: seq<Row>): (t: seq<Row>)
    ensures NewestFirst(t) && |t| == |s|
    ensures forall x :: x in t <==> x in s
  {
    if s == [] then []
    else
      assert s == [s[0]] + s[1..];
      InsertNewestFirst(s[0], Ordered(s[1..]))
  }

  function Limited(s: seq<Row>, n: nat): seq<Row> {
    if n < |s| then s[..n] else s
  }

  /** What the caller gets from the limit + 1 rows fetched. */
  function PageOf(fetched: seq<Row>, limit: nat): Page {
    var hasMore := |fetched| > limit;
    var kept := if hasMore then fetched[..limit] else fetched;
    Page(kept, if kept != [] && hasMore then Some(kept[|kept| - 1].id) else None, hasMore)
  }

  function ListCalls(table: seq<Row>, cursor: Cursor, limit: nat): Page {
    PageOf(Limited(Ordered(Selected(table, BoundOf(table, cursor))), limit + 1), limit)
  }

  /** The query is built step by step, run, and cut to the page. */
  method ListCallsForUser(table: seq<Row>, cursor: Cursor, limit: nat)
    returns (rows: seq<Row>, nextCursor: Option<nat>, hasMore: bool)
    ensures Page(rows, nextCursor, hasMore) == ListCalls(table, cursor, limit)
  {
    var bound := Unbounded;
    if cursor.At? {
      var ref := CreatedAt(table, cursor.id);
      bound := if ref.Some? then Below(ref.value) else Nothing;
    }
    assert bound == BoundOf(table, cursor);
    var fetched := Limited(Ordered(Selected(table, bound)), limit + 1);
    rows, hasMore, nextCursor := fetched, |fetched| > limit, None;
    if hasMore {
      rows := rows[..limit];
    }
    if rows != [] && hasMore {
      nextCursor := Some(rows[|rows| - 1].id);
    }
    assert Page(rows, nextCursor, hasMore) == PageOf(fetched, limit);
  }

  // ---------------------------------------------------------------------------------------------
  // Tables and how they change
  // ---------------------------------------------------------------------------------------------

  /** The primary key. Calls may share a `created_at`. */
  ghost predicate UniqueIds(rows: seq<Row>) {
    forall i, j :: 0 <= i < j < |rows| ==> rows[i].id != rows[j].id
  }

  ghost predicate Holds(table: seq<Row>, id: nat, createdAt: int) {
    exists r :: r in table && r.id == id && r.createdAt == createdAt
  }

  ghost predicate HasId(table: seq<Row>, id: nat) {
    exists r :: r in table && r.id == id
  }

  /** A call's `created_at` never changes; the call itself may come and go. */
  ghost predicate SameTimes(before: seq<Row>, after: seq<Row>) {
    forall r, s :: r in before && s in after && r.id == s.id ==> r.createdAt == s.createdAt
  }

  /** A call that an earlier table did not have was created after everything in it. */
  ghost predicate OnlyNewer(before: seq<Row>, after: seq<Row>) {
    forall s :: s in after && !Holds(before, s.id, s.createdAt) ==> forall r :: r in before ==> r.createdAt < s.createdAt
  }

  lemma {:induction false} CreatedAtFinds(table: seq<Row>, r: Row)
    requires UniqueIds(table) && r in table
    ensures CreatedAt(table, r.id) == Some(r.createdAt)
    decreases |table|
  {
    if table[0] != r {
      var i :| 0 <= i < |table| && table[i] == r;
      assert table[1..][i - 1] == r;
      CreatedAtFinds(table[1..], r);
    }
  }

  lemma {:induction false} CreatedAtMisses(table: seq<Row>, id: nat)
    requires forall r :: r in table ==> r.id != id
    ensures CreatedAt(table, id) == None
    decreases |table|
  {
    if table != [] {
      assert table[0] in table;
      assert forall r :: r in table[1..] ==> r in table;
      CreatedAtMisses(table[1..], id);
    }
  }

  // ---------------------------------------------------------------------------------------------
  // One page
  // ---------------------------------------------------------------------------------------------

  lemma UniqueIdsTail(rows: seq<Row>)
    requires UniqueIds(rows) && rows != []
    ensures UniqueIds(rows[1..]) && forall r :: r in rows[1..] ==> r.id != rows[0].id
  {
    forall r | r in rows[1..]
      ensures r.id != rows[0].id
    {
      var j :| 0 <= j < |rows[1..]| && rows[1..][j] == r;
      assert rows[j + 1] == r;
    }
  }

  lemma {:induction false} SelectedKeepsIds(table: seq<Row>, bound: Bound)
    requires UniqueIds(table)
    ensures UniqueIds(Selected(table, bound))
    decreases |table|
  {
    if table != [] {
      UniqueIdsTail(table);
      SelectedKeepsIds(table[1..], bound);
      var rest := Selected(table[1..], bound);
      assert forall i :: 0 <= i < |rest| ==> rest[i] in table[1..];
    }
  }

  lemma {:induction false} OrderedKeepsIds(s: seq<Row>)
    requires UniqueIds(s)
    ensures UniqueIds(Ordered(s))
    decreases |s|
  {
    if s != [] {
      UniqueIdsTail(s);
      OrderedKeepsIds(s[1..]);
      InsertKeepsIds(s[0], Ordered(s[1..]));
    }
  }

  lemma {:induction false} InsertKeepsIds(r: Row, s: seq<Row>)
    requires NewestFirst(s) && UniqueIds(s) && forall q :: q in s ==> q.id != r.id
    ensures UniqueIds(InsertNewestFirst(r, s))
    decreases |s|
  {
    if s != [] && r.createdAt < s[0].createdAt {
      UniqueIdsTail(s);
      InsertKeepsIds(r, s[1..]);
      var rest := InsertNewestFirst(r, s[1..]);
      assert forall i :: 0 <= i < |rest| ==> rest[i] in rest;
      assert s[0] in s;
    }
  }

  /** The first n rows of a list in order are its newest. */
  lemma TakeNewest(all: seq<Row>, n: nat)
    requires NewestFirst(all) && UniqueIds(all)
    ensures
      var kept := Limited(all, n);
      && NewestFirst(kept) && UniqueIds(kept)
      && (forall r :: r in kept ==> r in all)
      && (forall r, p :: r in all && r !in kept && p in kept ==> r.createdAt <= p.createdAt)
      && (n < |all| <==> exists r :: r in all && r !in kept)
  {
    var kept := Limited(all, n);
    assert forall j :: 0 <= j < |kept| ==> kept[j] == all[j];
    if n < |all| {
      assert all[n] in all && all[n] !in kept;
    }
    forall r, p | r in all && r !in kept && p in kept
      ensures r.createdAt <= p.createdAt
    {
      var i :| 0 <= i < |all| && all[i] == r;
      var j :| 0 <= j < |kept| && kept[j] == p;
      assert |kept| <= i;
    }
  }

  lemma PageTakesLimit(table: seq<Row>, cursor: Cursor, limit: nat)
    ensures
      var page, all := ListCalls(table, cursor, limit), Ordered(Selected(table, BoundOf(table, cursor)));
      && page.rows == Limited(all, limit)
      && (page.hasMore <==> limit < |all|)
      && (page.nextCursor.Some? ==> page.rows != [] && page.nextCursor.value == page.rows[|page.rows| - 1].id)
      && (page.nextCursor.Some? <==> page.hasMore && 0 < limit)
  {
  }

  /** A page holds matching rows inside the bound, newest first; every matching row it leaves out is
      no newer than any it holds, and there is one exactly when `hasMore`. */
  lemma PageIsNewest(table: seq<Row>, cursor: Cursor, limit: nat)
    requires UniqueIds(table)
    ensures
      var page, bound := ListCalls(table, cursor, limit), BoundOf(table, cursor);
      && NewestFirst(page.rows) && UniqueIds(page.rows)
      && (forall r :: r in page.rows ==> r in table && Passes(r, bound))
      && (forall r, p :: r in table && Passes(r, bound) && r !in page.rows && p in page.rows ==> r.createdAt <= p.createdAt)
      && (page.hasMore <==> exists r :: r in table && Passes(r, bound) && r !in page.rows)
      && (if page.hasMore then |page.rows| == limit else |page.rows| <= limit)
  {
    var bound := BoundOf(table, cursor);
    SelectedKeepsIds(table, bound);
    OrderedKeepsIds(Selected(table, bound));
    PageTakesLimit(table, cursor, limit);
    TakeNewest(Ordered(Selected(table, bound)), limit);
  }

  /** Without a usable cursor, none or a malformed one, the page holds the newest of all matching rows. */
  lemma UnusableCursorStartsOver(table: seq<Row>, cursor: Cursor, limit: nat, r: Row)
    requires UniqueIds(table) && !cursor.At? && r in table && r.matches
    ensures
      var page := ListCalls(table, cursor, limit);
      r in page.rows || (page.hasMore && forall p :: p in page.rows ==> r.createdAt <= p.createdAt)
  {
    PageIsNewest(table, cursor, limit);
  }

  // ---------------------------------------------------------------------------------------------
  // A walk over the pages
  // ---------------------------------------------------------------------------------------------

  /** Page i is read from tables[i], following `next_cursor`; only the last page may lack a successor. */
  ghost predicate Walk(tables: seq<seq<Row>>, pages: seq<Page>, cursor: Cursor, limit: nat)
    decreases |pages|
  {
    && |tables| == |pages|
    && (pages != [] ==>
          && pages[0] == ListCalls(tables[0], cursor, limit)
          && (1 < |pages| ==>
                pages[0].nextCursor.Some? && Walk(tables[1..], pages[1..], At(pages[0].nextCursor.value), limit)))
  }

  ghost predicate Finished(pages: seq<Page>) {
    pages != [] && !pages[|pages| - 1].hasMore
  }

  ghost predicate History(tables: seq<seq<Row>>) {
    && (forall i :: 0 <= i < |tables| ==> UniqueIds(tables[i]))
    && (forall i, j {:trigger SameTimes(tables[i], tables[j])} ::
          0 <= i < j < |tables| ==> SameTimes(tables[i], tables[j]))
  }

  function AllRows(pages: seq<Page>): seq<Row> {
    if pages == [] then [] else pages[0].rows + AllRows(pages[1..])
  }

  /** The row with this id and time exists and matches in every table of the walk. */
  ghost predicate PresentThroughout(tables: seq<seq<Row>>, id: nat, createdAt: int) {
    forall i :: 0 <= i < |tables| ==> Row(id, createdAt, true) in tables[i]
  }

  predicate Inside(createdAt: int, bound: Bound) {
    match bound case Unbounded => true case Below(ts) => createdAt < ts case Nothing => false
  }

  lemma NextCursorIsLastRow(table: seq<Row>, cursor: Cursor, limit: nat)
    requires UniqueIds(table)
    requires ListCalls(table, cursor, limit).nextCursor.Some?
    ensures
      var page := ListCalls(table, cursor, limit);
      && page.rows != []
      && page.nextCursor.value == page.rows[|page.rows| - 1].id
      && page.rows[|page.rows| - 1] in table
  {
    PageTakesLimit(table, cursor, limit);
    PageRowsAreTableRows(table, cursor, limit);
    var rows := ListCalls(table, cursor, limit).rows;
    assert rows[|rows| - 1] in rows;
  }

  lemma {:induction false} NoneSelected(table: seq<Row>, bound: Bound)
    requires forall r :: r in table ==> !Passes(r, bound)
    ensures Selected(table, bound) == []
    decreases |table|
  {
    if table != [] {
      assert table[0] in table;
      NoneSelected(table[1..], bound);
    }
  }

  /** A cursor whose row is purged, not just soft-deleted, gives an empty last page. */
  lemma PurgedCursorEndsWalk(table: seq<Row>, id: nat, limit: nat)
    requires !HasId(table, id)
    ensures ListCalls(table, At(id), limit) == Page([], None, false)
  {
    CreatedAtMisses(table, id);
    NoneSelected(table, Nothing);
  }

  /** On the next, changed table a returned row gives the bound its time gave before, or none if it was purged. */
  lemma NextBound(before: seq<Row>, after: seq<Row>, last: Row)
    requires UniqueIds(after) && SameTimes(before, after) && last in before
    ensures BoundOf(after, At(last.id)) == if HasId(after, last.id) then Below(last.createdAt) else Nothing
  {
    if HasId(after, last.id) {
      var s :| s in after && s.id == last.id;
      CreatedAtFinds(after, s);
    } else {
      CreatedAtMisses(after, last.id);
    }
  }

  lemma HistoryTail(tables: seq<seq<Row>>)
    requires History(tables) && tables != []
    ensures History(tables[1..])
  {
    assert forall i :: 0 <= i < |tables[1..]| ==> tables[1..][i] == tables[i + 1];
  }

  lemma PageDescends(table: seq<Row>, cursor: Cursor, limit: nat)
    requires UniqueIds(table)
    ensures
      var rows := ListCalls(table, cursor, limit).rows;
      NewestFirst(rows) && AllInside(rows, BoundOf(table, cursor))
  {
    PageIsNewest(table, cursor, limit);
  }

  function Last(rows: seq<Row>): Row
    requires rows != []
  {
    rows[|rows| - 1]
  }

  ghost predicate AllInside(rows: seq<Row>, bound: Bound) {
    forall r :: r in rows ==> r.matches && Inside(r.createdAt, bound)
  }

  lemma PagesDescend(head: seq<Row>, tail: seq<Row>, bound: Bound)
    requires NewestFirst(head) && AllInside(head, bound) && head != []
    requires NewestFirst(tail) && AllInside(tail, Below(Last(head).createdAt))
    ensures NewestFirst(head + tail) && AllInside(head + tail, bound)
  {
    assert Last(head) in head;
    var all := head + tail;
    forall i, j | 0 <= i < j < |all|
      ensures all[i].createdAt >= all[j].createdAt
    {
      if i < |head| <= j {
        assert all[j] in tail;
      }
    }
  }

  /** What is returned comes newest first, inside the bound. */
  lemma {:induction false} WalkDescends(tables: seq<seq<Row>>, pages: seq<Page>, cursor: Cursor, limit: nat)
    requires Walk(tables, pages, cursor, limit) && History(tables) && pages != []
    ensures NewestFirst(AllRows(pages))
    ensures AllInside(AllRows(pages), BoundOf(tables[0], cursor))
    decreases |pages|
  {
    PageDescends(tables[0], cursor, limit);
    if 1 < |pages| {
      HistoryTail(tables);
      NextCursorIsLastRow(tables[0], cursor, limit);
      NextBound(tables[0], tables[1], Last(pages[0].rows));
      WalkDescends(tables[1..], pages[1..], At(pages[0].nextCursor.value), limit);
      PagesDescend(pages[0].rows, AllRows(pages[1..]), BoundOf(tables[0], cursor));
    } else {
      assert AllRows(pages[1..]) == [];
      assert AllRows(pages) == pages[0].rows;
    }
  }

  /** A matching row inside the bound that a page leaves out is no newer than the row of the next cursor. */
  lemma LeftOutRowComesNext(table: seq<Row>, cursor: Cursor, limit: nat, r: Row)
    requires 0 < limit && UniqueIds(table)
    requires r in table && Passes(r, BoundOf(table, cursor)) && r !in ListCalls(table, cursor, limit).rows
    ensures
      var page := ListCalls(table, cursor, limit);
      && page.hasMore && page.nextCursor.Some? && page.rows != []
      && r.createdAt <= Last(page.rows).createdAt
  {
    PageIsNewest(table, cursor, limit);
    PageTakesLimit(table, cursor, limit);
    assert Last(ListCalls(table, cursor, limit).rows) in ListCalls(table, cursor, limit).rows;
  }

  lemma PresentInTail(tables: seq<seq<Row>>, id: nat, createdAt: int)
    requires tables != [] && PresentThroughout(tables, id, createdAt)
    ensures PresentThroughout(tables[1..], id, createdAt)
  {
    assert forall i :: 0 <= i < |tables[1..]| ==> tables[1..][i] == tables[i + 1];
  }

  lemma FinishedTail(pages: seq<Page>)
    requires Finished(pages) && 1 < |pages|
    ensures Finished(pages[1..])
  {
  }

  /** A cursor was followed while a call of this time was still to come. */
  ghost predicate FollowedBefore(page: Page, createdAt: int) {
    page.nextCursor.Some? && page.rows != [] && createdAt < Last(page.rows).createdAt
  }

  /** Every cursor followed while a call of this time was still to come is in the table it was used on. */
  ghost predicate CursorsKept(tables: seq<seq<Row>>, pages: seq<Page>, createdAt: int)
    requires |tables| == |pages|
  {
    forall i :: 0 <= i < |pages| - 1 && FollowedBefore(pages[i], createdAt) ==>
      HasId(tables[i + 1], pages[i].nextCursor.value)
  }

  lemma CursorsKeptSplits(tables: seq<seq<Row>>, pages: seq<Page>, createdAt: int)
    requires |tables| == |pages| && 1 < |pages| && FollowedBefore(pages[0], createdAt)
    ensures CursorsKept(tables, pages, createdAt) <==>
      HasId(tables[1], pages[0].nextCursor.value) && CursorsKept(tables[1..], pages[1..], createdAt)
  {
    var ts, ps := tables[1..], pages[1..];
    assert forall i :: 0 <= i < |ps| ==> ps[i] == pages[i + 1] && ts[i] == tables[i + 1];
    if HasId(tables[1], pages[0].nextCursor.value) && CursorsKept(ts, ps, createdAt) {
      forall i | 0 <= i < |pages| - 1 && FollowedBefore(pages[i], createdAt)
        ensures HasId(tables[i + 1], pages[i].nextCursor.value)
      {
        if i != 0 {
          assert FollowedBefore(ps[i - 1], createdAt);
        }
      }
    }
    if CursorsKept(tables, pages, createdAt) {
      forall i | 0 <= i < |ps| - 1 && FollowedBefore(ps[i], createdAt)
        ensures HasId(ts[i + 1], ps[i].nextCursor.value)
      {
        assert FollowedBefore(pages[i + 1], createdAt);
      }
    }
  }

  lemma {:induction false} PageRowsAreReturned(pages: seq<Page>, i: nat, r: Row)
    requires i < |pages| && r in pages[i].rows
    ensures r in AllRows(pages)
    decreases |pages|
  {
    if i != 0 {
      PageRowsAreReturned(pages[1..], i - 1, r);
    }
  }

  lemma LaterPagesAreOlder(tables: seq<seq<Row>>, pages: seq<Page>, cursor: Cursor, limit: nat)
    requires Walk(tables, pages, cursor, limit) && History(tables) && 1 < |pages|
    ensures pages[0].rows != [] && AllInside(AllRows(pages[1..]), Below(Last(pages[0].rows).createdAt))
  {
    HistoryTail(tables);
    NextCursorIsLastRow(tables[0], cursor, limit);
    NextBound(tables[0], tables[1], Last(pages[0].rows));
    WalkDescends(tables[1..], pages[1..], At(pages[0].nextCursor.value), limit);
  }

  lemma OlderCursor(tables: seq<seq<Row>>, pages: seq<Page>, cursor: Cursor, limit: nat, i: nat)
    requires Walk(tables, pages, cursor, limit) && History(tables)
    requires 0 < i < |pages| && pages[i].rows != []
    ensures pages[0].rows != [] && Last(pages[i].rows).createdAt < Last(pages[0].rows).createdAt
  {
    LaterPagesAreOlder(tables, pages, cursor, limit);
    assert pages[1..][i - 1] == pages[i] && Last(pages[i].rows) in pages[i].rows;
    PageRowsAreReturned(pages[1..], i - 1, Last(pages[i].rows));
  }

  /** The page ends among calls of this call's time and has no room for it. */
  ghost predicate CutAtTie(page: Page, r: Row) {
    page.nextCursor.Some? && page.rows != [] && Last(page.rows).createdAt == r.createdAt && r !in page.rows
  }

  ghost predicate NoTieCut(pages: seq<Page>, r: Row) {
    forall i :: 0 <= i < |pages| ==> !CutAtTie(pages[i], r)
  }

  lemma NoTieCutSplits(pages: seq<Page>, r: Row)
    requires pages != [] && !CutAtTie(pages[0], r)
    ensures NoTieCut(pages, r) <==> NoTieCut(pages[1..], r)
  {
    assert forall i :: 0 <= i < |pages[1..]| ==> pages[1..][i] == pages[i + 1];
    if NoTieCut(pages[1..], r) {
      forall i | 0 <= i < |pages|
        ensures !CutAtTie(pages[i], r)
      {
        if i != 0 {
          assert !CutAtTie(pages[1..][i - 1], r);
        }
      }
    }
  }

  /** Once a call was returned no later cursor and no later tie matters for it. */
  lemma ReturnedNeedsNoCursor(tables: seq<seq<Row>>, pages: seq<Page>, cursor: Cursor, limit: nat, r: Row)
    requires Walk(tables, pages, cursor, limit) && History(tables) && pages != []
    requires r in pages[0].rows
    ensures CursorsKept(tables, pages, r.createdAt) && NoTieCut(pages, r)
  {
    PageDescends(tables[0], cursor, limit);
    assert Last(pages[0].rows).createdAt <= r.createdAt;
    forall i | 0 <= i < |pages| && pages[i].rows != []
      ensures !FollowedBefore(pages[i], r.createdAt) && !CutAtTie(pages[i], r)
    {
      if i != 0 {
        OlderCursor(tables, pages, cursor, limit, i);
      }
    }
  }

  /** The walk ends empty-handed after a purged cursor. */
  lemma NothingAfterPurge(tables: seq<seq<Row>>, pages: seq<Page>, cursor: Cursor, limit: nat)
    requires Walk(tables, pages, cursor, limit) && 1 < |pages|
    requires !HasId(tables[1], pages[0].nextCursor.value)
    ensures AllRows(pages) == pages[0].rows
  {
    PurgedCursorEndsWalk(tables[1], pages[0].nextCursor.value, limit);
    var rest := pages[1..];
    assert rest[0] == Page([], None, false);
    assert rest[1..] == [];
    assert AllRows(rest) == [] + [];
  }

  /** The rest of the walk starts from a bound the call lies inside. */
  lemma KeptCursorLeadsOn(
    tables: seq<seq<Row>>, pages: seq<Page>, cursor: Cursor, limit: nat, id: nat, createdAt: int)
    requires Walk(tables, pages, cursor, limit) && History(tables) && Finished(pages)
    requires PresentThroughout(tables, id, createdAt) && 1 < |pages| && FollowedBefore(pages[0], createdAt)
    requires HasId(tables[1], pages[0].nextCursor.value)
    ensures History(tables[1..]) && Finished(pages[1..]) && PresentThroughout(tables[1..], id, createdAt)
    ensures Inside(createdAt, BoundOf(tables[1], At(pages[0].nextCursor.value)))
  {
    HistoryTail(tables);
    NextCursorIsLastRow(tables[0], cursor, limit);
    NextBound(tables[0], tables[1], Last(pages[0].rows));
    PresentInTail(tables, id, createdAt);
    FinishedTail(pages);
  }

  lemma TieCutLoses(tables: seq<seq<Row>>, pages: seq<Page>, cursor: Cursor, limit: nat, r: Row)
    requires Walk(tables, pages, cursor, limit) && History(tables) && 1 < |pages|
    requires CutAtTie(pages[0], r)
    ensures r !in AllRows(pages) && !NoTieCut(pages, r)
  {
    LaterPagesAreOlder(tables, pages, cursor, limit);
  }

  /** A finished walk returns a call that matched throughout and lies inside the bound if and only if every cursor followed
      before the call's turn is still in the table it was used on, and no page ended in the middle of its ties without it. */
  lemma {:induction false} WalkReturnsIff(
    tables: seq<seq<Row>>, pages: seq<Page>, cursor: Cursor, limit: nat, id: nat, createdAt: int)
    requires 0 < limit
    requires Walk(tables, pages, cursor, limit) && History(tables) && Finished(pages)
    requires PresentThroughout(tables, id, createdAt) && Inside(createdAt, BoundOf(tables[0], cursor))
    ensures
      var r := Row(id, createdAt, true);
      r in AllRows(pages) <==> CursorsKept(tables, pages, createdAt) && NoTieCut(pages, r)
    decreases |pages|
  {
    var r := Row(id, createdAt, true);
    assert r in tables[0];
    if r in pages[0].rows {
      ReturnedNeedsNoCursor(tables, pages, cursor, limit, r);
    } else {
      LeftOutRowComesNext(tables[0], cursor, limit, r);
      assert 1 < |pages|;
      if createdAt == Last(pages[0].rows).createdAt {
        TieCutLoses(tables, pages, cursor, limit, r);
      } else {
        CursorsKeptSplits(tables, pages, createdAt);
        NoTieCutSplits(pages, r);
        if HasId(tables[1], pages[0].nextCursor.value) {
          KeptCursorLeadsOn(tables, pages, cursor, limit, id, createdAt);
          WalkReturnsIff(tables[1..], pages[1..], At(pages[0].nextCursor.value), limit, id, createdAt);
        } else {
          NothingAfterPurge(tables, pages, cursor, limit);
        }
      }
    }
  }

  function Count(rows: seq<Row>, id: nat): nat {
    if rows == [] then 0 else (if rows[0].id == id then 1 else 0) + Count(rows[1..], id)
  }

  ghost predicate InSomeTable(tables: seq<seq<Row>>, r: Row) {
    exists i :: 0 <= i < |tables| && r in tables[i]
  }

  lemma PageRowsAreTableRows(table: seq<Row>, cursor: Cursor, limit: nat)
    ensures forall r :: r in ListCalls(table, cursor, limit).rows ==> r in table
  {
    PageTakesLimit(table, cursor, limit);
  }

  lemma {:induction false} WalkRowsAreTableRows(tables: seq<seq<Row>>, pages: seq<Page>, cursor: Cursor, limit: nat)
    requires Walk(tables, pages, cursor, limit)
    ensures forall r :: r in AllRows(pages) ==> InSomeTable(tables, r)
    decreases |pages|
  {
    if pages != [] {
      PageRowsAreTableRows(tables[0], cursor, limit);
      if 1 < |pages| {
        WalkRowsAreTableRows(tables[1..], pages[1..], At(pages[0].nextCursor.value), limit);
      } else {
        assert AllRows(pages[1..]) == [];
      }
      forall r | r in AllRows(pages)
        ensures InSomeTable(tables, r)
      {
        if r !in pages[0].rows {
          assert InSomeTable(tables[1..], r);
          var i :| 0 <= i < |tables[1..]| && r in tables[1..][i];
          assert r in tables[i + 1];
        } else {
          assert r in tables[0];
        }
      }
    }
  }

  lemma OneRowPerCall(table: seq<Row>, r: Row, s: Row)
    requires UniqueIds(table) && r in table && s in table && r != s
    ensures r.id != s.id
  {
    var a :| 0 <= a < |table| && table[a] == r;
    var b :| 0 <= b < |table| && table[b] == s;
    assert a != b;
  }

  lemma {:induction false} CountOnce(rows: seq<Row>, k: nat)
    requires k < |rows|
    requires forall l :: 0 <= l < |rows| && l != k ==> rows[l].id != rows[k].id
    ensures Count(rows, rows[k].id) == 1
    decreases |rows|
  {
    if k == 0 {
      CountNone(rows[1..], rows[0].id);
    } else {
      assert rows[0].id != rows[k].id;
      forall l | 0 <= l < |rows[1..]| && l != k - 1
        ensures rows[1..][l].id != rows[1..][k - 1].id
      {
        assert rows[1..][l] == rows[l + 1];
      }
      CountOnce(rows[1..], k - 1);
    }
  }

  lemma {:induction false} CountNone(rows: seq<Row>, id: nat)
    requires forall l :: 0 <= l < |rows| ==> rows[l].id != id
    ensures Count(rows, id) == 0
    decreases |rows|
  {
    if rows != [] {
      CountNone(rows[1..], id);
    }
  }

  lemma OtherRowsAreOtherCalls(tables: seq<seq<Row>>, rows: seq<Row>, r: Row)
    requires forall i :: 0 <= i < |tables| ==> UniqueIds(tables[i]) && r in tables[i]
    requires forall q :: q in rows ==> InSomeTable(tables, q)
    ensures forall q :: q in rows && q != r ==> q.id != r.id
  {
    forall q | q in rows && q != r
      ensures q.id != r.id
    {
      var i :| 0 <= i < |tables| && q in tables[i];
      OneRowPerCall(tables[i], q, r);
    }
  }

  lemma CountOfRow(rows: seq<Row>, r: Row)
    requires UniqueIds(rows) && forall q :: q in rows && q != r ==> q.id != r.id
    ensures Count(rows, r.id) == if r in rows then 1 else 0
  {
    if r in rows {
      var k :| 0 <= k < |rows| && rows[k] == r;
      CountOnce(rows, k);
    } else {
      CountNone(rows, r.id);
    }
  }

  lemma RestHasOtherIds(tables: seq<seq<Row>>, pages: seq<Page>, cursor: Cursor, limit: nat)
    requires Walk(tables, pages, cursor, limit) && History(tables) && 1 < |pages|
    ensures forall q, r :: q in pages[0].rows && r in AllRows(pages[1..]) ==> q.id != r.id
  {
    PageDescends(tables[0], cursor, limit);
    PageRowsAreTableRows(tables[0], cursor, limit);
    LaterPagesAreOlder(tables, pages, cursor, limit);
    WalkRowsAreTableRows(tables[1..], pages[1..], At(pages[0].nextCursor.value), limit);
    forall q, r | q in pages[0].rows && r in AllRows(pages[1..])
      ensures q.id != r.id
    {
      assert InSomeTable(tables[1..], r);
      var j :| 0 <= j < |tables[1..]| && r in tables[1..][j];
      assert Last(pages[0].rows).createdAt <= q.createdAt;
      assert SameTimes(tables[0], tables[j + 1]);
    }
  }

  /** Nothing is returned twice. */
  lemma {:induction false} WalkReturnsOnce(tables: seq<seq<Row>>, pages: seq<Page>, cursor: Cursor, limit: nat)
    requires Walk(tables, pages, cursor, limit) && History(tables) && pages != []
    ensures UniqueIds(AllRows(pages))
    decreases |pages|
  {
    PageIsNewest(tables[0], cursor, limit);
    if 1 < |pages| {
      var head, tail := pages[0].rows, AllRows(pages[1..]);
      HistoryTail(tables);
      WalkReturnsOnce(tables[1..], pages[1..], At(pages[0].nextCursor.value), limit);
      RestHasOtherIds(tables, pages, cursor, limit);
      UniqueIdsConcat(head, tail);
    } else {
      assert AllRows(pages[1..]) == [];
      assert AllRows(pages) == pages[0].rows;
    }
  }

  lemma UniqueIdsConcat(a: seq<Row>, b: seq<Row>)
    requires UniqueIds(a) && UniqueIds(b)
    requires forall q, r :: q in a && r in b ==> q.id != r.id
    ensures UniqueIds(a + b)
  {
    var s := a + b;
    forall i, j | 0 <= i < j < |s|
      ensures s[i].id != s[j].id
    {
      if i < |a| <= j {
        assert s[i] in a && s[j] in b;
      }
    }
  }

  /** Completeness: following `next_cursor` from the first page to the end never returns a call twice, and it returns a
      call that matched throughout exactly once if and only if no cursor followed before the call's turn was purged
      before it was used, and no page ended in the middle of the calls of its very time without it. Whatever else
      was inserted, deleted, purged or changed meanwhile makes no difference. */
  lemma EveryCallExactlyOnce(
    tables: seq<seq<Row>>, pages: seq<Page>, limit: nat, id: nat, createdAt: int)
    requires 0 < limit
    requires Walk(tables, pages, NoCursor, limit) && History(tables) && Finished(pages)
    requires PresentThroughout(tables, id, createdAt)
    ensures Count(AllRows(pages), id)
      == if CursorsKept(tables, pages, createdAt) && NoTieCut(pages, Row(id, createdAt, true)) then 1 else 0
  {
    var rows, r := AllRows(pages), Row(id, createdAt, true);
    WalkReturnsIff(tables, pages, NoCursor, limit, id, createdAt);
    WalkDescends(tables, pages, NoCursor, limit);
    WalkReturnsOnce(tables, pages, NoCursor, limit);
    WalkRowsAreTableRows(tables, pages, NoCursor, limit);
    OtherRowsAreOtherCalls(tables, rows, r);
    CountOfRow(rows, r);
  }

  /** So a purged cursor costs the walk every older call, even one that matched throughout. */
  lemma PurgedCursorLosesOlderCalls(
    tables: seq<seq<Row>>, pages: seq<Page>, limit: nat, i: nat, id: nat, createdAt: int)
    requires 0 < limit
    requires Walk(tables, pages, NoCursor, limit) && History(tables) && Finished(pages)
    requires PresentThroughout(tables, id, createdAt)
    requires i < |pages| - 1 && FollowedBefore(pages[i], createdAt)
    requires !HasId(tables[i + 1], pages[i].nextCursor.value)
    ensures Count(AllRows(pages), id) == 0
  {
    EveryCallExactlyOnce(tables, pages, limit, id, createdAt);
  }

  /** The first of two calls that the order puts first is a page of one. */
  lemma FirstOfTwo(a: Row, b: Row)
    requires a.matches && b.matches && b.createdAt <= a.createdAt
    ensures ListCalls([a, b], NoCursor, 1) == Page([a], Some(a.id), true)
  {
    assert [a, b][1..] == [b] && [b][1..] == [];
    assert Selected([b], Unbounded) == [b];
    assert Ordered([b]) == [b];
  }

  /** The least walk with a purge: two calls, pages of one, and the first call purged after its page was read. */
  lemma PurgeLosesCall() returns (tables: seq<seq<Row>>, pages: seq<Page>)
    ensures Walk(tables, pages, NoCursor, 1) && History(tables) && Finished(pages)
    ensures PresentThroughout(tables, 1, 10) && Count(AllRows(pages), 1) == 0
  {
    var older, newer, last := Row(1, 10, true), Row(2, 20, true), Page([], None, false);
    FirstOfTwo(newer, older);
    PurgedCursorEndsWalk([older], 2, 1);
    tables, pages := [[newer, older], [older]], [Page([newer], Some(2), true), last];
    assert tables[1..] == [[older]] && pages[1..] == [last];
    PurgedCursorLosesOlderCalls(tables, pages, 1, 0, 1, 10);
  }

  lemma NothingBelow(table: seq<Row>, cursor: Cursor, limit: nat, ts: int)
    requires BoundOf(table, cursor) == Below(ts) && forall r :: r in table ==> ts <= r.createdAt
    ensures ListCalls(table, cursor, limit) == Page([], None, false)
  {
    NoneSelected(table, Below(ts));
  }

  lemma UnchangedTable(table: seq<Row>)
    requires UniqueIds(table)
    ensures History([table, table])
  {
    forall r, s | r in table && s in table && r.id == s.id
      ensures r.createdAt == s.createdAt
    {
      if r != s {
        OneRowPerCall(table, r, s);
      }
    }
    assert SameTimes(table, table);
  }

  /** The least walk with a tie: two calls of the same time, pages of one, and nothing changes in between. */
  lemma TieLosesCall() returns (tables: seq<seq<Row>>, pages: seq<Page>)
    ensures Walk(tables, pages, NoCursor, 1) && History(tables) && Finished(pages)
    ensures PresentThroughout(tables, 1, 10) && |tables| == 2 && tables[0] == tables[1]
    ensures Count(AllRows(pages), 1) == 0
  {
    var lost, kept, last := Row(1, 10, true), Row(2, 10, true), Page([], None, false);
    FirstOfTwo(kept, lost);
    var table := [kept, lost];
    assert BoundOf(table, At(2)) == Below(10);
    NothingBelow(table, At(2), 1, 10);
    UnchangedTable(table);
    tables, pages := [table, table], [Page([kept], Some(2), true), last];
    assert tables[1..] == [table] && pages[1..] == [last];
    assert CutAtTie(pages[0], lost);
    EveryCallExactlyOnce(tables, pages, 1, 1, 10);
  }

  // ---------------------------------------------------------------------------------------------
  // The walk terminates
  // ---------------------------------------------------------------------------------------------

  ghost predicate Growing(tables: seq<seq<Row>>) {
    forall i, j :: 0 <= i < j < |tables| ==> OnlyNewer(tables[i], tables[j])
  }

  /** A row that is not newer than some row of the first table was already in the first table. */
  lemma OldRowsAreOriginal(tables: seq<seq<Row>>, i: nat, s: Row, p: Row)
    requires Growing(tables) && i < |tables|
    requires s in tables[i] && p in tables[0] && s.createdAt <= p.createdAt
    ensures Holds(tables[0], s.id, s.createdAt)
  {
    if 0 < i {
      assert OnlyNewer(tables[0], tables[i]);
    }
  }

  function Ids(rows: seq<Row>): set<nat> {
    set r | r in rows :: r.id
  }

  lemma {:induction false} SizeOfIds(rows: seq<Row>)
    ensures |Ids(rows)| <= |rows|
    ensures UniqueIds(rows) ==> |Ids(rows)| == |rows|
    decreases |rows|
  {
    if rows != [] {
      SizeOfIds(rows[1..]);
      assert forall r :: r in rows <==> r == rows[0] || r in rows[1..];
      assert Ids(rows) == Ids(rows[1..]) + {rows[0].id};
      if UniqueIds(rows) {
        UniqueIdsTail(rows);
      }
    }
  }

  lemma SinglePage(pages: seq<Page>)
    requires pages != []
    ensures |pages| == 1 ==> AllRows(pages) == pages[0].rows
    ensures |AllRows(pages)| == |pages[0].rows| + |AllRows(pages[1..])|
  {
  }

  lemma PageWithSuccessorIsFull(table: seq<Row>, cursor: Cursor, limit: nat)
    requires ListCalls(table, cursor, limit).nextCursor.Some?
    ensures |ListCalls(table, cursor, limit).rows| == limit
  {
    PageTakesLimit(table, cursor, limit);
  }

  lemma WalkReturnsOriginalRows(tables: seq<seq<Row>>, pages: seq<Page>, cursor: Cursor, limit: nat)
    requires Walk(tables, pages, cursor, limit) && History(tables) && Growing(tables) && pages != []
    ensures forall r :: r in AllRows(pages) ==> Holds(tables[0], r.id, r.createdAt)
  {
    WalkDescends(tables, pages, cursor, limit);
    WalkRowsAreTableRows(tables, pages, cursor, limit);
    PageRowsAreTableRows(tables[0], cursor, limit);
    var rows := AllRows(pages);
    forall r | r in rows
      ensures Holds(tables[0], r.id, r.createdAt)
    {
      if r !in pages[0].rows {
        SinglePage(pages);
        assert 1 < |pages|;
        var first := pages[0].rows[0];
        assert first in pages[0].rows && rows[0] == first;
        var k :| 0 <= k < |rows| && rows[k] == r;
        var i :| 0 <= i < |tables| && r in tables[i];
        OldRowsAreOriginal(tables, i, r, first);
      }
    }
  }

  lemma {:induction false} EarlierPagesAreFull(tables: seq<seq<Row>>, pages: seq<Page>, cursor: Cursor, limit: nat)
    requires Walk(tables, pages, cursor, limit) && pages != []
    ensures (|pages| - 1) * limit <= |AllRows(pages)|
    decreases |pages|
  {
    SinglePage(pages);
    if 1 < |pages| {
      PageWithSuccessorIsFull(tables[0], cursor, limit);
      EarlierPagesAreFull(tables[1..], pages[1..], At(pages[0].nextCursor.value), limit);
      Products.OneMore(|pages| - 2, limit);
    }
  }

  /** Inserts cannot keep a walk going: it returns only rows of the first table, each once, so
      it has at most one page more than those rows fill. */
  lemma WalkTerminates(tables: seq<seq<Row>>, pages: seq<Page>, limit: nat)
    requires Walk(tables, pages, NoCursor, limit) && History(tables) && Growing(tables) && pages != []
    ensures (|pages| - 1) * limit <= |AllRows(pages)| <= |tables[0]|
  {
    EarlierPagesAreFull(tables, pages, NoCursor, limit);
    WalkReturnsOnce(tables, pages, NoCursor, limit);
    WalkReturnsOriginalRows(tables, pages, NoCursor, limit);
    var rows := AllRows(pages);
    forall id | id in Ids(rows)
      ensures id in Ids(tables[0])
    {
      var r :| r in rows && r.id == id;
      var s :| s in tables[0] && s.id == r.id && s.createdAt == r.createdAt;
    }
    SizeOfIds(rows);
    SizeOfIds(tables[0]);
    Sets.SubsetSize(Ids(rows), Ids(tables[0]));
  }
}
