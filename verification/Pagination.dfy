/** Pages of a recipient's notifications, newest first, each next page found by the key of the last row shown. */
module Pagination {
  import opened Wrappers

  /** The sort key of a notification. Row ids are unique, so a table is a set of keys. */
  datatype Row = Row(createdAt: int, id: int)

  /** `a` is listed before `b`: newer, or as new with the greater id. */
  predicate Before(a: Row, b: Row) { a.createdAt > b.createdAt || (a.createdAt == b.createdAt && a.id > b.id) }

  predicate Descending(rows: seq<Row>) { forall i, j :: 0 <= i < j < |rows| ==> Before(rows[i], rows[j]) }

  predicate IsTop(table: set<Row>, top: Row) { top in table && forall r :: r in table && r != top ==> Before(top, r) }

  lemma {:induction false} HasTop(table: set<Row>)
    requires table != {}
    ensures exists top :: IsTop(table, top)
  {
    var r :| r in table;
    if table == {r} {
      assert IsTop(table, r);
    } else {
      var rest := table - {r};
      assert rest != {};
      HasTop(rest);
      var top :| IsTop(rest, top);
      assert forall o :: o in table && o != r ==> o in rest;
      if Before(top, r) { assert IsTop(table, top); } else { assert IsTop(table, r); }
    }
  }

  /** All rows of a table, in the order of the query. */
  ghost function Listing(table: set<Row>): (rows: seq<Row>)
    ensures Descending(rows) && |rows| == |table|
    ensures forall r :: r in rows <==> r in table
  {
    if table == {} then []
    else
      HasTop(table);
      var top :| IsTop(table, top);
      var rest := table - {top};
      [top] + Listing(rest)
  }

  /** The rows after a cursor: older, or as old with a smaller id. Without a cursor, all. */
  function After(table: set<Row>, cursor: Option<Row>): set<Row> {
    set r | r in table && (cursor.None? || Before(cursor.value, r))
  }

  datatype Page = Page(items: seq<Row>, next: Option<Row>)

  function Take(rows: seq<Row>, n: nat): seq<Row> { if n <= |rows| then rows[..n] else rows }

  /** One query for a row more than the page holds. */
  ghost function PageOf(table: set<Row>, cursor: Option<Row>, limit: nat): Page
    requires limit >= 1
  {
    var found := Take(Listing(After(table, cursor)), limit + 1);
    var items := Take(found, limit);
    Page(items, if |found| > limit then Some(items[|items| - 1]) else None)
  }

  /** The requested size, 20 if none is given; refused outside 1 to 50. */
  function Limit(requested: Option<int>): (limit: Option<nat>)
    ensures limit.Some? <==> requested.None? || 1 <= requested.value <= 50
    ensures limit.Some? ==>
              1 <= limit.value <= 50 && (requested.None? ==> limit.value == 20)
              && (requested.Some? ==> limit.value == requested.value)
  {
    var n := if requested.None? then 20 else requested.value;
    if n < 1 || n > 50 then None else Some(n)
  }

  // ---------------------------------------------------------------- the listing of what follows a row

  lemma {:induction false} SameRows(a: seq<Row>, b: seq<Row>)
    requires Descending(a) && Descending(b) && forall r :: r in a <==> r in b
    ensures a == b
  {
    assert a != [] ==> a[0] in b;
    assert b != [] ==> b[0] in a;
    if a != [] {
      TopFirst(a, b);
      forall r ensures r in a[1..] <==> r in b[1..] {
        RestWithoutTop(a, r);
        RestWithoutTop(b, r);
      }
      SameRows(a[1..], b[1..]);
    }
  }

  lemma {:induction false} TopFirst(a: seq<Row>, b: seq<Row>)
    requires Descending(a) && Descending(b) && a != [] && b != [] && a[0] in b && b[0] in a
    ensures a[0] == b[0]
  {
    var i :| 0 <= i < |b| && b[i] == a[0];
    var j :| 0 <= j < |a| && a[j] == b[0];
  }

  lemma {:induction false} RestWithoutTop(rows: seq<Row>, r: Row)
    requires Descending(rows) && rows != []
    ensures r in rows[1..] <==> r in rows && r != rows[0]
  {
    if r in rows && r != rows[0] {
      var i :| 0 <= i < |rows| && rows[i] == r;
      assert rows[1..][i - 1] == r;
    }
  }

  /** What follows the k-th row of a listing is the rest of the listing. */
  lemma {:induction false} RestOfListing(table: set<Row>, cursor: Option<Row>, k: nat)
    requires 1 <= k <= |After(table, cursor)|
    ensures var rows := Listing(After(table, cursor));
            Listing(After(table, Some(rows[k - 1]))) == rows[k..]
  {
    hide Listing;
    var rows := Listing(After(table, cursor));
    var rest := After(table, Some(rows[k - 1]));
    forall r ensures r in Listing(rest) <==> r in rows[k..] {
      if r in rest {
        assert rows[k - 1] in After(table, cursor);
        assert r in After(table, cursor);
        var i :| 0 <= i < |rows| && rows[i] == r;
        assert i >= k;
        assert rows[k..][i - k] == r;
      }
      if r in rows[k..] {
        var i :| 0 <= i < |rows[k..]| && rows[k..][i] == r;
        assert rows[k + i] == r;
        assert r in After(table, cursor);
      }
    }
    SameRows(Listing(rest), rows[k..]);
  }

  // ---------------------------------------------------------------- following the cursor

  /** What a reader has seen, and whether the last page said there is no more. */
  datatype Seen = Seen(rows: seq<Row>, finished: bool)

  /** Reading page after page, the table being `tables[i]` when the i-th page is read. */
  ghost function Follow(tables: seq<set<Row>>, cursor: Option<Row>, limit: nat): Seen
    requires limit >= 1
  {
    if tables == [] then Seen([], false)
    else
      var page := PageOf(tables[0], cursor, limit);
      if page.next.None? then Seen(page.items, true)
      else
        var rest := Follow(tables[1..], page.next, limit);
        Seen(page.items + rest.rows, rest.finished)
  }

  /** Notifications are only ever added. */
  predicate Growing(tables: seq<set<Row>>) { forall i, j :: 0 <= i <= j < |tables| ==> tables[i] <= tables[j] }

  lemma {:induction false} PageIsTheStart(table: set<Row>, cursor: Option<Row>, limit: nat)
    requires limit >= 1
    ensures var page, rows := PageOf(table, cursor, limit), Listing(After(table, cursor));
            page.items == Take(rows, limit) && page.items <= rows && Descending(page.items)
            && (page.next.None? <==> |rows| <= limit)
            && (page.next.None? ==> page.items == rows)
            && (page.next.Some? ==>
                 |page.items| == limit && page.next.value == rows[limit - 1] == page.items[limit - 1])
            && forall i :: 0 <= i < |page.items| ==> page.items[i] in After(table, cursor)
  {
    hide Listing;
    var rows := Listing(After(table, cursor));
    assert forall i :: 0 <= i < |rows| ==> rows[i] in After(table, cursor);
  }

  lemma {:induction false} DescendingJoin(a: seq<Row>, b: seq<Row>)
    requires Descending(a) && Descending(b) && a != []
    requires forall i :: 0 <= i < |b| ==> Before(a[|a| - 1], b[i])
    ensures Descending(a + b)
  {
    var all := a + b;
    forall i, j | 0 <= i < j < |all| ensures Before(all[i], all[j]) {
      if i < |a| <= j {
        assert i < |a| - 1 ==> Before(a[i], a[|a| - 1]);
      }
    }
  }

  /** Every row is shown in strictly descending order, hence once, and comes after the cursor the reading began with. */
  lemma {:induction false} ShownInOrder(tables: seq<set<Row>>, cursor: Option<Row>, limit: nat)
    requires limit >= 1
    ensures var rows := Follow(tables, cursor, limit).rows;
            Descending(rows) && (cursor.Some? ==> forall i :: 0 <= i < |rows| ==> Before(cursor.value, rows[i]))
  {
    hide PageOf, Descending;
    if tables != [] {
      var page := PageOf(tables[0], cursor, limit);
      PageIsTheStart(tables[0], cursor, limit);
      if page.next.Some? {
        var rest := Follow(tables[1..], page.next, limit).rows;
        ShownInOrder(tables[1..], page.next, limit);
        DescendingJoin(page.items, rest);
        var rows := page.items + rest;
        assert Follow(tables, cursor, limit).rows == rows;
        if cursor.Some? {
          assert page.next.value in After(tables[0], cursor);
          assert forall i :: 0 <= i < |rest| ==> Before(cursor.value, rest[i]);
        }
      }
    } else {
      NothingShown();
    }
  }

  lemma {:induction false} NothingShown()
    ensures Descending([])
  {
  }

  /** Only rows of the tables are shown. */
  lemma {:induction false} ShownAreRows(tables: seq<set<Row>>, cursor: Option<Row>, limit: nat, r: Row)
    requires limit >= 1 && r in Follow(tables, cursor, limit).rows
    ensures exists i :: 0 <= i < |tables| && r in tables[i]
  {
    hide PageOf;
    var page := PageOf(tables[0], cursor, limit);
    PageIsTheStart(tables[0], cursor, limit);
    if r in page.items {
      assert r in tables[0];
    } else {
      ShownAreRows(tables[1..], page.next, limit, r);
      var i :| 0 <= i < |tables[1..]| && r in tables[1..][i];
      assert r in tables[i + 1];
    }
  }

  /** A finished reader has seen every row after its cursor that was there when it began. */
  lemma {:induction false} NothingIsMissed(tables: seq<set<Row>>, cursor: Option<Row>, limit: nat, r: Row)
    requires limit >= 1 && Growing(tables) && tables != []
    ensures var seen := Follow(tables, cursor, limit); seen.finished && r in After(tables[0], cursor) ==> r in seen.rows
  {
    hide PageOf, Listing;
    var page, rows := PageOf(tables[0], cursor, limit), Listing(After(tables[0], cursor));
    PageIsTheStart(tables[0], cursor, limit);
    if Follow(tables, cursor, limit).finished && r in After(tables[0], cursor) && r !in page.items {
      var i :| 0 <= i < |rows| && rows[i] == r;
      assert forall j :: 0 <= j < |page.items| ==> page.items[j] == rows[j] && page.items[j] in page.items;
      assert i >= limit;
      assert Before(rows[limit - 1], r);
      var rest := tables[1..];
      assert Follow(rest, page.next, limit).finished && r in After(tables[0], page.next);
      assert rest != [] && tables[0] <= tables[1] && rest[0] == tables[1];
      assert Growing(rest) by {
        forall i, j | 0 <= i <= j < |rest| ensures rest[i] <= rest[j] { assert tables[i + 1] <= tables[j + 1]; }
      }
      NothingIsMissed(rest, page.next, limit, r);
    }
  }

  /** The main result for a table that grows while it is read: what is shown is in order without repetition, all of it
      was stored, and once the reader has finished nothing stored at the start is missing. */
  lemma {:induction false} EveryRowOnce(tables: seq<set<Row>>, limit: nat)
    requires limit >= 1 && Growing(tables) && tables != []
    ensures var seen := Follow(tables, None, limit);
            (forall i, j :: 0 <= i < j < |seen.rows| ==>
              seen.rows[i].createdAt > seen.rows[j].createdAt
              || (seen.rows[i].createdAt == seen.rows[j].createdAt && seen.rows[i].id > seen.rows[j].id))
            && (forall r :: r in seen.rows ==> r in tables[|tables| - 1])
            && (seen.finished ==> forall r :: r in tables[0] ==> r in seen.rows)
  {
    hide Follow, Listing;
    var rows := Follow(tables, None, limit).rows;
    ShownInOrder(tables, None, limit);
    forall r | r in rows ensures r in tables[|tables| - 1] {
      ShownAreRows(tables, None, limit, r);
      var i :| 0 <= i < |tables| && r in tables[i];
      assert tables[i] <= tables[|tables| - 1];
    }
    if Follow(tables, None, limit).finished {
      forall r | r in tables[0] ensures r in rows {
        assert r in After(tables[0], None);
        NothingIsMissed(tables, None, limit, r);
      }
    }
  }

  // ---------------------------------------------------------------- how many pages

  /** The rows that so many full pages hold. */
  function Full(pages: nat, limit: nat): nat { pages * limit }

  lemma {:induction false} OneMorePage(pages: nat, limit: nat)
    ensures Full(pages + 1, limit) == limit + Full(pages, limit)
    ensures Full(0, limit) == 0
  {
  }

  lemma {:induction false} MorePagesHoldMore(pages: nat, more: nat, limit: nat)
    requires pages <= more
    ensures Full(pages, limit) <= Full(more, limit)
  {
    hide Full;
    if pages < more {
      MorePagesHoldMore(pages, more - 1, limit);
      OneMorePage(more - 1, limit);
    }
  }

  /** max(1, ceil(rows / limit)) */
  function PagesNeeded(rows: nat, limit: nat): (n: nat)
    requires limit >= 1
    ensures n >= 1 && Full(n, limit) >= rows
    ensures n > 1 ==> Full(n - 1, limit) < rows
  {
    if rows == 0 then 1 else
      var n := (rows + limit - 1) / limit;
      Ceiling(rows, limit);
      n
  }

  lemma {:induction false} Ceiling(rows: nat, limit: nat)
    requires limit >= 1 && rows >= 1
    ensures var n := (rows + limit - 1) / limit; n >= 1 && Full(n, limit) >= rows && Full(n - 1, limit) < rows
  {
    var n := (rows + limit - 1) / limit;
    assert rows + limit - 1 == n * limit + (rows + limit - 1) % limit;
    assert (n - 1) * limit == n * limit - limit;
  }

  /** Rows inserted meanwhile are all listed before the rows that were there at the start. */
  predicate OnlyNewer(table: set<Row>, tables: seq<set<Row>>) {
    forall i :: 0 <= i < |tables| ==>
      table <= tables[i] && forall n, r :: n in tables[i] && n !in table && r in table ==> Before(n, r)
  }

  lemma {:induction false} NewerAreNotAfter(table: set<Row>, tables: seq<set<Row>>, i: nat, cursor: Row)
    requires OnlyNewer(table, tables) && i < |tables| && cursor in table
    ensures After(tables[i], Some(cursor)) == After(table, Some(cursor))
  {
    forall r | r in tables[i] && r !in table ensures !Before(cursor, r) {
      assert Before(r, cursor);
    }
  }

  /** Past the first page, only newer insertions do not disturb: after k pages the reader has the first k * limit rows
      that followed the cursor at the start, and is told that it has all exactly when it has. */
  lemma {:induction false} FollowFromRow(table: set<Row>, tables: seq<set<Row>>, cursor: Row, limit: nat)
    requires limit >= 1 && OnlyNewer(table, tables) && cursor in table
    ensures var all := Listing(After(table, Some(cursor)));
            Follow(tables, Some(cursor), limit)
            == Seen(Take(all, Full(|tables|, limit)), |tables| >= 1 && Full(|tables|, limit) >= |all|)
  {
    hide Listing, PageOf, After, OnlyNewer, Full, Take;
    var all := Listing(After(table, Some(cursor)));
    if tables == [] {
      OneMorePage(0, limit);
      TakeAll(all, 0);
    } else {
      NewerAreNotAfter(table, tables, 0, cursor);
      PageIsTheStart(tables[0], Some(cursor), limit);
      var page := PageOf(tables[0], Some(cursor), limit);
      var k := |tables| - 1;
      OneMorePage(k, limit);
      if page.next.None? {
        TakeAll(all, Full(|tables|, limit));
      } else {
        var rest := tables[1..];
        OnlyNewerTail(table, tables);
        AfterAreRows(table, Some(cursor), page.next.value);
        FollowFromRow(table, rest, page.next.value, limit);
        RestOfListing(table, Some(cursor), limit);
        TakeMore(all, limit, Full(k, limit));
      }
    }
  }

  lemma {:induction false} OnlyNewerTail(table: set<Row>, tables: seq<set<Row>>)
    requires OnlyNewer(table, tables) && tables != []
    ensures OnlyNewer(table, tables[1..])
  {
  }

  lemma {:induction false} AfterAreRows(table: set<Row>, cursor: Option<Row>, r: Row)
    requires r in After(table, cursor)
    ensures r in table
  {
  }

  lemma {:induction false} TakeAll(rows: seq<Row>, n: nat)
    ensures Take(rows, 0) == [] && (n >= |rows| ==> Take(rows, n) == rows)
  {
  }

  lemma {:induction false} TakeMore(rows: seq<Row>, a: nat, b: nat)
    requires a <= |rows|
    ensures Take(rows, a + b) == rows[..a] + Take(rows[a..], b)
  {
  }

  /** A table that gains only newer rows while it is read: k pages show the first k * limit rows of the table as it
      was at the start, and the reading ends exactly after max(1, ceil(n / limit)) pages with the sorted table. */
  lemma {:induction false} SortedAfterAllPages(tables: seq<set<Row>>, limit: nat)
    requires limit >= 1 && tables != [] && OnlyNewer(tables[0], tables)
    ensures var all := Listing(tables[0]);
            var seen := Follow(tables, None, limit);
            seen.rows == Take(all, Full(|tables|, limit))
            && (seen.finished <==> |tables| >= PagesNeeded(|tables[0]|, limit))
            && (seen.finished ==> seen.rows == all)
  {
    hide Listing, PageOf, OnlyNewer, Full, Take, PagesNeeded;
    var table := tables[0];
    assert After(table, None) == table;
    var all := Listing(table);
    PageIsTheStart(table, None, limit);
    var page := PageOf(table, None, limit);
    var k := |tables| - 1;
    OneMorePage(k, limit);
    EnoughPages(|tables|, |all|, limit);
    TakeAll(all, Full(|tables|, limit));
    if page.next.Some? {
      assert page.items == all[..limit];
      OnlyNewerTail(table, tables);
      AfterAreRows(table, None, page.next.value);
      FollowFromRow(table, tables[1..], page.next.value, limit);
      RestOfListing(table, None, limit);
      TakeMore(all, limit, Full(k, limit));
      OneMorePage(0, limit);
    }
  }

  lemma {:induction false} EnoughPages(k: nat, rows: nat, limit: nat)
    requires limit >= 1 && k >= 1
    ensures k >= PagesNeeded(rows, limit) <==> Full(k, limit) >= rows
  {
    hide Full;
    var n := PagesNeeded(rows, limit);
    if k >= n { MorePagesHoldMore(n, k, limit); } else { MorePagesHoldMore(k, n - 1, limit); }
  }

  /** Nothing is inserted: the pages are the sorted table, cut into pieces. */
  lemma {:induction false} FixedTable(table: set<Row>, pages: nat, limit: nat)
    requires limit >= 1 && pages >= 1
    ensures var seen := Follow(seq(pages, _ => table), None, limit);
            seen.finished <==> pages >= PagesNeeded(|table|, limit)
    ensures var seen := Follow(seq(pages, _ => table), None, limit);
            seen.rows == Take(Listing(table), Full(pages, limit))
  {
    hide Follow, Listing, PagesNeeded, Take, Full;
    var tables := seq(pages, _ => table);
    assert tables[0] == table;
    SortedAfterAllPages(tables, limit);
  }
}
