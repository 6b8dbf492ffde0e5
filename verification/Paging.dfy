/** Cursor paging: `take limit + 1` after the cursor, and the loop that follows nextCursor. */
module Paging {
  import opened Common
  import opened Sorting

  type Id = string

  /** The rows after the first occurrence of `id`; none when it does not occur. */
  function RowsAfter(rows: seq<Id>, id: Id): seq<Id> {
    if rows == [] then []
    else if rows[0] == id then rows[1..]
    else RowsAfter(rows[1..], id)
  }

  function Take(rows: seq<Id>, n: nat): seq<Id> {
    if |rows| <= n then rows else rows[..n]
  }

  /** findMany: the ordered rows, from after the cursor row if there is one, at most `take` of them. */
  function FindMany(rows: seq<Id>, cursor: Option<Id>, take: nat): seq<Id> {
    Take(if cursor.Some? then RowsAfter(rows, cursor.value) else rows, take)
  }

  datatype Page = Page(items: seq<Id>, nextCursor: Option<Id>)

  method FindAll(rows: seq<Id>, cursor: Option<Id>, limit: nat) returns (page: Page)
    requires limit >= 1
    ensures var rest := if cursor.Some? then RowsAfter(rows, cursor.value) else rows;
            && page.items == Take(rest, limit)
            && (page.nextCursor.Some? <==> |rest| > limit)
            && (page.nextCursor.Some? ==> page.nextCursor.value == rest[limit - 1])
  {
    var found := FindMany(rows, cursor, limit + 1);
    var hasMore := |found| > limit;
    var items := Take(found, limit);
    page := Page(items, if hasMore then Some(items[|items| - 1]) else None);
  }

  lemma {:induction false} RowsAfterAt(rows: seq<Id>, k: nat)
    requires Distinct(rows) && k < |rows|
    ensures RowsAfter(rows, rows[k]) == rows[k + 1..]
  {
    if k == 0 {
    } else {
      RowsAfterAt(rows[1..], k - 1);
    }
  }

  /** Rows that sort before the cursor do not matter to the pages after it. */
  lemma {:induction false} NewerRowsDoNotShiftPages(newer: seq<Id>, rows: seq<Id>, id: Id)
    requires Distinct(newer + rows) && id in rows
    ensures RowsAfter(newer + rows, id) == RowsAfter(rows, id)
  {
    if newer == [] {
      assert newer + rows == rows;
    } else {
      var k :| 0 <= k < |rows| && rows[k] == id;
      assert (newer + rows)[|newer| + k] == id;
      assert (newer + rows)[1..] == newer[1..] + rows;
      NewerRowsDoNotShiftPages(newer[1..], rows, id);
    }
  }

  /** What is left to serve after the first `done` rows, whatever has been inserted ahead of them. */
  lemma ServedRest(newer: seq<Id>, rows: seq<Id>, done: nat)
    requires Distinct(newer + rows) && 0 < done <= |rows|
    ensures RowsAfter(newer + rows, rows[done - 1]) == rows[done..]
  {
    assert forall i :: 0 <= i < |rows| ==> rows[i] == (newer + rows)[|newer| + i];
    NewerRowsDoNotShiftPages(newer, rows, rows[done - 1]);
    RowsAfterAt(rows, done - 1);
  }

  /** One request of the loop: rows may have been inserted ahead of the listing since the first one. */
  method RequestPage(rows: seq<Id>, newer: seq<Id>, cursor: Option<Id>, limit: nat,
                     ghost done: nat) returns (page: Page)
    requires limit >= 1 && Distinct(newer + rows) && done <= |rows|
    requires if cursor.Some? then done > 0 && cursor.value == rows[done - 1] else done == 0 && newer == []
    ensures page.items == Take(rows[done..], limit)
    ensures page.nextCursor == if |rows| - done > limit then Some(rows[done + limit - 1]) else None
  {
    if cursor.Some? {
      ServedRest(newer, rows, done);
    } else {
      assert newer + rows == rows == rows[done..];
    }
    page := FindAll(newer + rows, cursor, limit);
  }

  /**
   The page-following loop. `newer(i)` are the rows inserted ahead of the listing by the time of request i.
   The pages concatenate to the listing of the first request: no row is missing or repeated.
   */
  method FollowPages(rows: seq<Id>, newer: nat -> seq<Id>, limit: nat) returns (all: seq<Id>)
    requires limit >= 1 && newer(0) == [] && forall i :: Distinct(newer(i) + rows)
    ensures all == rows
  {
    all := [];
    var cursor := None;
    var request := 0;
    while true
      invariant |all| <= |rows| && all == rows[..|all|]
      invariant if cursor.Some? then all != [] && cursor.value == rows[|all| - 1] else request == 0 && all == []
      decreases |rows| - |all|, cursor.None?
    {
      ghost var done := |all|;
      var page := RequestPage(rows, newer(request), cursor, limit, done);
      all := all + page.items;
      cursor := page.nextCursor;
      request := request + 1;
      assert all == rows[..done] + Take(rows[done..], limit);
      if cursor.None? {
        break;
      }
    }
  }
}
