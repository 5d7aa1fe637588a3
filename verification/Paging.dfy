/**
 Keyset pagination: `search_embeddings` returns the rows after a cursor, up to a limit, and
 a cursor when the probe for one more row finds it. A client follows the cursor while the
 table may grow between its requests.
 */
module Paging {
  import opened Wrappers
  import opened Ranking
  import opened Sequences

  predicate AfterCursor(cursor: Option<Rank>, r: Rank) {
    cursor.None? || Before(cursor.value, r)
  }

  datatype Page<T> = Page(hits: seq<T>, next: Option<Rank>)

  /** The rows of the table that qualify and come after the cursor, in order. */
  function Remaining<T(!new)>(key: T -> Rank, rows: seq<T>, cursor: Option<Rank>): (r: seq<T>)
    ensures forall x :: x in r <==> x in rows && AfterCursor(cursor, key(x))
  {
    Sort(key, Filter(rows, x => AfterCursor(cursor, key(x))))
  }

  /** One page: query `limit + 1` rows, keep `limit`, and point at the last row kept if there was one more. */
  function Fetch<T(!new)>(key: T -> Rank, rows: seq<T>, cursor: Option<Rank>, limit: nat): (page: Page<T>)
    ensures |page.hits| <= limit
  {
    var probe := Take(Remaining(key, rows, cursor), limit + 1);
    if |probe| > limit then
      var hits := probe[..limit];
      Page(hits, if hits == [] then None else Some(key(hits[|hits| - 1])))
    else Page(probe, None)
  }

  /** The pages a client receives when request `i` meets `tables[i]`. */
  function Walk<T(!new)>(key: T -> Rank, tables: seq<seq<T>>, cursor: Option<Rank>, limit: nat): seq<seq<T>> {
    if tables == [] then []
    else
      var page := Fetch(key, tables[0], cursor, limit);
      [page.hits] + (if page.next.None? then [] else Walk(key, tables[1..], page.next, limit))
  }

  /** The walk ends for want of a cursor, not for want of requests. */
  predicate Completes<T(!new)>(key: T -> Rank, tables: seq<seq<T>>, cursor: Option<Rank>, limit: nat) {
    tables != [] &&
    var page := Fetch(key, tables[0], cursor, limit);
    page.next.None? || Completes(key, tables[1..], page.next, limit)
  }

  function Flatten<T>(pages: seq<seq<T>>): seq<T> {
    if pages == [] then [] else pages[0] + Flatten(pages[1..])
  }

  /** Rows are only ever added, and every snapshot has distinct ranks. */
  ghost predicate Grows<T(!new)>(key: T -> Rank, tables: seq<seq<T>>) {
    && (forall i :: 0 <= i < |tables| ==> DistinctRanks(key, tables[i]))
    && (forall i, j, x :: 0 <= i < j < |tables| && x in tables[i] ==> x in tables[j])
  }

  // ---------------------------------------------------------------- one fetch

  lemma RemainingAscending<T(!new)>(key: T -> Rank, rows: seq<T>, cursor: Option<Rank>)
    requires DistinctRanks(key, rows)
    ensures Ascending(key, Remaining(key, rows, cursor))
  {
    FilterDistinct(key, rows, x => AfterCursor(cursor, key(x)));
    SortAscending(key, Filter(rows, x => AfterCursor(cursor, key(x))));
  }

  lemma FetchTakes<T(!new)>(key: T -> Rank, rows: seq<T>, cursor: Option<Rank>, limit: nat)
    ensures Fetch(key, rows, cursor, limit).hits == Take(Remaining(key, rows, cursor), limit)
  {
    var all := Remaining(key, rows, cursor);
    if |all| > limit {
      assert Take(all, limit + 1)[..limit] == all[..limit];
    }
  }

  /** A page starts the remaining rows, and its cursor splits them from the rest. */
  lemma FetchSplits<T(!new)>(key: T -> Rank, rows: seq<T>, cursor: Option<Rank>, limit: nat)
    requires DistinctRanks(key, rows) && limit >= 1
    ensures var page := Fetch(key, rows, cursor, limit);
            var all := Remaining(key, rows, cursor);
            && page.hits == Take(all, limit)
            && (page.next.None? <==> |all| <= limit)
            && (page.next.Some? ==> |page.hits| == limit && page.next.value == key(page.hits[limit - 1]))
  {
    FetchTakes(key, rows, cursor, limit);
  }

  /** The first of the rows after the cursor, in order, and a next cursor at the last of them exactly when a row is left out. */
  ghost predicate IsNextPage<T(!new)>(key: T -> Rank, rows: seq<T>, cursor: Option<Rank>, limit: nat, page: Page<T>) {
    && Ascending(key, page.hits) && |page.hits| <= limit
    && (forall x :: x in page.hits ==> x in rows && AfterCursor(cursor, key(x)))
    && (forall x :: x in rows && AfterCursor(cursor, key(x)) && x !in page.hits ==>
          |page.hits| == limit && forall h :: h in page.hits ==> Before(key(h), key(x)))
    && (limit >= 1 ==>
          && (page.next.None? <==> forall x :: x in rows && AfterCursor(cursor, key(x)) ==> x in page.hits)
          && (page.next.Some? ==> page.hits != [] && page.next.value == key(page.hits[|page.hits| - 1])))
  }

  lemma TakeComesFirst<T(!new)>(key: T -> Rank, all: seq<T>, limit: nat)
    requires Ascending(key, all)
    ensures Ascending(key, Take(all, limit))
    ensures forall x :: x in all && x !in Take(all, limit) ==>
              |Take(all, limit)| == limit && forall h :: h in Take(all, limit) ==> Before(key(h), key(x))
    ensures |all| > limit ==> exists x :: x in all && x !in Take(all, limit)
  {
    var front := Take(all, limit);
    forall x, h | x in all && x !in front && h in front ensures Before(key(h), key(x)) {
      var i :| 0 <= i < |all| && all[i] == x;
      var j :| 0 <= j < |front| && front[j] == h;
      assert forall n :: 0 <= n < |front| ==> front[n] in front;
      assert i >= |front|;
    }
    if |all| > limit {
      assert all[limit] in all && all[limit] !in front;
    }
  }

  lemma StartIsNextPage<T(!new)>(key: T -> Rank, rows: seq<T>, cursor: Option<Rank>, limit: nat, all: seq<T>, page: Page<T>)
    requires Ascending(key, all) && forall x :: x in all <==> x in rows && AfterCursor(cursor, key(x))
    requires page.hits == Take(all, limit)
    requires limit >= 1 ==> (page.next.None? <==> |all| <= limit)
                            && (page.next.Some? ==> |page.hits| == limit && page.next.value == key(page.hits[limit - 1]))
    ensures IsNextPage(key, rows, cursor, limit, page)
  {
    TakeComesFirst(key, all, limit);
  }

  lemma FetchIsNextPage<T(!new)>(key: T -> Rank, rows: seq<T>, cursor: Option<Rank>, limit: nat)
    requires DistinctRanks(key, rows)
    ensures IsNextPage(key, rows, cursor, limit, Fetch(key, rows, cursor, limit))
  {
    var page := Fetch(key, rows, cursor, limit);
    FetchTakes(key, rows, cursor, limit);
    if limit >= 1 {
      FetchSplits(key, rows, cursor, limit);
    }
    RemainingAscending(key, rows, cursor);
    StartIsNextPage(key, rows, cursor, limit, Remaining(key, rows, cursor), page);
  }

  /** In an ascending sequence the elements after position `n - 1` are the later ones. */
  lemma SuffixMembers<T(!new)>(key: T -> Rank, all: seq<T>, n: nat)
    requires Ascending(key, all) && 1 <= n <= |all|
    ensures forall x :: x in all[n..] <==> x in all && Before(key(all[n - 1]), key(x))
  {
    forall x | x in all[n..] ensures x in all && Before(key(all[n - 1]), key(x)) {
      var i :| 0 <= i < |all[n..]| && all[n..][i] == x;
      assert x == all[n + i];
    }
    forall x | x in all && Before(key(all[n - 1]), key(x)) ensures x in all[n..] {
      var i :| 0 <= i < |all| && all[i] == x;
      OrderReflects(key, all, n - 1, i);
      assert all[n..][i - n] == x;
    }
  }

  lemma CursorAdvances<T(!new)>(key: T -> Rank, cursor: Option<Rank>, all: seq<T>, limit: nat)
    requires 1 <= limit <= |all|
    requires forall x :: x in all ==> AfterCursor(cursor, key(x))
    ensures forall r :: Before(key(all[limit - 1]), r) ==> AfterCursor(cursor, r)
  {
    assert all[limit - 1] in all;
  }

  /** Following the cursor leaves exactly the rows the page did not show. */
  lemma NextRemaining<T(!new)>(key: T -> Rank, rows: seq<T>, cursor: Option<Rank>, limit: nat)
    requires DistinctRanks(key, rows) && limit >= 1
    requires Fetch(key, rows, cursor, limit).next.Some?
    ensures limit < |Remaining(key, rows, cursor)|
    ensures Remaining(key, rows, Fetch(key, rows, cursor, limit).next) == Remaining(key, rows, cursor)[limit..]
  {
    var next := Fetch(key, rows, cursor, limit).next;
    var all := Remaining(key, rows, cursor);
    FetchSplits(key, rows, cursor, limit);
    RemainingAscending(key, rows, cursor);
    RemainingAscending(key, rows, next);
    SuffixMembers(key, all, limit);
    CursorAdvances(key, cursor, all, limit);
    SuffixIsRemaining(key, rows, cursor, next, all, limit);
  }

  lemma SuffixIsRemaining<T(!new)>(key: T -> Rank, rows: seq<T>, cursor: Option<Rank>, next: Option<Rank>, all: seq<T>, limit: nat)
    requires 1 <= limit <= |all| && next == Some(key(all[limit - 1]))
    requires Ascending(key, all) && Ascending(key, Remaining(key, rows, next))
    requires forall x :: x in all <==> x in rows && AfterCursor(cursor, key(x))
    requires forall x :: x in all[limit..] <==> x in all && Before(key(all[limit - 1]), key(x))
    requires forall r :: Before(key(all[limit - 1]), r) ==> AfterCursor(cursor, r)
    ensures Remaining(key, rows, next) == all[limit..]
  {
    AscendingUnique(key, Remaining(key, rows, next), all[limit..]);
  }

  // ---------------------------------------------------------------- a growing table

  /** What a walk must show: rows in order, all of `before` and nothing outside `after`. */
  ghost predicate Covers<T(!new)>(key: T -> Rank, shown: seq<T>, cursor: Option<Rank>, before: seq<T>, after: seq<T>) {
    && Ascending(key, shown)
    && (forall x :: x in before && AfterCursor(cursor, key(x)) ==> x in shown)
    && (forall x :: x in shown ==> AfterCursor(cursor, key(x)) && x in after)
  }

  /** A page followed by a walk that covers the rest covers everything. */
  lemma PageThenRest<T(!new)>(key: T -> Rank, cursor: Option<Rank>, all: seq<T>, limit: nat, rest: seq<T>,
                              now: seq<T>, later: seq<T>, after: seq<T>)
    requires 1 <= limit < |all| && Ascending(key, all)
    requires forall x :: x in all <==> x in now && AfterCursor(cursor, key(x))
    requires forall x :: x in now ==> x in later && x in after
    requires Covers(key, rest, Some(key(all[limit - 1])), later, after)
    ensures Covers(key, all[..limit] + rest, cursor, now, after)
  {
    var hits := all[..limit];
    CursorAdvances(key, cursor, all, limit);
    SuffixMembers(key, all, limit);
    HitsPrecedeRest(key, all, rest, limit);
    forall x | x in now && AfterCursor(cursor, key(x)) ensures x in hits + rest {
      assert all == hits + all[limit..];
      assert x in all;
    }
    forall x | x in hits + rest ensures AfterCursor(cursor, key(x)) && x in after {
      assert x in hits ==> x in all;
    }
  }

  lemma HitsPrecedeRest<T(!new)>(key: T -> Rank, all: seq<T>, rest: seq<T>, limit: nat)
    requires 1 <= limit < |all| && Ascending(key, all) && Ascending(key, rest)
    requires forall x :: x in rest ==> Before(key(all[limit - 1]), key(x))
    ensures Ascending(key, all[..limit] + rest)
  {
    var shown := all[..limit] + rest;
    forall i, j | 0 <= i < j < |shown| ensures Before(key(shown[i]), key(shown[j])) {
      if i < limit <= j {
        assert rest[j - limit] in rest;
        assert i == limit - 1 || Before(key(all[i]), key(all[limit - 1]));
      }
    }
  }

  lemma WalkUnfolds<T(!new)>(key: T -> Rank, tables: seq<seq<T>>, cursor: Option<Rank>, limit: nat)
    requires Completes(key, tables, cursor, limit)
    ensures tables != []
    ensures var page := Fetch(key, tables[0], cursor, limit);
            var pages := Walk(key, tables, cursor, limit);
            if page.next.None? then
              Flatten(pages) == page.hits && |pages| == 1
            else
              && Completes(key, tables[1..], page.next, limit)
              && Flatten(pages) == page.hits + Flatten(Walk(key, tables[1..], page.next, limit))
              && |pages| == 1 + |Walk(key, tables[1..], page.next, limit)|
  {
    var page := Fetch(key, tables[0], cursor, limit);
    var pages := Walk(key, tables, cursor, limit);
    var tail := if page.next.None? then [] else Walk(key, tables[1..], page.next, limit);
    assert pages == [page.hits] + tail && pages[1..] == tail;
    assert page.hits + [] == page.hits;
  }

  /**
   Following the cursor while the table only grows returns rows in ascending order, so none
   twice, and misses no row that was there at the first fetch.
   */
  lemma {:induction false} WalkCoversGrowingTable<T(!new)>(key: T -> Rank, tables: seq<seq<T>>, cursor: Option<Rank>, limit: nat)
    requires limit >= 1 && Grows(key, tables) && Completes(key, tables, cursor, limit)
    ensures Covers(key, Flatten(Walk(key, tables, cursor, limit)), cursor, tables[0], tables[|tables| - 1])
    decreases |tables|
  {
    var next := Fetch(key, tables[0], cursor, limit).next;
    if next.None? {
      LastPageCovers(key, tables, cursor, limit);
      WalkUnfolds(key, tables, cursor, limit);
    } else {
      LaterCompletes(key, tables, cursor, limit);
      LaterGrows(key, tables);
      WalkCoversGrowingTable(key, tables[1..], next, limit);
      LaterPagesCover(key, tables, cursor, limit);
    }
  }

  lemma LaterCompletes<T(!new)>(key: T -> Rank, tables: seq<seq<T>>, cursor: Option<Rank>, limit: nat)
    requires Completes(key, tables, cursor, limit) && Fetch(key, tables[0], cursor, limit).next.Some?
    ensures |tables| >= 2 && Completes(key, tables[1..], Fetch(key, tables[0], cursor, limit).next, limit)
  {
  }

  lemma LaterPagesCover<T(!new)>(key: T -> Rank, tables: seq<seq<T>>, cursor: Option<Rank>, limit: nat)
    requires limit >= 1 && Grows(key, tables) && Completes(key, tables, cursor, limit) && |tables| >= 2
    requires var next := Fetch(key, tables[0], cursor, limit).next;
             next.Some? && Covers(key, Flatten(Walk(key, tables[1..], next, limit)), next, tables[1], tables[|tables| - 1])
    ensures Covers(key, Flatten(Walk(key, tables, cursor, limit)), cursor, tables[0], tables[|tables| - 1])
  {
    var next := Fetch(key, tables[0], cursor, limit).next;
    WalkUnfolds(key, tables, cursor, limit);
    NextPageCovers(key, tables, cursor, limit, Flatten(Walk(key, tables[1..], next, limit)));
  }

  lemma AllCovers<T(!new)>(key: T -> Rank, all: seq<T>, cursor: Option<Rank>, before: seq<T>, after: seq<T>)
    requires Ascending(key, all) && forall x :: x in all <==> x in before && AfterCursor(cursor, key(x))
    requires forall x :: x in before ==> x in after
    ensures Covers(key, all, cursor, before, after)
  {
  }

  lemma FirstInLast<T(!new)>(key: T -> Rank, tables: seq<seq<T>>)
    requires Grows(key, tables) && tables != []
    ensures forall x :: x in tables[0] ==> x in tables[|tables| - 1]
  {
  }

  lemma LastPageCovers<T(!new)>(key: T -> Rank, tables: seq<seq<T>>, cursor: Option<Rank>, limit: nat)
    requires limit >= 1 && Grows(key, tables) && tables != []
    requires Fetch(key, tables[0], cursor, limit).next.None?
    ensures Covers(key, Fetch(key, tables[0], cursor, limit).hits, cursor, tables[0], tables[|tables| - 1])
  {
    FetchSplits(key, tables[0], cursor, limit);
    RemainingAscending(key, tables[0], cursor);
    FirstInLast(key, tables);
    AllCovers(key, Remaining(key, tables[0], cursor), cursor, tables[0], tables[|tables| - 1]);
  }

  lemma NextPageCovers<T(!new)>(key: T -> Rank, tables: seq<seq<T>>, cursor: Option<Rank>, limit: nat, rest: seq<T>)
    requires limit >= 1 && Grows(key, tables) && |tables| >= 2
    requires Fetch(key, tables[0], cursor, limit).next.Some?
    requires Covers(key, rest, Fetch(key, tables[0], cursor, limit).next, tables[1], tables[|tables| - 1])
    ensures Covers(key, Fetch(key, tables[0], cursor, limit).hits + rest, cursor, tables[0], tables[|tables| - 1])
  {
    FetchSplits(key, tables[0], cursor, limit);
    RemainingAscending(key, tables[0], cursor);
    var all := Remaining(key, tables[0], cursor);
    PageThenRest(key, cursor, all, limit, rest, tables[0], tables[1], tables[|tables| - 1]);
  }

  lemma LaterGrows<T(!new)>(key: T -> Rank, tables: seq<seq<T>>)
    requires Grows(key, tables) && tables != []
    ensures Grows(key, tables[1..])
  {
    var later := tables[1..];
    forall i, j, x | 0 <= i < j < |later| && x in later[i] ensures x in later[j] {
      assert x in tables[i + 1] && later[j] == tables[j + 1];
    }
    forall i | 0 <= i < |later| ensures DistinctRanks(key, later[i]) {
      assert later[i] == tables[i + 1];
    }
  }

  // ---------------------------------------------------------------- a fixed table

  function Repeat<T>(x: T, n: nat): seq<T> {
    seq(n, _ => x)
  }

  /** The number of pages that `n` rows fill, and one page for none. */
  function PageCount(n: nat, limit: nat): (pages: nat)
    requires limit >= 1
    ensures pages >= 1
  {
    if n <= limit then 1 else PageCount(n - limit, limit) + 1
  }

  /** `max(1, ceil(n / limit))`. */
  lemma {:induction false} PageCountIsCeiling(n: nat, limit: nat)
    requires limit >= 1
    ensures var pages := PageCount(n, limit);
            && n <= pages * limit
            && (pages > 1 ==> (pages - 1) * limit < n)
  {
    if n > limit {
      PageCountIsCeiling(n - limit, limit);
      var rest := PageCount(n - limit, limit);
      assert (rest + 1) * limit == rest * limit + limit;
      assert rest > 1 ==> rest * limit == (rest - 1) * limit + limit;
    }
  }

  lemma FixedStep<T(!new)>(key: T -> Rank, rows: seq<T>, cursor: Option<Rank>, limit: nat)
    requires limit >= 1 && DistinctRanks(key, rows)
    ensures var next := Fetch(key, rows, cursor, limit).next;
            var n := |Remaining(key, rows, cursor)|;
            && (next.None? <==> n <= limit)
            && (next.Some? ==> |Remaining(key, rows, next)| == n - limit)
  {
    FetchSplits(key, rows, cursor, limit);
    if Fetch(key, rows, cursor, limit).next.Some? {
      NextRemaining(key, rows, cursor, limit);
    }
  }

  lemma CompletesUnfolds<T(!new)>(key: T -> Rank, tables: seq<seq<T>>, cursor: Option<Rank>, limit: nat)
    requires tables != []
    requires var next := Fetch(key, tables[0], cursor, limit).next; next.None? || Completes(key, tables[1..], next, limit)
    ensures Completes(key, tables, cursor, limit)
  {
  }

  /** The first request of a walk over a fixed table, given the rest of the walk. */
  lemma FixedWalkStep<T(!new)>(key: T -> Rank, tables: seq<seq<T>>, cursor: Option<Rank>, limit: nat, n: nat)
    requires limit >= 1 && tables != []
    requires var next := Fetch(key, tables[0], cursor, limit).next;
             && (next.None? <==> n <= limit)
             && (next.Some? ==> Completes(key, tables[1..], next, limit)
                                && |Walk(key, tables[1..], next, limit)| == PageCount(n - limit, limit))
    ensures Completes(key, tables, cursor, limit) && |Walk(key, tables, cursor, limit)| == PageCount(n, limit)
  {
    CompletesUnfolds(key, tables, cursor, limit);
    WalkUnfolds(key, tables, cursor, limit);
  }

  lemma {:induction false} FixedWalk<T(!new)>(key: T -> Rank, rows: seq<T>, tables: seq<seq<T>>, cursor: Option<Rank>, limit: nat, n: nat)
    requires limit >= 1 && DistinctRanks(key, rows) && n == |Remaining(key, rows, cursor)|
    requires |tables| >= PageCount(n, limit) && forall i :: 0 <= i < |tables| ==> tables[i] == rows
    ensures Completes(key, tables, cursor, limit) && |Walk(key, tables, cursor, limit)| == PageCount(n, limit)
    decreases |tables|
  {
    var next := Fetch(key, rows, cursor, limit).next;
    FixedStep(key, rows, cursor, limit);
    if next.Some? {
      FixedWalk(key, rows, tables[1..], next, limit, n - limit);
    }
    FixedWalkStep(key, tables, cursor, limit, n);
  }

  /** On a table that does not change the pages are the sorted table cut up, in the fewest requests. */
  lemma FixedTableWalk<T(!new)>(key: T -> Rank, rows: seq<T>, limit: nat, requests: nat)
    requires limit >= 1 && DistinctRanks(key, rows) && requests >= PageCount(|rows|, limit)
    ensures var pages := Walk(key, Repeat(rows, requests), None, limit);
            && Completes(key, Repeat(rows, requests), None, limit)
            && Flatten(pages) == Sort(key, rows)
            && |pages| == PageCount(|rows|, limit)
  {
    var tables := Repeat(rows, requests);
    var all := Remaining(key, rows, None);
    RemainingAscending(key, rows, None);
    SortAscending(key, rows);
    AscendingUnique(key, all, Sort(key, rows));
    assert |all| == |rows|;
    FixedWalk(key, rows, tables, None, limit, |rows|);
    assert Grows(key, tables);
    WalkCoversGrowingTable(key, tables, None, limit);
    var shown := Flatten(Walk(key, tables, None, limit));
    assert tables[0] == rows && tables[|tables| - 1] == rows;
    AscendingUnique(key, shown, Sort(key, rows));
  }
}
