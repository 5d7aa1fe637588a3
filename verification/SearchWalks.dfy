/** A client that follows `next_cursor` through `search_embeddings` while runs of the store go on. */
module SearchWalks {
  import opened Wrappers
  import opened MatchKeys
  import opened Ranking
  import opened Paging
  import opened Ledger
  import opened LedgerProof
  import opened Evaluation
  import opened Immutability
  import opened LedgerRuns
  import opened PageHistory
  import Columns

  /** The request with the cursor of the page before. */
  function Following(req: Search, cursor: Option<Rank>): Search {
    req.(cursor := cursor)
  }

  /** The responses of a client whose request `i` meets the store at `stores[i]`. */
  function SearchPages(env: Env, stores: seq<Db>, req: Search): seq<seq<PageEmbedding>> {
    if stores == [] then []
    else
      var page := SearchPage(env, stores[0], req);
      [page.hits] + (if page.next.None? then [] else SearchPages(env, stores[1..], Following(req, page.next)))
  }

  /** The client's last response has no cursor. */
  predicate SearchEnds(env: Env, stores: seq<Db>, req: Search) {
    stores != [] &&
    var page := SearchPage(env, stores[0], req);
    page.next.None? || SearchEnds(env, stores[1..], Following(req, page.next))
  }

  function RowsOf(env: Env, stores: seq<Db>, req: Search): (tables: seq<seq<PageEmbedding>>)
    ensures |tables| == |stores|
    ensures forall i :: 0 <= i < |stores| ==> tables[i] == ScopedRows(env, stores[i], req)
  {
    seq(|stores|, i requires 0 <= i < |stores| => ScopedRows(env, stores[i], req))
  }

  lemma ScopeIgnoresCursor(env: Env, db: Db, req: Search, cursor: Option<Rank>)
    ensures ScopedRows(env, db, Following(req, cursor)) == ScopedRows(env, db, req)
  {
    assert forall e :: InScope(env, db, Following(req, cursor), e) == InScope(env, db, req, e);
    FilterAgrees(db.pageEmbeddings, e => InScope(env, db, Following(req, cursor), e), e => InScope(env, db, req, e));
  }

  lemma RowsIgnoreCursor(env: Env, stores: seq<Db>, req: Search, cursor: Option<Rank>)
    ensures RowsOf(env, stores, Following(req, cursor)) == RowsOf(env, stores, req)
  {
    forall i | 0 <= i < |stores| ensures RowsOf(env, stores, Following(req, cursor))[i] == RowsOf(env, stores, req)[i] {
      ScopeIgnoresCursor(env, stores[i], req, cursor);
    }
  }

  /** Searching repeatedly is walking the scoped rows page by page. */
  lemma {:induction false} SearchIsWalk(env: Env, stores: seq<Db>, req: Search)
    ensures SearchPages(env, stores, req) == Walk(PageRankOf(env, req.vector), RowsOf(env, stores, req), req.cursor, req.limit)
    ensures SearchEnds(env, stores, req) <==> Completes(PageRankOf(env, req.vector), RowsOf(env, stores, req), req.cursor, req.limit)
    decreases |stores|
  {
    if stores != [] {
      var page := SearchPage(env, stores[0], req);
      var tables := RowsOf(env, stores, req);
      assert tables[1..] == RowsOf(env, stores[1..], req);
      RowsIgnoreCursor(env, stores[1..], req, page.next);
      SearchIsWalk(env, stores[1..], Following(req, page.next));
    }
  }

  lemma ScopedRowsDistinct(env: Env, db: Db, req: Search)
    requires PageEmbeddingsUnique(db)
    ensures DistinctRanks(PageRankOf(env, req.vector), ScopedRows(env, db, req))
  {
    assert DistinctRanks(PageRankOf(env, req.vector), db.pageEmbeddings);
    FilterDistinct(PageRankOf(env, req.vector), db.pageEmbeddings, e => InScope(env, db, req, e));
  }

  /** A row in scope stays in scope. */
  lemma ScopedRowsGrow(env: Env, db: Db, db': Db, req: Search)
    requires Evolves(db, db')
    ensures forall e :: e in ScopedRows(env, db, req) ==> e in ScopedRows(env, db', req)
  {
  }

  /** The store at each request, in the order of the requests. */
  predicate Visited(states: seq<Db>, visits: seq<nat>, stores: seq<Db>) {
    && |stores| == |visits|
    && (forall i :: 0 <= i < |visits| ==> visits[i] < |states| && stores[i] == states[visits[i]])
    && (forall i, j :: 0 <= i < j < |visits| ==> visits[i] <= visits[j])
  }

  lemma VisitedTablesGrow(env: Env, steps: seq<Step>, states: seq<Db>, logs: seq<Log>, visits: seq<nat>, stores: seq<Db>, req: Search)
    requires Injective(env.sha) && Rounding(env.round) && IsRun(env, steps, states, logs) && StoreInv(env, states[0], logs[0])
    requires Visited(states, visits, stores)
    ensures Grows(PageRankOf(env, req.vector), RowsOf(env, stores, req))
  {
    var tables := RowsOf(env, stores, req);
    forall i | 0 <= i < |tables| ensures DistinctRanks(PageRankOf(env, req.vector), tables[i]) {
      RunKeepsInv(env, steps, states, logs, visits[i]);
      ScopedRowsDistinct(env, stores[i], req);
    }
    forall i, j, x | 0 <= i < j < |tables| && x in tables[i] ensures x in tables[j] {
      RunEvolves(env, steps, states, logs, visits[i], visits[j]);
      ScopedRowsGrow(env, stores[i], stores[j], req);
    }
  }

  /**
   Following the cursor through any run of the store returns rows in ascending order of distance and
   identifier, none twice, all of those in scope at the first request and only rows in scope at the last.
   */
  lemma FollowingTheCursorCovers(env: Env, steps: seq<Step>, states: seq<Db>, logs: seq<Log>, visits: seq<nat>, stores: seq<Db>, req: Search)
    requires Injective(env.sha) && Rounding(env.round) && IsRun(env, steps, states, logs) && StoreInv(env, states[0], logs[0])
    requires Visited(states, visits, stores) && req.limit >= 1 && SearchEnds(env, stores, req)
    ensures Covers(PageRankOf(env, req.vector), Flatten(SearchPages(env, stores, req)), req.cursor,
                   ScopedRows(env, stores[0], req), ScopedRows(env, stores[|stores| - 1], req))
  {
    VisitedTablesGrow(env, steps, states, logs, visits, stores, req);
    SearchIsWalk(env, stores, req);
    WalkCoversGrowingTable(PageRankOf(env, req.vector), RowsOf(env, stores, req), req.cursor, req.limit);
  }

  /** The hits of all pages, one after the other. */
  function ShownHits(env: Env, stores: seq<Db>, req: Search): seq<PageEmbedding> {
    Flatten(SearchPages(env, stores, req))
  }

  /**
   What a client sees that follows the cursor through a run: no embedding twice, the nearest first; every
   embedding sought at the first request; and only embeddings sought at the last.
   */
  lemma FollowingTheCursorShows(env: Env, steps: seq<Step>, states: seq<Db>, logs: seq<Log>, visits: seq<nat>, stores: seq<Db>, req: Search)
    requires Injective(env.sha) && Rounding(env.round) && IsRun(env, steps, states, logs) && StoreInv(env, states[0], logs[0])
    requires Visited(states, visits, stores) && req.limit >= 1 && req.cursor.None? && SearchEnds(env, stores, req)
    ensures var shown := ShownHits(env, stores, req);
            && (forall i, j :: 0 <= i < j < |shown| ==>
                  Columns.Nearer(env.distance(shown[i].vector, req.vector), shown[i].id, env.distance(shown[j].vector, req.vector), shown[j].id))
            && (forall e :: e in stores[0].pageEmbeddings && Columns.Sought(env, stores[0], req, e) ==> e in shown)
            && (forall e :: e in shown ==> e in stores[|stores| - 1].pageEmbeddings && Columns.Sought(env, stores[|stores| - 1], req, e))
  {
    FollowingTheCursorCovers(env, steps, states, logs, visits, stores, req);
    CoveringShows(env, stores[0], stores[|stores| - 1], req, ShownHits(env, stores, req));
  }

  lemma CoveringShows(env: Env, first: Db, last: Db, req: Search, shown: seq<PageEmbedding>)
    requires Covers(PageRankOf(env, req.vector), shown, None, ScopedRows(env, first, req), ScopedRows(env, last, req))
    ensures forall i, j :: 0 <= i < j < |shown| ==>
              Columns.Nearer(env.distance(shown[i].vector, req.vector), shown[i].id, env.distance(shown[j].vector, req.vector), shown[j].id)
    ensures forall e :: e in first.pageEmbeddings && Columns.Sought(env, first, req, e) ==> e in shown
    ensures forall e :: e in shown ==> e in last.pageEmbeddings && Columns.Sought(env, last, req, e)
  {
    var key := PageRankOf(env, req.vector);
    forall i, j | 0 <= i < j < |shown|
      ensures Columns.Nearer(env.distance(shown[i].vector, req.vector), shown[i].id, env.distance(shown[j].vector, req.vector), shown[j].id)
    {
      assert Before(key(shown[i]), key(shown[j]));
    }
    forall e | e in first.pageEmbeddings && Columns.Sought(env, first, req, e) ensures e in shown {
      Columns.ScopedRowsAreSought(env, first, req, e);
    }
    forall e | e in shown ensures e in last.pageEmbeddings && Columns.Sought(env, last, req, e) {
      Columns.ScopedRowsAreSought(env, last, req, e);
    }
  }

  /** On a store that does not change, the pages from the start are the sorted rows in scope, in the fewest requests. */
  lemma FixedStorePages(env: Env, db: Db, req: Search, requests: nat)
    requires PageEmbeddingsUnique(db) && req.limit >= 1 && req.cursor.None?
    requires requests >= PageCount(|ScopedRows(env, db, req)|, req.limit)
    ensures var pages := SearchPages(env, Repeat(db, requests), req);
            && SearchEnds(env, Repeat(db, requests), req)
            && Flatten(pages) == Sort(PageRankOf(env, req.vector), ScopedRows(env, db, req))
            && |pages| == PageCount(|ScopedRows(env, db, req)|, req.limit)
  {
    ScopedRowsDistinct(env, db, req);
    SearchIsWalk(env, Repeat(db, requests), req);
    assert RowsOf(env, Repeat(db, requests), req) == Repeat(ScopedRows(env, db, req), requests);
    FixedTableWalk(PageRankOf(env, req.vector), ScopedRows(env, db, req), req.limit, requests);
  }
}
