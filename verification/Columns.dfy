/**
 The queries and the rows they write, column by column and in the caller's terms: which embeddings an
 ingest selects, which pages a search or an evaluation finds, in what order, and what a new row holds.
 The statements of `Ledger` are proved to be these.
 */
module Columns {
  import opened Wrappers
  import opened Uuids
  import opened MatchKeys
  import opened Ranking
  import Paging
  import opened SourceScope
  import opened Activation
  import opened Ledger
  import opened LedgerProof
  import opened Evaluation
  import Text

  /** First by distance, then by identifier. */
  predicate Nearer(d: real, id: nat, d': real, id': nat) {
    d < d' || (d == d' && id < id')
  }

  // ---------------------------------------------------------------- the rules that take part in matching

  /** Stored filters are in normal form. */
  predicate FiltersStored(db: Db) {
    forall v :: v in db.ruleRevisions ==> Normalize(db.ruleRevisions[v].sourceFilters) == Ok(db.ruleRevisions[v].sourceFilters)
  }

  /** The revision is the active one of an active rule of the tenant, as the activation limit counts it, for the model. */
  predicate Serves(db: Db, tenant: Uuid, rule: Uuid, ruleRevision: Uuid, model: string) {
    && EnabledActive(TablesOf(db.rules, db.ruleRevisions), rule)
    && db.rules[rule].tenant == tenant && db.rules[rule].active == Some(ruleRevision)
    && db.ruleRevisions[ruleRevision].model == model
  }

  /** A rule embedding may be stored exactly for a revision that takes part in matching under the embedding's model. */
  lemma TargetServes(db: Db, req: EmbeddingRequest)
    ensures IsTarget(db, req) <==> Serves(db, req.tenant, req.rule, req.ruleRevision, req.space.model)
  {
    var tables := TablesOf(db.rules, db.ruleRevisions);
    assert tables.rules == db.rules && forall v :: v in tables.revisions <==> v in db.ruleRevisions;
  }

  // ---------------------------------------------------------------- what an ingest selects

  /** The embedding is in the request's tenant and model space, of a serving rule, near enough, and the rule admits the source. */
  predicate Wanted(env: Env, db: Db, req: Ingest, e: RuleEmbedding) {
    && e.tenant == req.tenant && e.space == req.space
    && Serves(db, req.tenant, e.rule, e.ruleRevision, req.space.model)
    && 1.0 - env.distance(e.vector, req.vector) >= db.ruleRevisions[e.ruleRevision].threshold
    && Constrain(db.ruleRevisions[e.ruleRevision].sourceFilters, [req.source]).Ok?
  }

  lemma QualifiesIsWanted(env: Env, db: Db, req: Ingest, e: RuleEmbedding)
    requires FiltersStored(db)
    ensures Qualifies(env, db, req, e) <==> Wanted(env, db, req, e)
  {
    TargetServes(db, EmbeddingRequest(e.tenant, e.rule, e.ruleRevision, e.space, e.vector));
    if e.ruleRevision in db.ruleRevisions {
      TextTestMatchesNarrowing(db.ruleRevisions[e.ruleRevision].sourceFilters, req.source);
    }
  }

  /** The nearest wanted embeddings in order; one is left out only for as many nearer ones as were asked for. */
  ghost predicate SelectsNearest(env: Env, db: Db, req: Ingest, es: seq<RuleEmbedding>) {
    && |es| <= req.maxCandidates
    && (forall i :: 0 <= i < |es| ==> es[i] in db.ruleEmbeddings && Wanted(env, db, req, es[i]))
    && (forall i, j :: 0 <= i < j < |es| ==>
          Nearer(env.distance(es[i].vector, req.vector), es[i].id, env.distance(es[j].vector, req.vector), es[j].id))
    && (forall e :: e in db.ruleEmbeddings && Wanted(env, db, req, e) && e !in es ==>
          |es| == req.maxCandidates
          && forall i :: 0 <= i < |es| ==>
               Nearer(env.distance(es[i].vector, req.vector), es[i].id, env.distance(e.vector, req.vector), e.id))
  }

  /** The candidate query selects exactly those. */
  lemma SelectionIsNearest(env: Env, db: Db, req: Ingest)
    requires RuleEmbeddingsUnique(db) && FiltersStored(db)
    ensures SelectsNearest(env, db, req, FindCandidates(env, db, req))
  {
    var es, key := FindCandidates(env, db, req), RankOf(env, req.vector);
    FindCandidatesMeaning(env, db, req);
    forall e ensures Qualifies(env, db, req, e) <==> Wanted(env, db, req, e) {
      QualifiesIsWanted(env, db, req, e);
    }
    forall i, j | 0 <= i < j < |es|
      ensures Nearer(env.distance(es[i].vector, req.vector), es[i].id, env.distance(es[j].vector, req.vector), es[j].id)
    {
      assert Before(key(es[i]), key(es[j]));
    }
    forall e, i | e in db.ruleEmbeddings && Wanted(env, db, req, e) && e !in es && 0 <= i < |es|
      ensures Nearer(env.distance(es[i].vector, req.vector), es[i].id, env.distance(e.vector, req.vector), e.id)
    {
      assert Before(key(es[i]), key(e));
    }
  }

  // ---------------------------------------------------------------- what an ingest writes

  /** The page and revision rows after an ingest, and its receipt: a new revision points back to the page's latest one. */
  predicate PageColumns(env: Env, db: Db, req: Ingest, ids: Ids, d: Db, receipt: PageReceipt) {
    var page := PageKey(req.tenant, req.source, req.finalUrl);
    var content := Text.CollapseWhitespace(req.content);
    var key := RevisionKey(page, TextSha(env.sha, content));
    var known := page in db.pages;
    && d.pages == db.pages[page := Page(if known then db.pages[page].id else ids.page,
                                        if known then db.pages[page].firstSeen else req.fetchedAt,
                                        req.fetchedAt, Some(key))]
    && d.revisions == (if key in db.revisions then db.revisions
                       else db.revisions[key := PageRevision(ids.revision, if known then db.pages[page].latest else None, req.originalUrl,
                                                             if req.title == Some("") then None else req.title, content, req.fetchedAt)])
    && receipt == PageReceipt(d.pages[page].id, d.revisions[key].id, key, key !in db.revisions)
  }

  lemma UpsertWritesPage(env: Env, db: Db, req: Ingest, ids: Ids)
    ensures PageColumns(env, db, req, ids, UpsertPage(env, db, req, ids).0, UpsertPage(env, db, req, ids).1)
  {
  }

  /** The key of a rule embedding's match with the page revision of the receipt. */
  function ReverseKeyColumns(env: Env, req: Ingest, receipt: PageReceipt, e: RuleEmbedding): CandidateKey {
    CandidateKey(req.tenant, MatchKey(env.sha,
      MatchIdentity(req.tenant, e.rule, e.ruleRevision, receipt.revisionId, receipt.revision.sha, req.space)))
  }

  /** A new row of the reverse path: pending, with the evidence of both vectors, the similarity and the stored threshold. */
  predicate ReverseColumns(env: Env, db: Db, req: Ingest, receipt: PageReceipt, e: RuleEmbedding, id: Uuid, key: CandidateKey, row: Candidate) {
    && key == ReverseKeyColumns(env, req, receipt, e) && e.ruleRevision in db.ruleRevisions
    && row == Candidate(id, e.rule, e.ruleRevision, receipt.revision, Reverse(e.id, env.sha(VectorBytes(req.vector)), req.space),
                        1.0 - env.distance(e.vector, req.vector), db.ruleRevisions[e.ruleRevision].threshold, Pending, 0)
  }

  /** Every row that was added is the new row of some selected embedding, with the identifier drawn for it. */
  predicate AddsReverseRows(env: Env, db: Db, d: Db, req: Ingest, receipt: PageReceipt, es: seq<RuleEmbedding>, ids: seq<Uuid>)
    requires |es| <= |ids|
  {
    forall k :: k in d.candidates && k !in db.candidates ==> IsReverseRow(env, db, req, receipt, es, ids, k, d.candidates[k])
  }

  predicate IsReverseRow(env: Env, db: Db, req: Ingest, receipt: PageReceipt, es: seq<RuleEmbedding>, ids: seq<Uuid>, key: CandidateKey, row: Candidate)
    requires |es| <= |ids|
  {
    exists i :: 0 <= i < |es| && ReverseColumns(env, db, req, receipt, es[i], ids[i], key, row)
  }

  /** What is returned for a selected embedding is the row under its key: its match, its evidence and the recorded scores. */
  predicate AnswersRow(env: Env, d: Db, req: Ingest, receipt: PageReceipt, e: RuleEmbedding, c: ReverseCandidate) {
    var key := ReverseKeyColumns(env, req, receipt, e);
    && key in d.candidates
    && var row := d.candidates[key];
       && row.rule == e.rule && row.ruleRevision == e.ruleRevision && row.revision == receipt.revision
       && row.evidence == Reverse(e.id, env.sha(VectorBytes(req.vector)), req.space)
       && c == ReverseCandidate(row.id, e.rule, e.ruleRevision, receipt.revisionId, e.id, row.similarity, row.threshold, key.key)
  }

  /** One write adds at most the new row of its embedding. */
  lemma WriteAddsRow(env: Env, db: Db, d: Db, req: Ingest, receipt: PageReceipt, e: RuleEmbedding, id: Uuid)
    requires Qualifies(env, db, req, e) && d.ruleRevisions == db.ruleRevisions && PersistReverse(env, d, req, receipt, e, id).Ok?
    ensures var d' := PersistReverse(env, d, req, receipt, e, id).value.0;
            forall k :: k in d'.candidates ==>
              (k in d.candidates && d'.candidates[k] == d.candidates[k]) || ReverseColumns(env, db, req, receipt, e, id, k, d'.candidates[k])
  {
  }

  lemma OneMoreRow(env: Env, db: Db, d: Db, d': Db, req: Ingest, receipt: PageReceipt, es: seq<RuleEmbedding>, ids: seq<Uuid>)
    requires 0 < |es| <= |ids| && AddsReverseRows(env, db, d, req, receipt, es[..|es| - 1], ids)
    requires forall k :: k in d'.candidates ==>
               || (k in d.candidates && d'.candidates[k] == d.candidates[k])
               || ReverseColumns(env, db, req, receipt, es[|es| - 1], ids[|es| - 1], k, d'.candidates[k])
    ensures AddsReverseRows(env, db, d', req, receipt, es, ids)
  {
    var n := |es| - 1;
    forall k | k in d'.candidates && k !in db.candidates ensures IsReverseRow(env, db, req, receipt, es, ids, k, d'.candidates[k]) {
      if !ReverseColumns(env, db, req, receipt, es[n], ids[n], k, d'.candidates[k]) {
        EarlierRow(env, db, req, receipt, es, ids, k, d.candidates[k]);
      }
    }
  }

  lemma EarlierRow(env: Env, db: Db, req: Ingest, receipt: PageReceipt, es: seq<RuleEmbedding>, ids: seq<Uuid>, key: CandidateKey, row: Candidate)
    requires 0 < |es| <= |ids| && IsReverseRow(env, db, req, receipt, es[..|es| - 1], ids, key, row)
    ensures IsReverseRow(env, db, req, receipt, es, ids, key, row)
  {
    var i :| 0 <= i < |es| - 1 && ReverseColumns(env, db, req, receipt, es[..|es| - 1][i], ids[i], key, row);
    assert ReverseColumns(env, db, req, receipt, es[i], ids[i], key, row);
  }

  lemma {:induction false} LoopAddsRows(env: Env, db: Db, req: Ingest, receipt: PageReceipt, es: seq<RuleEmbedding>, ids: seq<Uuid>)
    requires |es| <= |ids| && Admitted(env, db, req, es) && PersistAll(env, db, req, receipt, es, ids).Ok?
    ensures AddsReverseRows(env, db, PersistAll(env, db, req, receipt, es, ids).value.0, req, receipt, es, ids)
    decreases |es|
  {
    if es != [] {
      var n := |es| - 1;
      LoopStep(env, db, req, receipt, es, ids);
      LoopAddsRows(env, db, req, receipt, es[..n], ids);
      assert es[n] in es;
      var d := PersistAll(env, db, req, receipt, es[..n], ids).value.0;
      WriteAddsRow(env, db, d, req, receipt, es[n], ids[n]);
      OneMoreRow(env, db, d, PersistReverse(env, d, req, receipt, es[n], ids[n]).value.0, req, receipt, es, ids);
    }
  }

  lemma ReturnedAnswers(env: Env, d: Db, req: Ingest, receipt: PageReceipt, e: RuleEmbedding, c: ReverseCandidate)
    requires Returned(env, d, req, receipt, e, c)
    ensures AnswersRow(env, d, req, receipt, e, c)
  {
  }

  /** A successful ingest: the page rows, the selection, the rows it added and its response. */
  ghost predicate IngestColumns(env: Env, db: Db, req: Ingest, ids: Ids, d: Db, receipt: PageReceipt, es: seq<RuleEmbedding>, r: IngestResponse) {
    && PageColumns(env, db, req, ids, d, receipt)
    && SelectsNearest(env, db, req, es) && |es| <= |ids.candidates|
    && AddsReverseRows(env, db, d, req, receipt, es, ids.candidates)
    && r.pageId == receipt.pageId && r.revisionId == receipt.revisionId && r.contentSha == receipt.revision.sha && r.changed == receipt.changed
    && |r.candidates| == |es| && forall i :: 0 <= i < |es| ==> AnswersRow(env, d, req, receipt, es[i], r.candidates[i])
  }

  lemma IngestWritesColumns(env: Env, db: Db, req: Ingest, ids: Ids)
    requires RuleEmbeddingsUnique(db) && FiltersStored(db) && |ids.candidates| >= req.maxCandidates && IngestPage(env, db, req, ids).1.Ok?
    ensures var (d, r) := IngestPage(env, db, req, ids);
            var (receipt, es) := Selected(env, db, req, ids);
            IngestColumns(env, db, req, ids, d, receipt, es, r.value)
  {
    var (db1, receipt) := UpsertPage(env, db, req, ids);
    var es := FindCandidates(env, db1, req);
    UpsertWritesPage(env, db, req, ids);
    FindCandidatesAgrees(env, db, db1, req);
    SelectionIsNearest(env, db, req);
    FindCandidatesAdmitted(env, db1, req);
    PersistAllPersists(env, db1, req, receipt, es, ids.candidates);
    LoopAddsRows(env, db1, req, receipt, es, ids.candidates);
    var (d, out) := PersistAll(env, db1, req, receipt, es, ids.candidates).value;
    forall i | 0 <= i < |es| ensures AnswersRow(env, d, req, receipt, es[i], out[i]) {
      ReturnedAnswers(env, d, req, receipt, es[i], out[i]);
    }
    SameAdded(env, db, db1, d, req, receipt, es, ids.candidates);
  }

  lemma SameAdded(env: Env, db: Db, db1: Db, d: Db, req: Ingest, receipt: PageReceipt, es: seq<RuleEmbedding>, ids: seq<Uuid>)
    requires |es| <= |ids| && db1.candidates == db.candidates && db1.ruleRevisions == db.ruleRevisions
    requires AddsReverseRows(env, db1, d, req, receipt, es, ids)
    ensures AddsReverseRows(env, db, d, req, receipt, es, ids)
  {
    forall k | k in d.candidates && k !in db.candidates ensures IsReverseRow(env, db, req, receipt, es, ids, k, d.candidates[k]) {
      assert IsReverseRow(env, db1, req, receipt, es, ids, k, d.candidates[k]);
      var i :| 0 <= i < |es| && ReverseColumns(env, db1, req, receipt, es[i], ids[i], k, d.candidates[k]);
      assert ReverseColumns(env, db, req, receipt, es[i], ids[i], k, d.candidates[k]);
    }
  }

  // ---------------------------------------------------------------- what a search finds

  /** The page embedding comes after the cursor in the order of a query. */
  predicate After(env: Env, vector: seq<F32>, cursor: Option<Rank>, e: PageEmbedding) {
    cursor.None? || Nearer(cursor.value.distance, cursor.value.id, env.distance(e.vector, vector), e.id)
  }

  /**
   The nearest page embeddings that are wanted and come after the cursor, in order: one is left out only if as many
   nearer ones as asked for are on the page.
   */
  ghost predicate FindsNearest(env: Env, db: Db, vector: seq<F32>, wanted: PageEmbedding -> bool, cursor: Option<Rank>, limit: nat,
                               hits: seq<PageEmbedding>)
  {
    && |hits| <= limit
    && (forall i :: 0 <= i < |hits| ==> hits[i] in db.pageEmbeddings && wanted(hits[i]) && After(env, vector, cursor, hits[i]))
    && (forall i, j :: 0 <= i < j < |hits| ==>
          Nearer(env.distance(hits[i].vector, vector), hits[i].id, env.distance(hits[j].vector, vector), hits[j].id))
    && (forall e :: e in db.pageEmbeddings && wanted(e) && After(env, vector, cursor, e) && e !in hits ==>
          |hits| == limit
          && forall i :: 0 <= i < |hits| ==>
               Nearer(env.distance(hits[i].vector, vector), hits[i].id, env.distance(e.vector, vector), e.id))
  }

  /** There is a next cursor, at the last hit, exactly when a wanted row is left out; every such row comes after it. */
  ghost predicate PointsOn(env: Env, db: Db, vector: seq<F32>, wanted: PageEmbedding -> bool, cursor: Option<Rank>,
                           page: Paging.Page<PageEmbedding>)
  {
    && (page.next.None? <==> forall e :: e in db.pageEmbeddings && wanted(e) && After(env, vector, cursor, e) ==> e in page.hits)
    && (page.next.Some? ==>
          && page.hits != []
          && var last := page.hits[|page.hits| - 1];
             page.next.value == Rank(env.distance(last.vector, vector), last.id))
    && (forall e :: e in db.pageEmbeddings && wanted(e) && After(env, vector, cursor, e) && e !in page.hits ==>
          After(env, vector, page.next, e))
  }

  /** In the request's tenant and model space, of a stored revision and page, from a requested source, and similar enough. */
  predicate Sought(env: Env, db: Db, req: Search, e: PageEmbedding) {
    && e.revision.page.tenant == req.tenant
    && e.space.model == req.space.model && e.space.version == req.space.version
    && e.space.dimensions == req.space.dimensions && e.space.normalization == req.space.normalization
    && e.revision in db.revisions && e.revision.page in db.pages
    && (req.sources != [] ==> e.revision.page.source in req.sources)
    && 1.0 - env.distance(e.vector, req.vector) >= req.minSimilarity
  }

  lemma ScopeIsSought(env: Env, db: Db, req: Search, e: PageEmbedding)
    ensures InScope(env, db, req, e) <==> Sought(env, db, req, e)
  {
  }

  lemma ScopedRowsAreSought(env: Env, db: Db, req: Search, e: PageEmbedding)
    ensures e in ScopedRows(env, db, req) <==> e in db.pageEmbeddings && Sought(env, db, req, e)
  {
    ScopeIsSought(env, db, req, e);
  }

  /** A page of rows that are the wanted ones is found in order, and points on. */
  lemma NextPageFinds(env: Env, db: Db, vector: seq<F32>, rows: seq<PageEmbedding>, wanted: PageEmbedding -> bool, cursor: Option<Rank>,
                      limit: nat, page: Paging.Page<PageEmbedding>)
    requires Paging.IsNextPage(PageRankOf(env, vector), rows, cursor, limit, page)
    requires forall e :: e in rows <==> e in db.pageEmbeddings && wanted(e)
    ensures FindsNearest(env, db, vector, wanted, cursor, limit, page.hits)
    ensures limit >= 1 ==> PointsOn(env, db, vector, wanted, cursor, page)
  {
    var key := PageRankOf(env, vector);
    forall e ensures After(env, vector, cursor, e) <==> Paging.AfterCursor(cursor, key(e)) {
    }
    forall i | 0 <= i < |page.hits|
      ensures page.hits[i] in db.pageEmbeddings && wanted(page.hits[i]) && After(env, vector, cursor, page.hits[i])
    {
      assert page.hits[i] in page.hits;
    }
    forall i, j | 0 <= i < j < |page.hits|
      ensures Nearer(env.distance(page.hits[i].vector, vector), page.hits[i].id, env.distance(page.hits[j].vector, vector), page.hits[j].id)
    {
      assert Before(key(page.hits[i]), key(page.hits[j]));
    }
    forall e, i | e in db.pageEmbeddings && wanted(e) && After(env, vector, cursor, e) && e !in page.hits && 0 <= i < |page.hits|
      ensures Nearer(env.distance(page.hits[i].vector, vector), page.hits[i].id, env.distance(e.vector, vector), e.id)
    {
      assert page.hits[i] in page.hits && Before(key(page.hits[i]), key(e));
    }
  }

  /** The page has the nearest rows sought after the cursor and, if it may hold any, points on to those left out. */
  ghost predicate SearchColumns(env: Env, db: Db, req: Search, page: Paging.Page<PageEmbedding>) {
    var sought := (e: PageEmbedding) => Sought(env, db, req, e);
    && FindsNearest(env, db, req.vector, sought, req.cursor, req.limit, page.hits)
    && (req.limit >= 1 ==> PointsOn(env, db, req.vector, sought, req.cursor, page))
  }

  lemma SearchFindsSought(env: Env, db: Db, req: Search)
    requires PageEmbeddingsUnique(db)
    ensures SearchColumns(env, db, req, SearchPage(env, db, req))
  {
    PagesOfScope(env, db, req);
    forall e ensures e in ScopedRows(env, db, req) <==> e in db.pageEmbeddings && Sought(env, db, req, e) {
      ScopedRowsAreSought(env, db, req, e);
    }
    NextPageFinds(env, db, req.vector, ScopedRows(env, db, req), e => Sought(env, db, req, e), req.cursor, req.limit, SearchPage(env, db, req));
  }

  lemma PagesOfScope(env: Env, db: Db, req: Search)
    requires PageEmbeddingsUnique(db)
    ensures Paging.IsNextPage(PageRankOf(env, req.vector), ScopedRows(env, db, req), req.cursor, req.limit, SearchPage(env, db, req))
  {
    var key := PageRankOf(env, req.vector);
    assert DistinctRanks(key, db.pageEmbeddings);
    FilterDistinct(key, db.pageEmbeddings, e => InScope(env, db, req, e));
    Paging.FetchIsNextPage(key, ScopedRows(env, db, req), req.cursor, req.limit);
  }

  // ---------------------------------------------------------------- what an evaluation finds and writes

  /** The columns of the active revision an accepted request evaluates. */
  function Evaluated(db: Db, req: EvaluateRequest): RuleRevision
    requires Accepts(db, req)
  {
    db.ruleRevisions[db.rules[req.rule].active.value]
  }

  function Threshold(db: Db, req: EvaluateRequest): real
    requires Accepts(db, req)
  {
    var stored := Evaluated(db, req).threshold;
    if req.threshold.value < stored then stored else req.threshold.value
  }

  /**
   In the caller's tenant and the request's model space, of a stored revision and page, from a requested source or, if none
   is requested, from the rule's scope, and as similar as the request and the cast of the higher threshold demand.
   */
  predicate Evaluable(env: Env, db: Db, req: EvaluateRequest, e: PageEmbedding)
    requires Accepts(db, req)
  {
    var scope := ParseIds(Evaluated(db, req).sourceFilters).value;
    && e.revision.page.tenant == req.ctx.tenant && e.space == req.search.space
    && e.revision in db.revisions && e.revision.page in db.pages
    && (if req.search.sources != [] then e.revision.page.source in req.search.sources else scope == [] || e.revision.page.source in scope)
    && 1.0 - env.distance(e.vector, req.search.vector) >= req.search.minSimilarity
    && 1.0 - env.distance(e.vector, req.search.vector) >= env.round(Threshold(db, req))
  }

  /** The rows an evaluation meets. */
  function HitsOf(env: Env, db: Db, req: EvaluateRequest): seq<PageEmbedding>
    requires Accepts(db, req)
  {
    PlannedIff(db, req);
    SearchPage(env, db, RaisedSearch(env, PlanEvaluation(db, req).value)).hits
  }

  lemma PlanColumns(env: Env, db: Db, req: EvaluateRequest)
    requires Accepts(db, req)
    ensures PlanEvaluation(db, req).Ok?
    ensures var plan := PlanEvaluation(db, req).value;
            && plan.rule == req.rule && plan.ruleRevision == db.rules[req.rule].active.value && plan.threshold == Threshold(db, req)
            && plan.search == req.search.(tenant := req.ctx.tenant, sources := plan.search.sources)
            && Constrain(Evaluated(db, req).sourceFilters, req.search.sources) == Ok(plan.search.sources)
  {
    PlannedIff(db, req);
  }

  lemma ScopeIsEvaluable(env: Env, db: Db, req: EvaluateRequest, e: PageEmbedding)
    requires Accepts(db, req)
    ensures PlanEvaluation(db, req).Ok?
    ensures InScope(env, db, RaisedSearch(env, PlanEvaluation(db, req).value), e) <==> Evaluable(env, db, req, e)
  {
    PlanColumns(env, db, req);
    ConstrainMeaning(Evaluated(db, req).sourceFilters, req.search.sources);
    var sources := PlanEvaluation(db, req).value.search.sources;
    if req.search.sources != [] {
      assert req.search.sources[0] in sources;
    } else if sources != [] {
      assert sources[0] in sources;
    }
  }

  /** An accepted evaluation finds the nearest rows it may match. */
  lemma EvaluationFindsNearest(env: Env, db: Db, req: EvaluateRequest)
    requires PageEmbeddingsUnique(db) && Accepts(db, req)
    ensures FindsNearest(env, db, req.search.vector, e => Evaluable(env, db, req, e), req.search.cursor, req.search.limit, HitsOf(env, db, req))
  {
    PlanColumns(env, db, req);
    var search := RaisedSearch(env, PlanEvaluation(db, req).value);
    PagesOfScope(env, db, search);
    forall e ensures e in ScopedRows(env, db, search) <==> e in db.pageEmbeddings && Evaluable(env, db, req, e) {
      ScopeIsEvaluable(env, db, req, e);
    }
    NextPageFinds(env, db, req.search.vector, ScopedRows(env, db, search), e => Evaluable(env, db, req, e), req.search.cursor, req.search.limit,
      SearchPage(env, db, search));
  }

  /** The key of a plan's match with a hit. */
  function PlanKey(env: Env, db: Db, plan: Ledger.Evaluation, h: PageEmbedding): CandidateKey
    requires h.revision in db.revisions
  {
    CandidateKey(plan.search.tenant, MatchKey(env.sha,
      MatchIdentity(plan.search.tenant, plan.rule, plan.ruleRevision, db.revisions[h.revision].id, h.revision.sha, h.space)))
  }

  /** A new row of the historical path: pending, with the embedding that was found, its similarity and the composed threshold. */
  predicate HistoricalColumns(env: Env, db: Db, plan: Ledger.Evaluation, h: PageEmbedding, id: Uuid, key: CandidateKey, row: Candidate) {
    && h.revision in db.revisions && key == PlanKey(env, db, plan, h)
    && row == Candidate(id, plan.rule, plan.ruleRevision, h.revision, Historical(h.id), 1.0 - env.distance(h.vector, plan.search.vector),
                        plan.threshold, Pending, 0)
  }

  predicate IsHistoricalRow(env: Env, db: Db, plan: Ledger.Evaluation, hits: seq<PageEmbedding>, ids: seq<Uuid>, n: nat, key: CandidateKey, row: Candidate)
    requires n <= |hits| <= |ids|
  {
    exists i :: 0 <= i < n && HistoricalColumns(env, db, plan, hits[i], ids[i], key, row)
  }

  /** The match of the hit is recorded by the reverse path. */
  predicate HeldHit(env: Env, db: Db, plan: Ledger.Evaluation, h: PageEmbedding) {
    h.revision in db.revisions && PlanKey(env, db, plan, h) in db.candidates && db.candidates[PlanKey(env, db, plan, h)].evidence.Reverse?
  }

  /** The first `n` hits are recorded, none was held, and nothing else was added. */
  ghost predicate Wrote(env: Env, db: Db, plan: Ledger.Evaluation, hits: seq<PageEmbedding>, ids: seq<Uuid>, n: nat, d: Db)
    requires n <= |hits| <= |ids|
  {
    && (forall i :: 0 <= i < n ==> hits[i].revision in db.revisions && PlanKey(env, db, plan, hits[i]) in d.candidates && !HeldHit(env, db, plan, hits[i]))
    && (forall k :: k in d.candidates && k !in db.candidates ==> IsHistoricalRow(env, db, plan, hits, ids, n, k, d.candidates[k]))
  }

  /** What is returned for a hit is the row that records its match. */
  predicate AnswersHit(env: Env, db: Db, d: Db, plan: Ledger.Evaluation, h: PageEmbedding, c: Candidate) {
    && h.revision in db.revisions && PlanKey(env, db, plan, h) in d.candidates && d.candidates[PlanKey(env, db, plan, h)] == c
    && c.rule == plan.rule && c.ruleRevision == plan.ruleRevision && c.revision == h.revision && c.evidence == Historical(h.id)
  }

  /** The loop records every hit and answers in order, or stops at the first held one with the earlier rows in place. */
  ghost predicate Recorded(env: Env, db: Db, plan: Ledger.Evaluation, hits: seq<PageEmbedding>, ids: seq<Uuid>, d: Db, r: Result<seq<Candidate>, Failure>)
    requires |hits| <= |ids|
  {
    if r.Ok? then
      Wrote(env, db, plan, hits, ids, |hits|, d)
      && |r.value| == |hits| && forall i :: 0 <= i < |hits| ==> AnswersHit(env, db, d, plan, hits[i], r.value[i])
    else
      r.error == Internal && exists n :: 0 <= n < |hits| && HeldHit(env, db, plan, hits[n]) && Wrote(env, db, plan, hits, ids, n, d)
  }

  /** One write after the loop so far. */
  ghost predicate OneRecorded(env: Env, db: Db, d: Db, plan: Ledger.Evaluation, h: PageEmbedding, id: Uuid, w: Result<(Db, Candidate), Failure>) {
    if w.Err? then w.error == Internal && HeldHit(env, db, plan, h)
    else
      && !HeldHit(env, db, plan, h) && AnswersHit(env, db, w.value.0, plan, h, w.value.1)
      && (forall k :: k in d.candidates ==> k in w.value.0.candidates && w.value.0.candidates[k] == d.candidates[k])
      && (forall k :: k in w.value.0.candidates ==> k in d.candidates || HistoricalColumns(env, db, plan, h, id, k, w.value.0.candidates[k]))
  }

  lemma WriteEffect(env: Env, db: Db, d: Db, plan: Ledger.Evaluation, h: PageEmbedding, id: Uuid)
    requires h.revision in d.revisions && d.revisions == db.revisions
    ensures var w := PersistHistorical(env, d, plan.search.tenant, plan.rule, plan.ruleRevision, h, plan.search.vector, plan.threshold, id);
            if w.Err? then w.error == Internal
            else
              && AnswersHit(env, db, w.value.0, plan, h, w.value.1)
              && (forall k :: k in d.candidates ==> k in w.value.0.candidates && w.value.0.candidates[k] == d.candidates[k])
              && (forall k :: k in w.value.0.candidates ==> k in d.candidates || HistoricalColumns(env, db, plan, h, id, k, w.value.0.candidates[k]))
  {
  }

  lemma HeldIsHeld(env: Env, db: Db, plan: Ledger.Evaluation, h: PageEmbedding)
    requires h.revision in db.revisions
    ensures HeldHit(env, db, plan, h) <==> HeldByReverse(env, db, plan.search.tenant, plan.rule, plan.ruleRevision, h)
  {
  }

  lemma WriteRecords(env: Env, db: Db, d: Db, plan: Ledger.Evaluation, h: PageEmbedding, id: Uuid,
                     w: Result<(Db, Candidate), Failure>)
    requires h.revision in db.revisions && d.revisions == db.revisions
    requires w == PersistHistorical(env, d, plan.search.tenant, plan.rule, plan.ruleRevision, h, plan.search.vector, plan.threshold, id)
    requires w.Err? <==> HeldByReverse(env, db, plan.search.tenant, plan.rule, plan.ruleRevision, h)
    ensures OneRecorded(env, db, d, plan, h, id, w)
  {
    WriteEffect(env, db, d, plan, h, id);
    HeldIsHeld(env, db, plan, h);
  }

  lemma RecordsOneMore(env: Env, db: Db, plan: Ledger.Evaluation, hits: seq<PageEmbedding>, ids: seq<Uuid>, d: Db, out: seq<Candidate>,
                       w: Result<(Db, Candidate), Failure>)
    requires 0 < |hits| <= |ids| && Recorded(env, db, plan, hits[..|hits| - 1], ids, d, Ok(out))
    requires OneRecorded(env, db, d, plan, hits[|hits| - 1], ids[|hits| - 1], w)
    ensures w.Err? ==> Recorded(env, db, plan, hits, ids, d, Err(w.error))
    ensures w.Ok? ==> Recorded(env, db, plan, hits, ids, w.value.0, Ok(out + [w.value.1]))
  {
    var n := |hits| - 1;
    WroteLonger(env, db, plan, hits, ids, n, d);
    if w.Ok? {
      WroteOneMore(env, db, plan, hits, ids, d, w.value.0, w.value.1);
      AnswersOneMore(env, db, plan, hits, d, out, w.value.0, w.value.1);
    }
  }

  lemma AnswersOneMore(env: Env, db: Db, plan: Ledger.Evaluation, hits: seq<PageEmbedding>, d: Db, out: seq<Candidate>, d': Db, c: Candidate)
    requires |hits| == |out| + 1 && AnswersHit(env, db, d', plan, hits[|out|], c)
    requires forall k :: k in d.candidates ==> k in d'.candidates && d'.candidates[k] == d.candidates[k]
    requires forall i :: 0 <= i < |out| ==> AnswersHit(env, db, d, plan, hits[..|hits| - 1][i], out[i])
    ensures forall i :: 0 <= i < |hits| ==> AnswersHit(env, db, d', plan, hits[i], (out + [c])[i])
  {
    forall i | 0 <= i < |out| ensures AnswersHit(env, db, d', plan, hits[i], out[i]) {
      assert AnswersHit(env, db, d, plan, hits[..|hits| - 1][i], out[i]);
    }
  }

  lemma WroteOneMore(env: Env, db: Db, plan: Ledger.Evaluation, hits: seq<PageEmbedding>, ids: seq<Uuid>, d: Db, d': Db, c: Candidate)
    requires 0 < |hits| <= |ids| && Wrote(env, db, plan, hits, ids, |hits| - 1, d)
    requires OneRecorded(env, db, d, plan, hits[|hits| - 1], ids[|hits| - 1], Ok((d', c)))
    ensures Wrote(env, db, plan, hits, ids, |hits|, d')
  {
    var n := |hits| - 1;
    forall k | k in d'.candidates && k !in db.candidates ensures IsHistoricalRow(env, db, plan, hits, ids, |hits|, k, d'.candidates[k]) {
      if k in d.candidates {
        var i :| 0 <= i < n && HistoricalColumns(env, db, plan, hits[i], ids[i], k, d.candidates[k]);
        assert HistoricalColumns(env, db, plan, hits[i], ids[i], k, d'.candidates[k]);
      } else {
        assert HistoricalColumns(env, db, plan, hits[n], ids[n], k, d'.candidates[k]);
      }
    }
  }

  /** What the first hits left is the same among more hits. */
  lemma WroteLonger(env: Env, db: Db, plan: Ledger.Evaluation, hits: seq<PageEmbedding>, ids: seq<Uuid>, n: nat, d: Db)
    requires 0 < |hits| <= |ids| && n < |hits| && Wrote(env, db, plan, hits[..|hits| - 1], ids, n, d)
    ensures Wrote(env, db, plan, hits, ids, n, d)
  {
    var front := hits[..|hits| - 1];
    forall i | 0 <= i < n ensures hits[i] == front[i] {
    }
    forall k | k in d.candidates && k !in db.candidates ensures IsHistoricalRow(env, db, plan, hits, ids, n, k, d.candidates[k]) {
      assert IsHistoricalRow(env, db, plan, front, ids, n, k, d.candidates[k]);
      var i :| 0 <= i < n && HistoricalColumns(env, db, plan, front[i], ids[i], k, d.candidates[k]);
      assert HistoricalColumns(env, db, plan, hits[i], ids[i], k, d.candidates[k]);
    }
  }

  lemma StoppedEarlier(env: Env, db: Db, plan: Ledger.Evaluation, hits: seq<PageEmbedding>, ids: seq<Uuid>, d: Db, f: Failure)
    requires 0 < |hits| <= |ids| && Recorded(env, db, plan, hits[..|hits| - 1], ids, d, Err(f))
    ensures Recorded(env, db, plan, hits, ids, d, Err(f))
  {
    var front := hits[..|hits| - 1];
    var n :| 0 <= n < |front| && HeldHit(env, db, plan, front[n]) && Wrote(env, db, plan, front, ids, n, d);
    WroteLonger(env, db, plan, hits, ids, n, d);
    assert HeldHit(env, db, plan, hits[n]);
  }

  lemma {:induction false} LoopRecords(env: Env, db: Db, plan: Ledger.Evaluation, hits: seq<PageEmbedding>, ids: seq<Uuid>)
    requires |hits| <= |ids| && Injective(env.sha) && LedgerInv(env, db) && HitsFit(env, db, plan, hits)
    ensures Recorded(env, db, plan, hits, ids, EvaluateHits(env, db, plan, hits, ids).0, EvaluateHits(env, db, plan, hits, ids).1)
    decreases |hits|
  {
    if hits == [] {
      assert EvaluateHits(env, db, plan, hits, ids) == (db, Ok([]));
    } else {
      var n := |hits| - 1;
      LoopRecords(env, db, plan, hits[..n], ids);
      HitStep(env, db, plan, hits, ids);
      var (d, r) := EvaluateHits(env, db, plan, hits[..n], ids);
      if r.Ok? {
        LoopFailsIff(env, db, plan, hits[..n], ids);
        LoopAddsHistorical(env, db, plan, hits[..n], ids);
        LastHitFits(env, db, plan, hits);
        NextHit(env, db, d, plan, hits[n], ids[n]);
        var w := PersistHistorical(env, d, plan.search.tenant, plan.rule, plan.ruleRevision, hits[n], plan.search.vector, plan.threshold, ids[n]);
        WriteRecords(env, db, d, plan, hits[n], ids[n], w);
        RecordsOneMore(env, db, plan, hits, ids, d, r.value, w);
      } else {
        StoppedEarlier(env, db, plan, hits, ids, d, r.error);
      }
    }
  }

  lemma AddedIsPending(env: Env, db: Db, plan: Ledger.Evaluation, hits: seq<PageEmbedding>, ids: seq<Uuid>, d: Db,
                       r: Result<seq<Candidate>, Failure>, k: CandidateKey)
    requires |hits| <= |ids| && Recorded(env, db, plan, hits, ids, d, r) && k in d.candidates && k !in db.candidates
    ensures d.candidates[k].status == Pending
  {
    if r.Ok? {
      WroteIsPending(env, db, plan, hits, ids, |hits|, d, k);
    } else {
      var n :| 0 <= n < |hits| && HeldHit(env, db, plan, hits[n]) && Wrote(env, db, plan, hits, ids, n, d);
      WroteIsPending(env, db, plan, hits, ids, n, d, k);
    }
  }

  lemma WroteIsPending(env: Env, db: Db, plan: Ledger.Evaluation, hits: seq<PageEmbedding>, ids: seq<Uuid>, n: nat, d: Db, k: CandidateKey)
    requires n <= |hits| <= |ids| && Wrote(env, db, plan, hits, ids, n, d) && k in d.candidates && k !in db.candidates
    ensures d.candidates[k].status == Pending
  {
    assert IsHistoricalRow(env, db, plan, hits, ids, n, k, d.candidates[k]);
  }

  /** An accepted evaluation: its plan in the request's terms, the rows it finds, and what it records and answers for them. */
  ghost predicate EvaluationColumns(env: Env, db: Db, req: EvaluateRequest, ids: seq<Uuid>, d: Db, r: Result<seq<Candidate>, Failure>)
    requires Accepts(db, req)
  {
    PlannedIff(db, req);
    var plan := PlanEvaluation(db, req).value;
    var hits := HitsOf(env, db, req);
    && plan.rule == req.rule && plan.ruleRevision == db.rules[req.rule].active.value && plan.threshold == Threshold(db, req)
    && plan.search.tenant == req.ctx.tenant && plan.search.vector == req.search.vector
    && FindsNearest(env, db, req.search.vector, e => Evaluable(env, db, req, e), req.search.cursor, req.search.limit, hits)
    && |hits| <= |ids| && Recorded(env, db, plan, hits, ids, d, r)
  }

  lemma EvaluationWritesColumns(env: Env, db: Db, req: EvaluateRequest, ids: seq<Uuid>)
    requires Injective(env.sha) && Rounding(env.round) && ThresholdsStored(env, db) && LedgerInv(env, db)
    requires Accepts(db, req) && |ids| >= req.search.limit
    ensures EvaluationColumns(env, db, req, ids, EvaluateMatches(env, db, req, ids).0, EvaluateMatches(env, db, req, ids).1)
  {
    PlanColumns(env, db, req);
    EvaluationFindsNearest(env, db, req);
    var plan := PlanEvaluation(db, req).value;
    HitsRespectRule(env, db, req);
    assert HitsFit(env, db, plan, HitsOf(env, db, req));
    LoopRecords(env, db, plan, HitsOf(env, db, req), ids);
  }

  // ---------------------------------------------------------------- what the store keeps of rules and their embeddings

  /** Every rule embedding belongs to an enabled revision of a rule of its tenant, configured for its model. */
  predicate EmbeddingsServe(db: Db) {
    forall e :: e in db.ruleEmbeddings ==> EmbeddingServes(db, e)
  }

  predicate EmbeddingServes(db: Db, e: RuleEmbedding) {
    && e.rule in db.rules && db.rules[e.rule].tenant == e.tenant && e.ruleRevision in db.ruleRevisions
    && var revision := db.ruleRevisions[e.ruleRevision];
       revision.tenant == e.tenant && revision.rule == e.rule && revision.enabled && revision.model == e.space.model
  }

  predicate RulesServe(db: Db) {
    FiltersStored(db) && EmbeddingsServe(db)
  }

  /** The rules and revisions that embeddings belong to persist, and new revisions store normal filters. */
  lemma RulesGrow(db: Db, db': Db)
    requires RulesServe(db) && db'.ruleEmbeddings == db.ruleEmbeddings && FiltersStored(db')
    requires forall r :: r in db.rules ==> r in db'.rules && db'.rules[r].tenant == db.rules[r].tenant
    requires forall v :: v in db.ruleRevisions ==> v in db'.ruleRevisions && db'.ruleRevisions[v] == db.ruleRevisions[v]
    ensures RulesServe(db')
  {
    forall e | e in db'.ruleEmbeddings ensures EmbeddingServes(db', e) {
      assert EmbeddingServes(db, e);
    }
  }

  lemma UpsertAppends(env: Env, db: Db, req: EmbeddingRequest, id: Uuid)
    ensures var db' := UpsertEmbedding(env, db, req, id).0;
            || db' == db
            || (IsTarget(db, req) && db' == db.(ruleEmbeddings := db.ruleEmbeddings
                 + [RuleEmbedding(id, req.tenant, req.rule, req.ruleRevision, req.space, req.vector, Fingerprint(env, req.vector))]))
  {
  }

  lemma TargetEmbeddingServes(db: Db, e: RuleEmbedding)
    requires IsTarget(db, EmbeddingRequest(e.tenant, e.rule, e.ruleRevision, e.space, e.vector)) && RulesServe(db)
    ensures RulesServe(db.(ruleEmbeddings := db.ruleEmbeddings + [e]))
  {
    var db' := db.(ruleEmbeddings := db.ruleEmbeddings + [e]);
    forall f | f in db'.ruleEmbeddings ensures EmbeddingServes(db', f) {
      assert f == e || EmbeddingServes(db, f);
    }
  }

  lemma UpsertKeepsServing(env: Env, db: Db, req: EmbeddingRequest, id: Uuid)
    requires RulesServe(db)
    ensures RulesServe(UpsertEmbedding(env, db, req, id).0)
  {
    UpsertAppends(env, db, req, id);
    if UpsertEmbedding(env, db, req, id).0 != db {
      TargetEmbeddingServes(db, RuleEmbedding(id, req.tenant, req.rule, req.ruleRevision, req.space, req.vector, Fingerprint(env, req.vector)));
    }
  }
}
