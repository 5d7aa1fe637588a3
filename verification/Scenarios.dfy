/**
 Runs from the empty store: a published rule, its embedding, an ingested page and its stored
 embedding. They show that the failures of the ledger and the gaps between a requested threshold
 and what an evaluation returns are met by stores the service itself builds.
 */
module Scenarios {
  import opened Wrappers
  import opened Uuids
  import opened MatchKeys
  import opened Ranking
  import Paging
  import opened Activation
  import opened ActivationProof
  import opened ActivationRuns
  import opened Ledger
  import opened LedgerProof
  import opened PageHistory
  import opened Evaluation
  import opened LedgerRuns

  /** One rule without source filters, one page, one model space. */
  datatype Setting = Setting(tenant: Uuid, owner: string, rule: Uuid, revision: Uuid, source: Uuid, url: string, content: string,
                             space: Space, threshold: Unit)

  ghost predicate Usable(env: Env, w: Setting) {
    w.rule != w.revision && 1 <= |w.owner| <= 256 && env.round(w.threshold) == w.threshold
  }

  // ---------------------------------------------------------------- the rule is published

  function CreationIn(w: Setting): Creation {
    Creation(w.tenant, w.owner, w.rule, w.revision, true)
  }

  function ColumnsIn(w: Setting): Uuid -> RuleColumns {
    _ => RuleColumns(w.space.model, w.threshold, [])
  }

  function RevisionIn(w: Setting): RuleRevision {
    RuleRevision(w.tenant, w.rule, true, w.space.model, w.threshold, [])
  }

  function Ruled(w: Setting): Db {
    EMPTY_DB.(rules := map[w.rule := Rule(w.tenant, w.owner, Some(w.revision))], ruleRevisions := map[w.revision := RevisionIn(w)])
  }

  lemma CreationCommits(hash: string -> int, w: Setting)
    requires w.rule != w.revision && 1 <= |w.owner| <= 256
    ensures Run(hash, EMPTY, CreateScript(0, CreationIn(w))) == Some(State(Created(EMPTY.committed, CreationIn(w)), map[], map[]))
  {
    var c := CreationIn(w);
    assert ActiveSet(EMPTY.committed, c.tenant, c.subject) == {};
    CreationSucceedsBelowLimit(hash, EMPTY, 0, c);
  }

  lemma RuleIsPublished(env: Env, hash: string -> int, w: Setting)
    requires Usable(env, w)
    ensures Reachable(env, Ruled(w), [])
  {
    var c := CreationIn(w);
    var step := PublishRules(hash, EMPTY, CreateScript(0, c), ColumnsIn(w));
    CreationCommits(hash, w);
    assert TablesOf(EMPTY_DB.rules, EMPTY_DB.ruleRevisions) == EMPTY.committed;
    var after := RevisionsAfter(EMPTY_DB.ruleRevisions, Created(EMPTY.committed, c), ColumnsIn(w));
    assert after == map[w.revision := RevisionIn(w)];
    EmptyIsReachable(env);
    ReachNext(env, EMPTY_DB, [], step, Ruled(w), []);
  }

  // ---------------------------------------------------------------- selections from one row

  lemma SelectOnly<T(!new)>(key: T -> Rank, x: T, keep: T -> bool, k: nat)
    requires keep(x) && k >= 1
    ensures Select(key, [x], keep, k) == [x]
  {
    assert x in Filter([x], keep) && x in Sort(key, Filter([x], keep));
  }

  lemma FetchOnly<T(!new)>(key: T -> Rank, x: T, limit: nat)
    requires limit >= 1
    ensures Paging.Fetch(key, [x], None, limit).hits == [x]
  {
    var after := Filter([x], y => Paging.AfterCursor(None, key(y)));
    assert x in after && x in Sort(key, after);
  }

  lemma SearchOnly(env: Env, db: Db, req: Search, row: PageEmbedding)
    requires db.pageEmbeddings == [row] && InScope(env, db, req, row) && req.cursor.None? && req.limit >= 1
    ensures SearchPage(env, db, req).hits == [row]
  {
    assert row in ScopedRows(env, db, req);
    assert ScopedRows(env, db, req) == [row];
    FetchOnly(PageRankOf(env, req.vector), row, req.limit);
  }

  // ---------------------------------------------------------------- the page is ingested

  function PageIn(w: Setting, vector: seq<F32>): Ingest {
    Ingest(w.tenant, w.source, w.url, w.url, None, w.content, 0, w.space, vector, 1)
  }

  lemma IngestLeads(env: Env, db: Db, log: Log, req: Ingest, ids: Ids)
    requires Reachable(env, db, log) && |ids.candidates| >= req.maxCandidates && FreshRevision(db, ids.revision)
    ensures var (d, r) := IngestPage(env, db, req, ids);
            Reachable(env, d, if r.Ok? then log + [VisitOf(req)] else log)
  {
    var step := IngestAndReverseMatch(req, ids);
    ReachNext(env, db, log, step, Apply(env, db, step), Recorded(env, db, log, step));
  }

  function EmbeddingIn(env: Env, w: Setting, vector: seq<F32>, id: Uuid): RuleEmbedding {
    RuleEmbedding(id, w.tenant, w.rule, w.revision, w.space, vector, Fingerprint(env, vector))
  }

  function Embedded(env: Env, w: Setting, vector: seq<F32>, id: Uuid): Db {
    Ruled(w).(ruleEmbeddings := [EmbeddingIn(env, w, vector, id)])
  }

  lemma EmbeddingIsStored(env: Env, hash: string -> int, w: Setting, vector: seq<F32>, id: Uuid)
    requires Usable(env, w)
    ensures Reachable(env, Embedded(env, w, vector, id), [])
  {
    RuleIsPublished(env, hash, w);
    var req := EmbeddingRequest(w.tenant, w.rule, w.revision, w.space, vector);
    assert UpsertEmbedding(env, Ruled(w), req, id).0 == Embedded(env, w, vector, id);
    ReachNext(env, Ruled(w), [], UpsertRuleEmbedding(req, id), Embedded(env, w, vector, id), []);
  }

  /** The page's vector reaches the rule's threshold. */
  predicate Matches(env: Env, w: Setting, ruleVector: seq<F32>, vector: seq<F32>) {
    1.0 - env.distance(ruleVector, vector) >= w.threshold
  }

  /** Any store with the rule active and its embedding the only one selects it for a matching page. */
  lemma SelectsTheRule(env: Env, db: Db, w: Setting, ruleVector: seq<F32>, vector: seq<F32>, id: Uuid)
    requires db.rules == Ruled(w).rules && db.ruleRevisions == Ruled(w).ruleRevisions
    requires db.ruleEmbeddings == [EmbeddingIn(env, w, ruleVector, id)] && Matches(env, w, ruleVector, vector)
    ensures FindCandidates(env, db, PageIn(w, vector)) == [EmbeddingIn(env, w, ruleVector, id)]
  {
    var req, e := PageIn(w, vector), EmbeddingIn(env, w, ruleVector, id);
    assert Qualifies(env, db, req, e);
    SelectOnly(RankOf(env, vector), e, x => Qualifies(env, db, req, x), req.maxCandidates);
  }

  /** The first ingest of a matching page meets an empty ledger, so it succeeds. */
  lemma FirstIngestSucceeds(env: Env, hash: string -> int, w: Setting, ruleVector: seq<F32>, vector: seq<F32>, id: Uuid, ids: Ids)
    requires Injective(env.sha) && Rounding(env.round) && Usable(env, w) && Matches(env, w, ruleVector, vector) && |ids.candidates| >= 1
    ensures var db, req := Embedded(env, w, ruleVector, id), PageIn(w, vector);
            && LedgerInv(env, db) && FreshRevision(db, ids.revision) && IngestPage(env, db, req, ids).1.Ok?
            && Selected(env, db, req, ids).1 == [EmbeddingIn(env, w, ruleVector, id)]
            && Reachable(env, IngestPage(env, db, req, ids).0, [VisitOf(req)])
  {
    var db, req := Embedded(env, w, ruleVector, id), PageIn(w, vector);
    EmbeddingIsStored(env, hash, w, ruleVector, id);
    ReachableFits(env, db, []);
    IngestFailsIff(env, db, req, ids);
    SelectsTheRule(env, UpsertPage(env, db, req, ids).0, w, ruleVector, vector, id);
    assert !AnyBlocked(env, db, req, Selected(env, db, req, ids).0, Selected(env, db, req, ids).1);
    IngestLeads(env, db, [], req, ids);
    assert [] + [VisitOf(req)] == [VisitOf(req)];
  }

  /**
   From the empty store: publish a rule, embed it, ingest a page that matches. Ingesting the same
   content again with another vector that matches as well is a conflict, and it stays one.
   */
  lemma SecondVectorConflicts(env: Env, hash: string -> int, w: Setting, ruleVector: seq<F32>, vector: seq<F32>, other: seq<F32>,
                              id: Uuid, ids: Ids, again: Ids)
    returns (db: Db, log: Log)
    requires Injective(env.sha) && Rounding(env.round) && Usable(env, w) && !SameVector(vector, other)
    requires Matches(env, w, ruleVector, vector) && Matches(env, w, ruleVector, other)
    requires |ids.candidates| >= 1 && |again.candidates| >= 1 && again.revision != ids.revision
    ensures Reachable(env, db, log) && IngestPage(env, db, PageIn(w, other), again) == (db, Err(Conflict))
    ensures IngestPage(env, Embedded(env, w, ruleVector, id), PageIn(w, vector), ids).0 == db
  {
    var e := EmbeddingIn(env, w, ruleVector, id);
    FirstIngestSucceeds(env, hash, w, ruleVector, vector, id, ids);
    var before, req := Embedded(env, w, ruleVector, id), PageIn(w, vector);
    db, log := IngestPage(env, before, req, ids).0, [VisitOf(req)];
    IngestFrame(env, before, req, ids);
    SelectsTheRule(env, UpsertPage(env, db, PageIn(w, other), again).0, w, ruleVector, other, id);
    RevisionsAfterIngest(env, before, req, ids);
    OtherVectorConflicts(env, before, req, ids, other, again, e);
  }

  /** The first page's only revision has the identifier drawn for it. */
  lemma RevisionsAfterIngest(env: Env, db: Db, req: Ingest, ids: Ids)
    requires |ids.candidates| >= req.maxCandidates && db.revisions == map[]
    ensures forall k :: k in IngestPage(env, db, req, ids).0.revisions ==> IngestPage(env, db, req, ids).0.revisions[k].id == ids.revision
  {
  }

  // ---------------------------------------------------------------- the page embedding is stored and searched

  /** The owner asks for matches of the rule with a threshold and a minimum similarity of their own. */
  function AskIn(w: Setting, threshold: real, minSimilarity: real, query: seq<F32>): EvaluateRequest {
    EvaluateRequest(Context(w.tenant, w.owner, false), w.rule, Some(threshold),
                    Search(w.tenant, w.space, query, minSimilarity, [], None, 1))
  }

  function PlanIn(w: Setting, threshold: real, minSimilarity: real, query: seq<F32>): Ledger.Evaluation {
    Ledger.Evaluation(w.rule, w.revision, Max(threshold, w.threshold), AskIn(w, threshold, minSimilarity, query).search)
  }

  lemma AskIsPlanned(env: Env, db: Db, w: Setting, threshold: real, minSimilarity: real, query: seq<F32>)
    requires Usable(env, w) && 0.0 <= threshold <= 1.0
    requires db.rules == Ruled(w).rules && db.ruleRevisions == Ruled(w).ruleRevisions
    ensures PlanEvaluation(db, AskIn(w, threshold, minSimilarity, query)) == Ok(PlanIn(w, threshold, minSimilarity, query))
  {
  }

  /** The stored vector is similar enough to the query for the search to return it. */
  predicate Answers(env: Env, w: Setting, stored: seq<F32>, threshold: real, minSimilarity: real, query: seq<F32>) {
    1.0 - env.distance(stored, query) >= Max(minSimilarity, env.round(Max(threshold, w.threshold)))
  }

  /** A store with the rule and one page embedding of its tenant and model space. */
  predicate Searchable(db: Db, w: Setting, row: PageEmbedding) {
    && db.rules == Ruled(w).rules && db.ruleRevisions == Ruled(w).ruleRevisions
    && db.pageEmbeddings == [row] && row.space == w.space
    && row.revision in db.revisions && row.revision.page in db.pages && row.revision.page.tenant == w.tenant
  }

  lemma AskFindsTheRow(env: Env, db: Db, w: Setting, row: PageEmbedding, threshold: real, minSimilarity: real, query: seq<F32>)
    requires Searchable(db, w, row) && Answers(env, w, row.vector, threshold, minSimilarity, query)
    ensures SearchPage(env, db, RaisedSearch(env, PlanIn(w, threshold, minSimilarity, query))).hits == [row]
  {
    SearchOnly(env, db, RaisedSearch(env, PlanIn(w, threshold, minSimilarity, query)), row);
  }

  lemma RowIsStored(env: Env, db: Db, log: Log, row: PageEmbedding)
    requires Reachable(env, db, log) && db.pageEmbeddings == [] && row.revision in db.revisions
    ensures Reachable(env, db.(pageEmbeddings := [row]), log)
  {
    ReachNext(env, db, log, StorePageEmbedding(row), db.(pageEmbeddings := [row]), log);
  }

  /** A page without recorded matches, found by a search. */
  lemma PageIsSearchable(env: Env, hash: string -> int, w: Setting, stored: seq<F32>, ids: Ids, page: Uuid)
    returns (db: Db, log: Log, row: PageEmbedding)
    requires Usable(env, w) && |ids.candidates| >= 1
    ensures Reachable(env, db, log) && Searchable(db, w, row) && db.candidates == map[]
    ensures row.vector == stored && row.id == page
  {
    var before, req := Ruled(w), PageIn(w, stored);
    RuleIsPublished(env, hash, w);
    var (db1, receipt) := UpsertPage(env, before, req, ids);
    assert FindCandidates(env, db1, req) == [];
    assert IngestPage(env, before, req, ids).0 == db1 && IngestPage(env, before, req, ids).1.Ok?;
    IngestLeads(env, before, [], req, ids);
    row := PageEmbedding(page, receipt.revision, w.space, stored);
    db, log := db1.(pageEmbeddings := [row]), [] + [VisitOf(req)];
    RowIsStored(env, db1, log, row);
  }

  /** A hit whose match the reverse path recorded stops the evaluation with an internal error. */
  lemma HeldHitStops(env: Env, db: Db, log: Log, w: Setting, row: PageEmbedding, threshold: real, minSimilarity: real, query: seq<F32>, id: Uuid)
    requires Injective(env.sha) && Rounding(env.round) && Usable(env, w) && 0.0 <= threshold <= 1.0
    requires Reachable(env, db, log) && Searchable(db, w, row) && Answers(env, w, row.vector, threshold, minSimilarity, query)
    requires HeldByReverse(env, db, w.tenant, w.rule, w.revision, row)
    ensures EvaluateMatches(env, db, AskIn(w, threshold, minSimilarity, query), [id]).1 == Err(Internal)
  {
    ReachableFits(env, db, log);
    AskIsPlanned(env, db, w, threshold, minSimilarity, query);
    AskFindsTheRow(env, db, w, row, threshold, minSimilarity, query);
    EvaluateMatchesMeaning(env, db, AskIn(w, threshold, minSimilarity, query), [id]);
  }

  /** The candidate an ingest stored holds the key a search for the same page revision would use. */
  lemma ReverseMatchHolds(env: Env, w: Setting, ruleVector: seq<F32>, vector: seq<F32>, id: Uuid, ids: Ids, row: PageEmbedding)
    requires Injective(env.sha) && Rounding(env.round) && Usable(env, w) && Matches(env, w, ruleVector, vector) && |ids.candidates| >= 1
    requires IngestPage(env, Embedded(env, w, ruleVector, id), PageIn(w, vector), ids).1.Ok?
    requires Selected(env, Embedded(env, w, ruleVector, id), PageIn(w, vector), ids).1 == [EmbeddingIn(env, w, ruleVector, id)]
    requires row.revision == RevisionKeyOf(env, PageIn(w, vector)) && row.space == w.space
    ensures var db := IngestPage(env, Embedded(env, w, ruleVector, id), PageIn(w, vector), ids).0;
            && row.revision in db.revisions && row.revision.page in db.pages && row.revision.page.tenant == w.tenant
            && HeldByReverse(env, db, w.tenant, w.rule, w.revision, row)
  {
    var before, req := Embedded(env, w, ruleVector, id), PageIn(w, vector);
    var (db1, receipt) := UpsertPage(env, before, req, ids);
    var es := FindCandidates(env, db1, req);
    FindCandidatesAdmitted(env, db1, req);
    PersistAllPersists(env, db1, req, receipt, es, ids.candidates);
    var (d, out) := PersistAll(env, db1, req, receipt, es, ids.candidates).value;
    assert Returned(env, d, req, receipt, es[0], out[0]);
  }

  /**
   From the empty store: publish a rule, embed it, ingest a page that matches, store an embedding of
   the page. An evaluation that finds the page ends in an internal error.
   */
  lemma EvaluationMeetsReverseMatch(env: Env, hash: string -> int, w: Setting, ruleVector: seq<F32>, vector: seq<F32>, stored: seq<F32>,
                                    threshold: real, minSimilarity: real, query: seq<F32>, id: Uuid, ids: Ids, page: Uuid)
    returns (db: Db, log: Log)
    requires Injective(env.sha) && Rounding(env.round) && Usable(env, w) && Matches(env, w, ruleVector, vector) && |ids.candidates| >= 1
    requires 0.0 <= threshold <= 1.0 && Answers(env, w, stored, threshold, minSimilarity, query)
    ensures Reachable(env, db, log) && PlanEvaluation(db, AskIn(w, threshold, minSimilarity, query)).Ok?
    ensures EvaluateMatches(env, db, AskIn(w, threshold, minSimilarity, query), [page]).1 == Err(Internal)
  {
    var before, req := Embedded(env, w, ruleVector, id), PageIn(w, vector);
    FirstIngestSucceeds(env, hash, w, ruleVector, vector, id, ids);
    var d := IngestPage(env, before, req, ids).0;
    var row := PageEmbedding(page, RevisionKeyOf(env, req), w.space, stored);
    ReverseMatchHolds(env, w, ruleVector, vector, id, ids, row);
    IngestFrame(env, before, req, ids);
    RowIsStored(env, d, [VisitOf(req)], row);
    db, log := d.(pageEmbeddings := [row]), [VisitOf(req)];
    AskIsPlanned(env, db, w, threshold, minSimilarity, query);
    HeldHitStops(env, db, log, w, row, threshold, minSimilarity, query, page);
  }
}
