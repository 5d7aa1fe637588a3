/**
 The tables of pages, revisions, embeddings and match candidates, and what each statement
 does to them. A table with a unique constraint that is looked up by it is a map from the
 constrained columns; a foreign key is the unique key of the row it points to. Embedding
 tables are sequences in storage order, because queries rank them.
 */
module Ledger {
  import opened Wrappers
  import opened Uuids
  import opened MatchKeys
  import opened Ranking
  import Paging
  import opened SourceScope
  import opened Activation
  import Text

  // ---------------------------------------------------------------- rows

  datatype PageKey = PageKey(tenant: Uuid, source: Uuid, url: string)

  datatype Page = Page(id: Uuid, firstSeen: int, lastSeen: int, latest: Option<RevisionKey>)

  datatype RevisionKey = RevisionKey(page: PageKey, sha: string)

  datatype PageRevision = PageRevision(
    id: Uuid,
    predecessor: Option<RevisionKey>,
    originalUrl: string,
    title: Option<string>,
    content: string,
    fetchedAt: int)

  type Unit = r: real | 0.0 <= r <= 1.0

  /** The columns of a rule revision that matching reads. */
  datatype RuleRevision = RuleRevision(
    tenant: Uuid,
    rule: Uuid,
    enabled: bool,
    model: string,
    threshold: Unit,
    sourceFilters: seq<string>)

  datatype RuleEmbedding = RuleEmbedding(
    id: Uuid,
    tenant: Uuid,
    rule: Uuid,
    ruleRevision: Uuid,
    space: Space,
    vector: seq<F32>,
    sha: string)

  datatype PageEmbedding = PageEmbedding(id: Uuid, revision: RevisionKey, space: Space, vector: seq<F32>)

  /** `match_mode` with the columns its shape check demands. */
  datatype Evidence =
    | Historical(embedding: Uuid)
    | Reverse(alertEmbedding: Uuid, pageVectorSha: string, space: Space)

  datatype Status = Pending | Suppressed | Approved | Rejected | Delivered | Failed

  datatype CandidateKey = CandidateKey(tenant: Uuid, key: string)

  datatype Candidate = Candidate(
    id: Uuid,
    rule: Uuid,
    ruleRevision: Uuid,
    revision: RevisionKey,
    evidence: Evidence,
    similarity: real,
    threshold: real,
    status: Status,
    updatedAt: int)

  datatype Db = Db(
    pages: map<PageKey, Page>,
    revisions: map<RevisionKey, PageRevision>,
    rules: map<Uuid, Rule>,
    ruleRevisions: map<Uuid, RuleRevision>,
    ruleEmbeddings: seq<RuleEmbedding>,
    pageEmbeddings: seq<PageEmbedding>,
    candidates: map<CandidateKey, Candidate>)

  /** What the activation protocol knows of the rule tables. */
  function TablesOf(rules: map<Uuid, Rule>, ruleRevisions: map<Uuid, RuleRevision>): Tables {
    Tables(rules, map v | v in ruleRevisions :: Activation.Revision(ruleRevisions[v].tenant, ruleRevisions[v].rule, ruleRevisions[v].enabled))
  }

  /** Cosine distance. */
  type Cosine = r: real | 0.0 <= r <= 2.0

  /** What the model takes from outside: SHA-256, pgvector's `<=>`, and the `as f32` cast. */
  datatype Env = Env(sha: Sha, distance: (seq<F32>, seq<F32>) -> Cosine, round: real -> real)

  datatype Failure = Conflict | Internal | Invalid | NotFound

  // ---------------------------------------------------------------- upsert_page_revision

  datatype Ingest = Ingest(
    tenant: Uuid,
    source: Uuid,
    originalUrl: string,
    finalUrl: string,
    title: Option<string>,
    content: string,
    fetchedAt: int,
    space: Space,
    vector: seq<F32>,
    maxCandidates: nat)

  datatype PageReceipt = PageReceipt(pageId: Uuid, revisionId: Uuid, revision: RevisionKey, changed: bool)

  /** Identifiers drawn by the database for the rows one ingest may insert. */
  datatype Ids = Ids(page: Uuid, revision: Uuid, candidates: seq<Uuid>)

  function PageKeyOf(req: Ingest): PageKey {
    PageKey(req.tenant, req.source, req.finalUrl)
  }

  function RevisionKeyOf(env: Env, req: Ingest): RevisionKey {
    RevisionKey(PageKeyOf(req), TextSha(env.sha, Text.CollapseWhitespace(req.content)))
  }

  /** The page row after `INSERT .. ON CONFLICT DO UPDATE SET last_seen_at`. */
  function TouchedPage(db: Db, req: Ingest, id: Uuid): Page {
    if PageKeyOf(req) in db.pages then db.pages[PageKeyOf(req)].(lastSeen := req.fetchedAt)
    else Page(id, req.fetchedAt, req.fetchedAt, None)
  }

  function NewRevision(db: Db, req: Ingest, ids: Ids): PageRevision {
    PageRevision(ids.revision, TouchedPage(db, req, ids.page).latest, req.originalUrl,
                 if req.title == Some("") then None else req.title,
                 Text.CollapseWhitespace(req.content), req.fetchedAt)
  }

  function UpsertPage(env: Env, db: Db, req: Ingest, ids: Ids): (Db, PageReceipt) {
    var page := TouchedPage(db, req, ids.page);
    var key := RevisionKeyOf(env, req);
    var changed := key !in db.revisions;
    var revision := if changed then NewRevision(db, req, ids) else db.revisions[key];
    (db.(pages := db.pages[PageKeyOf(req) := page.(latest := Some(key))],
         revisions := if changed then db.revisions[key := revision] else db.revisions),
     PageReceipt(page.id, revision.id, key, changed))
  }

  // ---------------------------------------------------------------- find_alert_candidates

  function Similarity(env: Env, e: RuleEmbedding, vector: seq<F32>): real {
    1.0 - env.distance(e.vector, vector)
  }

  /** `source_filters ? ('source:' || id)`, or no filters at all. */
  predicate AdmitsSource(filters: seq<string>, source: Uuid) {
    filters == [] || FilterText(source) in filters
  }

  /** The joins and conditions of the candidate query. */
  predicate Qualifies(env: Env, db: Db, req: Ingest, e: RuleEmbedding) {
    && e.tenant == req.tenant && e.space == req.space
    && e.rule in db.rules && db.rules[e.rule].tenant == e.tenant && db.rules[e.rule].active == Some(e.ruleRevision)
    && e.ruleRevision in db.ruleRevisions
    && var revision := db.ruleRevisions[e.ruleRevision];
       revision.tenant == e.tenant && revision.rule == e.rule
       && revision.enabled && revision.model == req.space.model
       && Similarity(env, e, req.vector) >= revision.threshold
       && AdmitsSource(revision.sourceFilters, req.source)
  }

  function RankOf(env: Env, vector: seq<F32>): RuleEmbedding -> Rank {
    (e: RuleEmbedding) => Rank(env.distance(e.vector, vector), e.id)
  }

  function FindCandidates(env: Env, db: Db, req: Ingest): seq<RuleEmbedding> {
    Select(RankOf(env, req.vector), db.ruleEmbeddings, e => Qualifies(env, db, req, e), req.maxCandidates)
  }

  /** The threshold the candidate query returns beside the similarity. */
  function ThresholdOf(db: Db, e: RuleEmbedding): real {
    if e.ruleRevision in db.ruleRevisions then db.ruleRevisions[e.ruleRevision].threshold else 0.0
  }

  // ---------------------------------------------------------------- persist_reverse_candidate

  datatype ReverseCandidate = ReverseCandidate(
    id: Uuid,
    rule: Uuid,
    ruleRevision: Uuid,
    pageRevision: Uuid,
    alertEmbedding: Uuid,
    similarity: real,
    threshold: real,
    key: string)

  function ReverseKey(env: Env, req: Ingest, receipt: PageReceipt, e: RuleEmbedding): CandidateKey {
    CandidateKey(req.tenant, MatchKey(env.sha,
      MatchIdentity(req.tenant, e.rule, e.ruleRevision, receipt.revisionId, receipt.revision.sha, req.space)))
  }

  function ReverseRow(env: Env, db: Db, req: Ingest, receipt: PageReceipt, e: RuleEmbedding, id: Uuid): Candidate {
    Candidate(id, e.rule, e.ruleRevision, receipt.revision,
              Reverse(e.id, env.sha(VectorBytes(req.vector)), req.space),
              Similarity(env, e, req.vector), ThresholdOf(db, e), Pending, 0)
  }

  /** The conditions under which an existing row is returned for a reverse write. */
  predicate SameReverseEvidence(db: Db, existing: Candidate, row: Candidate) {
    && existing.rule == row.rule && existing.ruleRevision == row.ruleRevision && existing.revision == row.revision
    && existing.evidence.Reverse? && existing.evidence == row.evidence
    && existing.revision in db.revisions
  }

  function ReverseOutput(revisionId: Uuid, key: CandidateKey, row: Candidate): ReverseCandidate
    requires row.evidence.Reverse?
  {
    ReverseCandidate(row.id, row.rule, row.ruleRevision, revisionId, row.evidence.alertEmbedding,
                     row.similarity, row.threshold, key.key)
  }

  function PersistReverse(env: Env, db: Db, req: Ingest, receipt: PageReceipt, e: RuleEmbedding, id: Uuid)
    : Result<(Db, ReverseCandidate), Failure>
  {
    var key := ReverseKey(env, req, receipt, e);
    var row := ReverseRow(env, db, req, receipt, e, id);
    if key !in db.candidates then
      Ok((db.(candidates := db.candidates[key := row]), ReverseOutput(receipt.revisionId, key, row)))
    else if SameReverseEvidence(db, db.candidates[key], row) then
      Ok((db, ReverseOutput(receipt.revisionId, key, db.candidates[key])))
    else Err(Conflict)
  }

  // ---------------------------------------------------------------- ingest_and_reverse_match

  /** The loop over the candidate rows, with the check that repeats the query's threshold. */
  function PersistAll(env: Env, db: Db, req: Ingest, receipt: PageReceipt, es: seq<RuleEmbedding>, ids: seq<Uuid>)
    : (r: Result<(Db, seq<ReverseCandidate>), Failure>)
    requires |es| <= |ids|
    ensures r.Ok? ==> r.value.0 == db.(candidates := r.value.0.candidates)
  {
    if es == [] then Ok((db, []))
    else
      var n := |es| - 1;
      match PersistAll(env, db, req, receipt, es[..n], ids)
      case Err(f) => Err(f)
      case Ok((db', out)) =>
        if Similarity(env, es[n], req.vector) < ThresholdOf(db', es[n]) then Ok((db', out))
        else
          match PersistReverse(env, db', req, receipt, es[n], ids[n])
          case Err(f) => Err(f)
          case Ok((db'', c)) => Ok((db'', out + [c]))
  }

  datatype IngestResponse = IngestResponse(
    pageId: Uuid,
    revisionId: Uuid,
    contentSha: string,
    changed: bool,
    candidates: seq<ReverseCandidate>)

  /** One transaction: everything is committed, or the tables stay as they were. */
  function IngestPage(env: Env, db: Db, req: Ingest, ids: Ids): (Db, Result<IngestResponse, Failure>)
    requires |ids.candidates| >= req.maxCandidates
  {
    var (db1, receipt) := UpsertPage(env, db, req, ids);
    match PersistAll(env, db1, req, receipt, FindCandidates(env, db1, req), ids.candidates)
    case Err(f) => (db, Err(f))
    case Ok((db2, out)) => (db2, Ok(IngestResponse(receipt.pageId, receipt.revisionId, receipt.revision.sha, receipt.changed, out)))
  }

  // ---------------------------------------------------------------- upsert_alert_rule_embedding

  datatype EmbeddingRequest = EmbeddingRequest(tenant: Uuid, rule: Uuid, ruleRevision: Uuid, space: Space, vector: seq<F32>)

  datatype EmbeddingReceipt = EmbeddingReceipt(id: Uuid, created: bool)

  /** The `target` rows: the enabled active revision of the rule, configured for the model. */
  predicate IsTarget(db: Db, req: EmbeddingRequest) {
    && req.rule in db.rules && db.rules[req.rule].tenant == req.tenant
    && db.rules[req.rule].active == Some(req.ruleRevision)
    && req.ruleRevision in db.ruleRevisions
    && var revision := db.ruleRevisions[req.ruleRevision];
       revision.tenant == req.tenant && revision.rule == req.rule && revision.enabled && revision.model == req.space.model
  }

  /** The columns of the unique constraint on rule embeddings. */
  predicate SameSlot(e: RuleEmbedding, tenant: Uuid, ruleRevision: Uuid, space: Space) {
    e.tenant == tenant && e.ruleRevision == ruleRevision && e.space == space
  }

  function FindEmbedding(es: seq<RuleEmbedding>, tenant: Uuid, ruleRevision: Uuid, space: Space): (r: Option<RuleEmbedding>)
    ensures r.Some? ==> r.value in es && SameSlot(r.value, tenant, ruleRevision, space)
    ensures r.None? ==> forall e :: e in es ==> !SameSlot(e, tenant, ruleRevision, space)
  {
    if es == [] then None
    else if SameSlot(es[0], tenant, ruleRevision, space) then Some(es[0])
    else FindEmbedding(es[1..], tenant, ruleRevision, space)
  }

  function UpsertEmbedding(env: Env, db: Db, req: EmbeddingRequest, id: Uuid): (Db, Result<EmbeddingReceipt, Failure>) {
    var sha := env.sha(VectorBytes(req.vector));
    if !IsTarget(db, req) then (db, Err(Invalid))
    else
      match FindEmbedding(db.ruleEmbeddings, req.tenant, req.ruleRevision, req.space)
      case None =>
        var row := RuleEmbedding(id, req.tenant, req.rule, req.ruleRevision, req.space, req.vector, sha);
        (db.(ruleEmbeddings := db.ruleEmbeddings + [row]), Ok(EmbeddingReceipt(id, true)))
      case Some(e) =>
        if e.rule != req.rule then (db, Err(Invalid))
        else if e.sha != sha then (db, Err(Conflict))
        else (db, Ok(EmbeddingReceipt(e.id, false)))
  }

  // ---------------------------------------------------------------- search_embeddings

  datatype Search = Search(tenant: Uuid, space: Space, vector: seq<F32>, minSimilarity: real, sources: seq<Uuid>, cursor: Option<Rank>, limit: nat)

  function PageDistance(env: Env, e: PageEmbedding, vector: seq<F32>): real {
    env.distance(e.vector, vector)
  }

  /** The `ranked` and `filtered` conditions: joins, model space, source scope and minimum similarity. */
  predicate InScope(env: Env, db: Db, req: Search, e: PageEmbedding) {
    && e.revision.page.tenant == req.tenant && e.space == req.space
    && e.revision in db.revisions && e.revision.page in db.pages
    && (req.sources == [] || e.revision.page.source in req.sources)
    && 1.0 - PageDistance(env, e, req.vector) >= req.minSimilarity
  }

  function PageRankOf(env: Env, vector: seq<F32>): PageEmbedding -> Rank {
    (e: PageEmbedding) => Rank(PageDistance(env, e, vector), e.id)
  }

  function ScopedRows(env: Env, db: Db, req: Search): seq<PageEmbedding> {
    Filter(db.pageEmbeddings, e => InScope(env, db, req, e))
  }

  function SearchPage(env: Env, db: Db, req: Search): Paging.Page<PageEmbedding> {
    Paging.Fetch(PageRankOf(env, req.vector), ScopedRows(env, db, req), req.cursor, req.limit)
  }

  // ---------------------------------------------------------------- evaluate_matches

  function HistoricalKey(env: Env, db: Db, tenant: Uuid, rule: Uuid, ruleRevision: Uuid, hit: PageEmbedding): CandidateKey
    requires hit.revision in db.revisions
  {
    CandidateKey(tenant, MatchKey(env.sha,
      MatchIdentity(tenant, rule, ruleRevision, db.revisions[hit.revision].id, hit.revision.sha, hit.space)))
  }

  function HistoricalRow(env: Env, rule: Uuid, ruleRevision: Uuid, hit: PageEmbedding, vector: seq<F32>, threshold: real, id: Uuid): Candidate {
    Candidate(id, rule, ruleRevision, hit.revision, Historical(hit.id), 1.0 - PageDistance(env, hit, vector), threshold, Pending, 0)
  }

  predicate SameHistoricalEvidence(existing: Candidate, row: Candidate) {
    existing.rule == row.rule && existing.ruleRevision == row.ruleRevision && existing.revision == row.revision
    && existing.evidence == row.evidence
  }

  function PersistHistorical(env: Env, db: Db, tenant: Uuid, rule: Uuid, ruleRevision: Uuid, hit: PageEmbedding, vector: seq<F32>, threshold: real, id: Uuid)
    : Result<(Db, Candidate), Failure>
    requires hit.revision in db.revisions
  {
    var key := HistoricalKey(env, db, tenant, rule, ruleRevision, hit);
    var row := HistoricalRow(env, rule, ruleRevision, hit, vector, threshold, id);
    if key !in db.candidates then Ok((db.(candidates := db.candidates[key := row]), row))
    else if SameHistoricalEvidence(db.candidates[key], row) then Ok((db, db.candidates[key]))
    else Err(Internal)
  }

  datatype Evaluation = Evaluation(rule: Uuid, ruleRevision: Uuid, threshold: real, search: Search)

  /** Each row is its own statement: rows before a failing one stay. */
  function EvaluateHits(env: Env, db: Db, req: Evaluation, hits: seq<PageEmbedding>, ids: seq<Uuid>): (r: (Db, Result<seq<Candidate>, Failure>))
    requires |hits| <= |ids| && forall h :: h in hits ==> h.revision in db.revisions
    ensures r.0 == db.(candidates := r.0.candidates)
  {
    if hits == [] then (db, Ok([]))
    else
      var n := |hits| - 1;
      var (db', r) := EvaluateHits(env, db, req, hits[..n], ids);
      match r
      case Err(f) => (db', Err(f))
      case Ok(out) =>
        assert hits[n] in hits;
        match PersistHistorical(env, db', req.search.tenant, req.rule, req.ruleRevision, hits[n], req.search.vector, req.threshold, ids[n])
        case Err(f) => (db', Err(f))
        case Ok((db'', c)) => (db'', Ok(out + [c]))
  }

  function Max(a: real, b: real): real {
    if a < b then b else a
  }

  /** `store::evaluate_matches` raises the search's minimum similarity to the threshold cast to f32. */
  function RaisedSearch(env: Env, req: Evaluation): Search {
    req.search.(minSimilarity := Max(req.search.minSimilarity, env.round(req.threshold)))
  }

  function Evaluate(env: Env, db: Db, req: Evaluation, ids: seq<Uuid>): (Db, Result<seq<Candidate>, Failure>)
    requires |ids| >= req.search.limit
  {
    HitsResolve(env, db, RaisedSearch(env, req));
    EvaluateHits(env, db, req, SearchPage(env, db, RaisedSearch(env, req)).hits, ids)
  }

  lemma HitsResolve(env: Env, db: Db, req: Search)
    ensures forall h :: h in SearchPage(env, db, req).hits ==> h in db.pageEmbeddings && InScope(env, db, req, h)
  {
    var rows := ScopedRows(env, db, req);
    var all := Paging.Remaining(PageRankOf(env, req.vector), rows, req.cursor);
    forall h | h in SearchPage(env, db, req).hits ensures h in all {
    }
  }

  // ---------------------------------------------------------------- the match evaluation route

  datatype EvaluateRequest = EvaluateRequest(ctx: Context, rule: Uuid, threshold: Option<real>, search: Search)

  /** `require_alert_rule` under row level security. */
  predicate LoadsRule(db: Db, ctx: Context, rule: Uuid) {
    && rule in db.rules && VisibleRule(ctx, db.rules[rule])
    && db.rules[rule].active.Some? && db.rules[rule].active.value in db.ruleRevisions
    && var revision := db.ruleRevisions[db.rules[rule].active.value];
       revision.tenant == ctx.tenant && revision.rule in db.rules && VisibleRule(ctx, db.rules[revision.rule])
  }

  function LoadedRevision(db: Db, ctx: Context, rule: Uuid): RuleRevision
    requires LoadsRule(db, ctx, rule)
  {
    db.ruleRevisions[db.rules[rule].active.value]
  }

  /** What the route hands to `store::evaluate_matches`, if it gets that far. */
  function PlanEvaluation(db: Db, req: EvaluateRequest): Result<Evaluation, Failure> {
    if req.threshold.None? || !(0.0 <= req.threshold.value <= 1.0) then Err(Invalid)
    else if !LoadsRule(db, req.ctx, req.rule) then Err(NotFound)
    else
      var revision := LoadedRevision(db, req.ctx, req.rule);
      if !revision.enabled || req.search.space.model != revision.model then Err(Invalid)
      else
        match Constrain(revision.sourceFilters, req.search.sources)
        case Err(_) => Err(Invalid)
        case Ok(scope) =>
          Ok(Evaluation(req.rule, db.rules[req.rule].active.value, Max(req.threshold.value, revision.threshold),
                        req.search.(tenant := req.ctx.tenant, sources := scope)))
  }

  function EvaluateMatches(env: Env, db: Db, req: EvaluateRequest, ids: seq<Uuid>): (Db, Result<seq<Candidate>, Failure>)
    requires |ids| >= req.search.limit
  {
    match PlanEvaluation(db, req)
    case Err(f) => (db, Err(f))
    case Ok(plan) => Evaluate(env, db, plan, ids)
  }
}
