/**
 Historical matching: which rows an evaluation may return, how it meets the ledger, and what
 becomes of thresholds when they are cast to f32.
 */
module Evaluation {
  import opened Wrappers
  import opened Uuids
  import opened MatchKeys
  import opened SourceScope
  import opened Activation
  import opened Ledger
  import opened LedgerProof

  // ---------------------------------------------------------------- thresholds

  /** Rounding to f32: monotone, and it fixes what is already rounded. */
  ghost predicate Rounding(round: real -> real) {
    && (forall x, y :: x <= y ==> round(x) <= round(y))
    && (forall x :: round(round(x)) == round(x))
  }

  /** Stored thresholds are f32 values. */
  ghost predicate ThresholdsStored(env: Env, db: Db) {
    forall v :: v in db.ruleRevisions ==> env.round(db.ruleRevisions[v].threshold) == db.ruleRevisions[v].threshold
  }

  /** Every row of an accepted evaluation is in the rule's scope and at least at its stored threshold. */
  lemma HitsRespectRule(env: Env, db: Db, req: EvaluateRequest)
    requires Rounding(env.round) && ThresholdsStored(env, db) && PlanEvaluation(db, req).Ok?
    ensures LoadsRule(db, req.ctx, req.rule)
    ensures var plan := PlanEvaluation(db, req).value;
            var revision := LoadedRevision(db, req.ctx, req.rule);
            && plan.ruleRevision in db.ruleRevisions && db.ruleRevisions[plan.ruleRevision] == revision
            && plan.search.tenant == req.ctx.tenant
            && forall h :: h in SearchPage(env, db, RaisedSearch(env, plan)).hits ==>
                 && h in db.pageEmbeddings && InScope(env, db, RaisedSearch(env, plan), h)
                 && 1.0 - PageDistance(env, h, req.search.vector) >= revision.threshold
  {
    var plan := PlanEvaluation(db, req).value;
    var revision := LoadedRevision(db, req.ctx, req.rule);
    HitsResolve(env, db, RaisedSearch(env, plan));
    assert env.round(plan.threshold) >= env.round(revision.threshold) == revision.threshold;
  }

  /** An accepted evaluation searches inside the rule's sources, and exactly the requested ones if any were named. */
  lemma HitsStayInScope(env: Env, db: Db, req: EvaluateRequest, h: PageEmbedding)
    requires PlanEvaluation(db, req).Ok? && h in SearchPage(env, db, RaisedSearch(env, PlanEvaluation(db, req).value)).hits
    ensures LoadsRule(db, req.ctx, req.rule) && ParseIds(LoadedRevision(db, req.ctx, req.rule).sourceFilters).Ok?
    ensures var scope := ParseIds(LoadedRevision(db, req.ctx, req.rule).sourceFilters).value;
            var source := h.revision.page.source;
            (scope != [] ==> source in scope) && (req.search.sources != [] ==> source in req.search.sources)
  {
    var plan := PlanEvaluation(db, req).value;
    var filters := LoadedRevision(db, req.ctx, req.rule).sourceFilters;
    HitsResolve(env, db, RaisedSearch(env, plan));
    ConstrainMeaning(filters, req.search.sources);
    if req.search.sources != [] {
      assert req.search.sources[0] in plan.search.sources;
    }
  }

  /** What the route demands: a threshold in range, a visible and enabled rule for the model, and requested sources within its scope. */
  predicate Accepts(db: Db, req: EvaluateRequest) {
    && req.threshold.Some? && 0.0 <= req.threshold.value <= 1.0 && LoadsRule(db, req.ctx, req.rule)
    && var revision := LoadedRevision(db, req.ctx, req.rule);
       revision.enabled && revision.model == req.search.space.model && ParseIds(revision.sourceFilters).Ok?
       && (ParseIds(revision.sourceFilters).value == []
           || forall x :: x in req.search.sources ==> x in ParseIds(revision.sourceFilters).value)
  }

  /** The route goes on exactly with an acceptable request; a rule the caller cannot load is reported as missing, and only that. */
  lemma PlannedIff(db: Db, req: EvaluateRequest)
    ensures PlanEvaluation(db, req).Ok? <==> Accepts(db, req)
    ensures PlanEvaluation(db, req) == Err(NotFound) <==>
            req.threshold.Some? && 0.0 <= req.threshold.value <= 1.0 && !LoadsRule(db, req.ctx, req.rule)
    ensures PlanEvaluation(db, req).Err? ==> PlanEvaluation(db, req).error in {NotFound, Invalid}
  {
    if LoadsRule(db, req.ctx, req.rule) {
      var filters := LoadedRevision(db, req.ctx, req.rule).sourceFilters;
      if ParseIds(filters).Ok? {
        ConstrainMeaning(filters, req.search.sources);
      }
    }
  }

  // ---------------------------------------------------------------- one historical write

  /** The hit is a stored page embedding of the searched tenant. */
  predicate HitFits(db: Db, tenant: Uuid, hit: PageEmbedding) {
    hit in db.pageEmbeddings && hit.revision in db.revisions && hit.revision.page.tenant == tenant
  }

  /** The key is held by a candidate of the reverse path. */
  predicate HeldByReverse(env: Env, db: Db, tenant: Uuid, rule: Uuid, ruleRevision: Uuid, hit: PageEmbedding)
    requires hit.revision in db.revisions
  {
    var key := HistoricalKey(env, db, tenant, rule, ruleRevision, hit);
    key in db.candidates && db.candidates[key].evidence.Reverse?
  }

  lemma ExistingHistoricalRow(env: Env, db: Db, tenant: Uuid, rule: Uuid, ruleRevision: Uuid, hit: PageEmbedding, row: Candidate)
    requires Injective(env.sha) && LedgerInv(env, db) && HitFits(db, tenant, hit)
    requires HistoricalKey(env, db, tenant, rule, ruleRevision, hit) in db.candidates
    requires row.rule == rule && row.ruleRevision == ruleRevision && row.revision == hit.revision && row.evidence == Historical(hit.id)
    ensures SameHistoricalEvidence(db.candidates[HistoricalKey(env, db, tenant, rule, ruleRevision, hit)], row)
            <==> !HeldByReverse(env, db, tenant, rule, ruleRevision, hit)
  {
    var key := HistoricalKey(env, db, tenant, rule, ruleRevision, hit);
    var existing := db.candidates[key];
    KeyFindsIdentity(env, db, key,
      MatchIdentity(tenant, rule, ruleRevision, db.revisions[hit.revision].id, hit.revision.sha, hit.space), hit.revision);
    if existing.evidence.Historical? {
      var e :| e in db.pageEmbeddings && e.id == existing.evidence.embedding && e.revision == existing.revision && e.space == hit.space;
      PageEmbeddingById(db, e, hit);
    }
  }

  /** A historical write fails exactly when the reverse path already recorded the match; a new row fits the ledger. */
  lemma HistoricalWrite(env: Env, db: Db, tenant: Uuid, rule: Uuid, ruleRevision: Uuid, hit: PageEmbedding,
                        vector: seq<F32>, threshold: real, id: Uuid)
    requires Injective(env.sha) && LedgerInv(env, db) && HitFits(db, tenant, hit)
    requires ruleRevision in db.ruleRevisions && 1.0 - PageDistance(env, hit, vector) >= db.ruleRevisions[ruleRevision].threshold
    ensures var r := PersistHistorical(env, db, tenant, rule, ruleRevision, hit, vector, threshold, id);
            && (r.Err? <==> HeldByReverse(env, db, tenant, rule, ruleRevision, hit))
            && (r.Ok? ==> LedgerInv(env, r.value.0)
                          && r.value.1.ruleRevision == ruleRevision && r.value.1.revision == hit.revision
                          && r.value.1.similarity >= db.ruleRevisions[ruleRevision].threshold)
  {
    var key := HistoricalKey(env, db, tenant, rule, ruleRevision, hit);
    var row := HistoricalRow(env, rule, ruleRevision, hit, vector, threshold, id);
    if key in db.candidates {
      ExistingHistoricalRow(env, db, tenant, rule, ruleRevision, hit, row);
      assert CandidateFits(env, db, key, db.candidates[key]);
    } else {
      assert EvidenceStored(db, key, row, hit.space);
      assert key.key == MatchKey(env.sha, IdentityOf(db, key, row, hit.space));
      AddCandidateKeepsInv(env, db, key, row);
    }
  }

  // ---------------------------------------------------------------- the loop

  /** Every hit is stored, of the tenant, and at least at the threshold of the rule revision. */
  predicate HitsFit(env: Env, db: Db, req: Ledger.Evaluation, hits: seq<PageEmbedding>) {
    && req.ruleRevision in db.ruleRevisions
    && forall h :: h in hits ==> HitFits(db, req.search.tenant, h)
                                 && 1.0 - PageDistance(env, h, req.search.vector) >= db.ruleRevisions[req.ruleRevision].threshold
  }

  predicate AnyHeld(env: Env, db: Db, req: Ledger.Evaluation, hits: seq<PageEmbedding>) {
    exists h :: h in hits && h.revision in db.revisions && HeldByReverse(env, db, req.search.tenant, req.rule, req.ruleRevision, h)
  }

  /** The loop writes historical rows only, so it never takes a key away from itself. */
  predicate AddsHistorical(db: Db, d: Db) {
    && d == db.(candidates := d.candidates)
    && (forall k :: k in db.candidates ==> k in d.candidates && d.candidates[k] == db.candidates[k])
    && (forall k :: k in d.candidates && k !in db.candidates ==> d.candidates[k].evidence.Historical?)
  }

  lemma HitStep(env: Env, db: Db, req: Ledger.Evaluation, hits: seq<PageEmbedding>, ids: seq<Uuid>)
    requires 0 < |hits| <= |ids| && forall h :: h in hits ==> h.revision in db.revisions
    ensures hits[|hits| - 1] in hits
    ensures var n := |hits| - 1;
            var (d, r) := EvaluateHits(env, db, req, hits[..n], ids);
            EvaluateHits(env, db, req, hits, ids) ==
            match r
            case Err(f) => (d, Err(f))
            case Ok(out) =>
              match PersistHistorical(env, d, req.search.tenant, req.rule, req.ruleRevision, hits[n], req.search.vector, req.threshold, ids[n])
              case Err(f) => (d, Err(f))
              case Ok((d', c)) => (d', Ok(out + [c]))
  {
    assert hits[|hits| - 1] in hits;
  }

  lemma {:induction false} LoopAddsHistorical(env: Env, db: Db, req: Ledger.Evaluation, hits: seq<PageEmbedding>, ids: seq<Uuid>)
    requires |hits| <= |ids| && forall h :: h in hits ==> h.revision in db.revisions
    ensures AddsHistorical(db, EvaluateHits(env, db, req, hits, ids).0)
  {
    if hits != [] {
      HitStep(env, db, req, hits, ids);
      LoopAddsHistorical(env, db, req, hits[..|hits| - 1], ids);
    }
  }

  /** Every row that was added is at least this similar, and carries the threshold it was judged by. */
  predicate NewRowsReach(db: Db, d: Db, similarity: real, threshold: real) {
    forall k :: k in d.candidates && k !in db.candidates ==>
      d.candidates[k].similarity >= similarity && d.candidates[k].threshold == threshold
  }

  lemma {:induction false} LoopWritesReach(env: Env, db: Db, req: Ledger.Evaluation, hits: seq<PageEmbedding>, ids: seq<Uuid>, similarity: real)
    requires |hits| <= |ids| && forall h :: h in hits ==> h.revision in db.revisions
    requires forall h :: h in hits ==> 1.0 - PageDistance(env, h, req.search.vector) >= similarity
    ensures NewRowsReach(db, EvaluateHits(env, db, req, hits, ids).0, similarity, req.threshold)
  {
    if hits != [] {
      HitStep(env, db, req, hits, ids);
      LoopWritesReach(env, db, req, hits[..|hits| - 1], ids, similarity);
    }
  }

  /** What an evaluation writes is as similar as the raised search demanded, and records the composed threshold. */
  lemma WritesReachSearch(env: Env, db: Db, req: EvaluateRequest, ids: seq<Uuid>)
    requires PlanEvaluation(db, req).Ok? && |ids| >= req.search.limit
    ensures var plan := PlanEvaluation(db, req).value;
            NewRowsReach(db, EvaluateMatches(env, db, req, ids).0, RaisedSearch(env, plan).minSimilarity, plan.threshold)
  {
    var plan := PlanEvaluation(db, req).value;
    HitsResolve(env, db, RaisedSearch(env, plan));
    LoopWritesReach(env, db, plan, SearchPage(env, db, RaisedSearch(env, plan)).hits, ids, RaisedSearch(env, plan).minSimilarity);
  }

  lemma {:induction false} LoopFailsInternally(env: Env, db: Db, req: Ledger.Evaluation, hits: seq<PageEmbedding>, ids: seq<Uuid>)
    requires |hits| <= |ids| && forall h :: h in hits ==> h.revision in db.revisions
    ensures var r := EvaluateHits(env, db, req, hits, ids).1; r.Err? ==> r.error == Internal
  {
    if hits != [] {
      HitStep(env, db, req, hits, ids);
      LoopFailsInternally(env, db, req, hits[..|hits| - 1], ids);
    }
  }

  lemma HeldAlready(env: Env, db: Db, d: Db, req: Ledger.Evaluation, h: PageEmbedding)
    requires AddsHistorical(db, d) && h.revision in db.revisions
    ensures HeldByReverse(env, d, req.search.tenant, req.rule, req.ruleRevision, h)
            <==> HeldByReverse(env, db, req.search.tenant, req.rule, req.ruleRevision, h)
  {
  }

  lemma AnyHeldSplits(env: Env, db: Db, req: Ledger.Evaluation, hits: seq<PageEmbedding>)
    requires hits != [] && hits[|hits| - 1].revision in db.revisions
    ensures AnyHeld(env, db, req, hits)
            <==> AnyHeld(env, db, req, hits[..|hits| - 1]) || HeldByReverse(env, db, req.search.tenant, req.rule, req.ruleRevision, hits[|hits| - 1])
  {
    var front, last := hits[..|hits| - 1], hits[|hits| - 1];
    assert hits == front + [last];
    assert forall g :: g in hits <==> g in front || g == last;
  }

  predicate AllAbove(db: Db, req: Ledger.Evaluation, out: seq<Candidate>)
    requires req.ruleRevision in db.ruleRevisions
  {
    forall c :: c in out ==> c.ruleRevision == req.ruleRevision && c.similarity >= db.ruleRevisions[req.ruleRevision].threshold
  }

  /** One more write after the loop so far, judged by the tables before the loop. */
  lemma NextHit(env: Env, db: Db, d: Db, req: Ledger.Evaluation, h: PageEmbedding, id: Uuid)
    requires Injective(env.sha) && LedgerInv(env, d) && AddsHistorical(db, d)
    requires req.ruleRevision in db.ruleRevisions && HitFits(db, req.search.tenant, h)
    requires 1.0 - PageDistance(env, h, req.search.vector) >= db.ruleRevisions[req.ruleRevision].threshold
    ensures h.revision in db.revisions && h.revision in d.revisions
    ensures var r := PersistHistorical(env, d, req.search.tenant, req.rule, req.ruleRevision, h, req.search.vector, req.threshold, id);
            && (r.Err? <==> HeldByReverse(env, db, req.search.tenant, req.rule, req.ruleRevision, h))
            && (r.Ok? ==> LedgerInv(env, r.value.0) && AllAbove(db, req, [r.value.1]))
  {
    assert d.ruleRevisions == db.ruleRevisions && HitFits(d, req.search.tenant, h);
    HeldAlready(env, db, d, req, h);
    HistoricalWrite(env, d, req.search.tenant, req.rule, req.ruleRevision, h, req.search.vector, req.threshold, id);
    var r := PersistHistorical(env, d, req.search.tenant, req.rule, req.ruleRevision, h, req.search.vector, req.threshold, id);
    if r.Ok? {
      OneAbove(db, req, r.value.1);
    }
  }

  lemma OneAbove(db: Db, req: Ledger.Evaluation, c: Candidate)
    requires req.ruleRevision in db.ruleRevisions
    requires c.ruleRevision == req.ruleRevision && c.similarity >= db.ruleRevisions[req.ruleRevision].threshold
    ensures AllAbove(db, req, [c])
  {
  }

  /** What the loop promises about its result. */
  ghost predicate LoopResult(env: Env, db: Db, req: Ledger.Evaluation, hits: seq<PageEmbedding>, d: Db, r: Result<seq<Candidate>, Failure>)
    requires req.ruleRevision in db.ruleRevisions
  {
    && (r.Err? <==> AnyHeld(env, db, req, hits))
    && LedgerInv(env, d)
    && (r.Ok? ==> |r.value| == |hits| && AllAbove(db, req, r.value))
  }

  lemma LastHitFits(env: Env, db: Db, req: Ledger.Evaluation, hits: seq<PageEmbedding>)
    requires hits != [] && HitsFit(env, db, req, hits)
    ensures HitsFit(env, db, req, hits[..|hits| - 1])
    ensures HitFits(db, req.search.tenant, hits[|hits| - 1])
    ensures 1.0 - PageDistance(env, hits[|hits| - 1], req.search.vector) >= db.ruleRevisions[req.ruleRevision].threshold
  {
    assert hits[|hits| - 1] in hits;
  }

  lemma AllAboveAppend(db: Db, req: Ledger.Evaluation, out: seq<Candidate>, c: Candidate)
    requires req.ruleRevision in db.ruleRevisions && AllAbove(db, req, out) && AllAbove(db, req, [c])
    ensures AllAbove(db, req, out + [c])
  {
    assert c in [c];
  }

  /** The write of the last hit decides the result of the loop. */
  lemma ExtendResult(env: Env, db: Db, req: Ledger.Evaluation, hits: seq<PageEmbedding>, d: Db, out: seq<Candidate>,
                     w: Result<(Db, Candidate), Failure>)
    requires hits != [] && HitsFit(env, db, req, hits) && LoopResult(env, db, req, hits[..|hits| - 1], d, Ok(out))
    requires hits[|hits| - 1].revision in db.revisions
    requires w.Err? <==> HeldByReverse(env, db, req.search.tenant, req.rule, req.ruleRevision, hits[|hits| - 1])
    requires w.Ok? ==> LedgerInv(env, w.value.0) && AllAbove(db, req, [w.value.1])
    ensures w.Err? ==> LoopResult(env, db, req, hits, d, Err(w.error))
    ensures w.Ok? ==> LoopResult(env, db, req, hits, w.value.0, Ok(out + [w.value.1]))
  {
    AnyHeldSplits(env, db, req, hits);
    if w.Ok? {
      AllAboveAppend(db, req, out, w.value.1);
    }
  }

  /** The loop fails exactly when some hit's match is held by the reverse path; it always keeps the ledger. */
  lemma {:induction false} LoopFailsIff(env: Env, db: Db, req: Ledger.Evaluation, hits: seq<PageEmbedding>, ids: seq<Uuid>)
    requires |hits| <= |ids| && Injective(env.sha) && LedgerInv(env, db) && HitsFit(env, db, req, hits)
    ensures LoopResult(env, db, req, hits, EvaluateHits(env, db, req, hits, ids).0, EvaluateHits(env, db, req, hits, ids).1)
    decreases |hits|
  {
    if hits == [] {
      assert EvaluateHits(env, db, req, hits, ids) == (db, Ok([]));
    } else {
      var n := |hits| - 1;
      LoopFailsIff(env, db, req, hits[..n], ids);
      LoopAddsHistorical(env, db, req, hits[..n], ids);
      HitStep(env, db, req, hits, ids);
      var (d, r) := EvaluateHits(env, db, req, hits[..n], ids);
      if r.Ok? {
        LastHitFits(env, db, req, hits);
        NextHit(env, db, d, req, hits[n], ids[n]);
        ExtendResult(env, db, req, hits, d, r.value,
          PersistHistorical(env, d, req.search.tenant, req.rule, req.ruleRevision, hits[n], req.search.vector, req.threshold, ids[n]));
      } else {
        AnyHeldSplits(env, db, req, hits);
      }
    }
  }

  /**
   Match evaluation: it keeps the ledger, returns only candidates of the active revision at or above
   its stored threshold, and fails after planning, with an internal error, exactly when a hit is held
   by the reverse path.
   */
  lemma EvaluateMatchesMeaning(env: Env, db: Db, req: EvaluateRequest, ids: seq<Uuid>)
    requires Injective(env.sha) && Rounding(env.round) && ThresholdsStored(env, db)
    requires LedgerInv(env, db) && |ids| >= req.search.limit
    ensures var (d, r) := EvaluateMatches(env, db, req, ids);
            && LedgerInv(env, d) && AddsHistorical(db, d)
            && (PlanEvaluation(db, req).Err? ==> d == db && r.Err?)
            && (PlanEvaluation(db, req).Ok? ==>
                  var plan := PlanEvaluation(db, req).value;
                  var hits := SearchPage(env, db, RaisedSearch(env, plan)).hits;
                  && (r.Err? <==> AnyHeld(env, db, plan, hits)) && (r.Err? ==> r.error == Internal)
                  && (r.Ok? ==> plan.ruleRevision in db.ruleRevisions && |r.value| == |hits| && AllAbove(db, plan, r.value)))
  {
    if PlanEvaluation(db, req).Ok? {
      var plan := PlanEvaluation(db, req).value;
      var hits := SearchPage(env, db, RaisedSearch(env, plan)).hits;
      HitsRespectRule(env, db, req);
      assert HitsFit(env, db, plan, hits);
      LoopFailsIff(env, db, plan, hits, ids);
      LoopAddsHistorical(env, db, plan, hits, ids);
      LoopFailsInternally(env, db, plan, hits, ids);
    }
  }
}
