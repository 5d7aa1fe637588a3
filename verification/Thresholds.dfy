/**
 What becomes of a threshold the caller raises above the rule's: the cast to f32 may lower what a
 new candidate must reach, and an existing candidate is returned with the similarity it was recorded with.
 */
module Thresholds {
  import opened Wrappers
  import opened Uuids
  import opened MatchKeys
  import opened Ledger
  import opened PageHistory
  import opened Evaluation
  import opened LedgerRuns
  import opened Scenarios

  /** Zero and one are f32 values. */
  ghost predicate Casts(round: real -> real) {
    Rounding(round) && round(0.0) == 0.0 && round(1.0) == 1.0
  }

  // ---------------------------------------------------------------- one hit, written or found

  function KeyIn(env: Env, db: Db, w: Setting, row: PageEmbedding): CandidateKey
    requires row.revision in db.revisions
  {
    HistoricalKey(env, db, w.tenant, w.rule, w.revision, row)
  }

  function RowIn(env: Env, w: Setting, row: PageEmbedding, threshold: real, query: seq<F32>, id: Uuid): Candidate {
    HistoricalRow(env, w.rule, w.revision, row, query, Max(threshold, w.threshold), id)
  }

  /** The only hit is written if its match is new. */
  lemma HitIsWritten(env: Env, db: Db, w: Setting, row: PageEmbedding, threshold: real, minSimilarity: real, query: seq<F32>, id: Uuid)
    requires Usable(env, w) && Searchable(db, w, row) && 0.0 <= threshold <= 1.0
    requires Answers(env, w, row.vector, threshold, minSimilarity, query) && KeyIn(env, db, w, row) !in db.candidates
    ensures var c := RowIn(env, w, row, threshold, query, id);
            EvaluateMatches(env, db, AskIn(w, threshold, minSimilarity, query), [id])
            == (db.(candidates := db.candidates[KeyIn(env, db, w, row) := c]), Ok([c]))
  {
    AskIsPlanned(env, db, w, threshold, minSimilarity, query);
    AskFindsTheRow(env, db, w, row, threshold, minSimilarity, query);
    OneHit(env, db, PlanIn(w, threshold, minSimilarity, query), row, id);
  }

  lemma OneHit(env: Env, db: Db, plan: Ledger.Evaluation, row: PageEmbedding, id: Uuid)
    requires row.revision in db.revisions
    ensures EvaluateHits(env, db, plan, [row], [id]) ==
            match PersistHistorical(env, db, plan.search.tenant, plan.rule, plan.ruleRevision, row, plan.search.vector, plan.threshold, id)
            case Err(f) => (db, Err(f))
            case Ok((d, c)) => (d, Ok([c]))
  {
    var hits, ids, none := [row], [id], [row][..0];
    assert none == [] && hits[..|hits| - 1] == none;
    assert EvaluateHits(env, db, plan, none, ids) == (db, Ok([]));
    HitStep(env, db, plan, hits, ids);
    var w := PersistHistorical(env, db, plan.search.tenant, plan.rule, plan.ruleRevision, row, plan.search.vector, plan.threshold, id);
    if w.Ok? {
      assert [] + [w.value.1] == [w.value.1];
    }
  }

  /** The only hit returns the row that already records its match, as it stands. */
  lemma HitIsFound(env: Env, db: Db, w: Setting, row: PageEmbedding, threshold: real, minSimilarity: real, query: seq<F32>, id: Uuid, c: Candidate)
    requires Usable(env, w) && Searchable(db, w, row) && 0.0 <= threshold <= 1.0
    requires Answers(env, w, row.vector, threshold, minSimilarity, query)
    requires KeyIn(env, db, w, row) in db.candidates && db.candidates[KeyIn(env, db, w, row)] == c
    requires c.rule == w.rule && c.ruleRevision == w.revision && c.revision == row.revision && c.evidence == Historical(row.id)
    ensures EvaluateMatches(env, db, AskIn(w, threshold, minSimilarity, query), [id]) == (db, Ok([c]))
  {
    AskIsPlanned(env, db, w, threshold, minSimilarity, query);
    AskFindsTheRow(env, db, w, row, threshold, minSimilarity, query);
    OneHit(env, db, PlanIn(w, threshold, minSimilarity, query), row, id);
  }

  // ---------------------------------------------------------------- rows written below the threshold

  /** Every row that an evaluation with this composed threshold and minimum similarity adds is at or above the threshold. */
  ghost predicate WritesKeep(env: Env, threshold: real, minSimilarity: real) {
    forall db, log, req, ids ::
      Reachable(env, db, log) && Asks(env, db, req, ids, threshold, minSimilarity) ==>
      NewRowsReach(db, EvaluateMatches(env, db, req, ids).0, threshold, threshold)
  }

  predicate Asks(env: Env, db: Db, req: EvaluateRequest, ids: seq<Uuid>, threshold: real, minSimilarity: real)
    ensures Asks(env, db, req, ids, threshold, minSimilarity) ==> |ids| >= req.search.limit
  {
    && |ids| >= req.search.limit && PlanEvaluation(db, req).Ok?
    && PlanEvaluation(db, req).value.threshold == threshold && req.search.minSimilarity == minSimilarity
  }

  lemma CoveredWritesKeep(env: Env, threshold: real, minSimilarity: real)
    requires threshold <= Max(minSimilarity, env.round(threshold))
    ensures WritesKeep(env, threshold, minSimilarity)
  {
    forall db, log, req, ids | Reachable(env, db, log) && Asks(env, db, req, ids, threshold, minSimilarity)
      ensures NewRowsReach(db, EvaluateMatches(env, db, req, ids).0, threshold, threshold)
    {
      WritesReachSearch(env, db, req, ids);
    }
  }

  /** Every page lies at one similarity from every query. */
  function Uniform(sha: Sha, round: real -> real, similarity: Unit): Env {
    Env(sha, (a: seq<F32>, b: seq<F32>) => 1.0 - similarity, round)
  }

  /**
   A run from the empty store whose evaluation writes and returns a candidate less similar than the
   threshold recorded in it, whenever the cast lowers the threshold and the minimum similarity does not cover it.
   */
  lemma LowerRowIsWritten(sha: Sha, round: real -> real, w: Setting, hash: string -> int, threshold: real, minSimilarity: real,
                          query: seq<F32>, ids: Ids, page: Uuid, id: Uuid)
    returns (env: Env, db: Db, log: Log, c: Candidate)
    requires Casts(round) && 0.0 <= threshold <= 1.0 && Max(minSimilarity, round(threshold)) < threshold
    requires w.rule != w.revision && 1 <= |w.owner| <= 256 && w.threshold == 0.0 && |ids.candidates| >= 1
    ensures env.sha == sha && env.round == round && Reachable(env, db, log)
    ensures Asks(env, db, AskIn(w, threshold, minSimilarity, query), [id], threshold, minSimilarity)
    ensures var (d, r) := EvaluateMatches(env, db, AskIn(w, threshold, minSimilarity, query), [id]);
            && r == Ok([c]) && c.similarity == Max(minSimilarity, round(threshold)) < c.threshold == threshold
            && exists k :: k in d.candidates && k !in db.candidates && d.candidates[k] == c
  {
    assert round(0.0) <= round(threshold);
    env := Uniform(sha, round, Max(minSimilarity, round(threshold)));
    var row;
    db, log, row := PageIsSearchable(env, hash, w, query, ids, page);
    AskIsPlanned(env, db, w, threshold, minSimilarity, query);
    HitIsWritten(env, db, w, row, threshold, minSimilarity, query, id);
    c := RowIn(env, w, row, threshold, query, id);
    var d := EvaluateMatches(env, db, AskIn(w, threshold, minSimilarity, query), [id]).0;
    assert KeyIn(env, db, w, row) in d.candidates && KeyIn(env, db, w, row) !in db.candidates;
  }

  /** Some setting for a rule with this threshold. */
  function AnySetting(threshold: Unit): (w: Setting)
    ensures w.rule != w.revision && 1 <= |w.owner| <= 256 && w.threshold == threshold
  {
    Setting(0, "owner", 0, 1, 0, "https://example.org/", "text", Space("model", "1", 1, L2), threshold)
  }

  /** What an evaluation writes is at or above the composed threshold in every store exactly when the cast does not lower it or the minimum similarity covers it. */
  lemma WritesKeepIff(sha: Sha, round: real -> real, threshold: real, minSimilarity: real)
    requires Casts(round) && 0.0 <= threshold <= 1.0
    ensures (forall distance :: WritesKeep(Env(sha, distance, round), threshold, minSimilarity))
            <==> threshold <= Max(minSimilarity, round(threshold))
  {
    if threshold <= Max(minSimilarity, round(threshold)) {
      forall distance ensures WritesKeep(Env(sha, distance, round), threshold, minSimilarity) {
        CoveredWritesKeep(Env(sha, distance, round), threshold, minSimilarity);
      }
    } else {
      var w, ids, query := AnySetting(0.0), Ids(0, 0, [0]), [];
      var env, db, log, c := LowerRowIsWritten(sha, round, w, _ => 0, threshold, minSimilarity, query, ids, 0, 0);
      var req := AskIn(w, threshold, minSimilarity, query);
      assert !NewRowsReach(db, EvaluateMatches(env, db, req, [0]).0, threshold, threshold);
      assert !WritesKeep(Env(sha, env.distance, round), threshold, minSimilarity);
    }
  }

  // ---------------------------------------------------------------- rows found below the threshold

  predicate AsksAbout(db: Db, req: EvaluateRequest, ids: seq<Uuid>, requested: real, stored: real, minSimilarity: real)
    ensures AsksAbout(db, req, ids, requested, stored, minSimilarity) ==> |ids| >= req.search.limit
  {
    && |ids| >= req.search.limit && PlanEvaluation(db, req).Ok? && LoadsRule(db, req.ctx, req.rule)
    && req.threshold == Some(requested) && LoadedRevision(db, req.ctx, req.rule).threshold == stored
    && req.search.minSimilarity == minSimilarity
  }

  predicate AllReach(r: Result<seq<Candidate>, Failure>, similarity: real) {
    r.Ok? ==> forall c :: c in r.value ==> c.similarity >= similarity
  }

  /** Every candidate returned for the requested threshold, over a rule with the stored one, is at or above both. */
  ghost predicate ReturnsKeep(env: Env, requested: real, stored: real, minSimilarity: real) {
    forall db, log, req, ids ::
      Reachable(env, db, log) && AsksAbout(db, req, ids, requested, stored, minSimilarity) ==>
      AllReach(EvaluateMatches(env, db, req, ids).1, Max(requested, stored))
  }

  lemma StoredThresholdIsKept(env: Env, requested: real, stored: real, minSimilarity: real)
    requires Injective(env.sha) && Rounding(env.round) && requested <= stored
    ensures ReturnsKeep(env, requested, stored, minSimilarity)
  {
    forall db, log, req, ids | Reachable(env, db, log) && AsksAbout(db, req, ids, requested, stored, minSimilarity)
      ensures AllReach(EvaluateMatches(env, db, req, ids).1, Max(requested, stored))
    {
      ReachableFits(env, db, log);
      EvaluateMatchesMeaning(env, db, req, ids);
    }
  }

  /** Two queries: pages are at one similarity from the first and identical to the second. */
  function TwoQueries(sha: Sha, round: real -> real, first: seq<F32>, similarity: Unit): Env {
    Env(sha, (a: seq<F32>, b: seq<F32>) => if b == first then 1.0 - similarity else 0.0, round)
  }

  /**
   A run from the empty store: an evaluation at the rule's own threshold records a match; a later one with
   a higher threshold and a query the page fits exactly returns that row, below the threshold it asked for.
   */
  lemma EarlierRowIsReturned(sha: Sha, round: real -> real, w: Setting, hash: string -> int, requested: real, minSimilarity: real,
                             first: seq<F32>, second: seq<F32>, ids: Ids, page: Uuid, id: Uuid, again: Uuid)
    returns (env: Env, db: Db, log: Log, c: Candidate)
    requires Casts(round) && 0.0 <= requested <= 1.0 && minSimilarity <= 1.0 && w.threshold < requested && first != second
    requires w.rule != w.revision && 1 <= |w.owner| <= 256 && round(w.threshold) == w.threshold && |ids.candidates| >= 1
    ensures env.sha == sha && env.round == round && Reachable(env, db, log)
    ensures AsksAbout(db, AskIn(w, requested, minSimilarity, second), [again], requested, w.threshold, minSimilarity)
    ensures EvaluateMatches(env, db, AskIn(w, requested, minSimilarity, second), [again]) == (db, Ok([c]))
    ensures c.similarity == w.threshold < requested
  {
    env := TwoQueries(sha, round, first, w.threshold);
    var before, row;
    before, log, row := PageIsSearchable(env, hash, w, second, ids, page);
    HitIsWritten(env, before, w, row, w.threshold, -1.0, first, id);
    c := RowIn(env, w, row, w.threshold, first, id);
    var ask := AskIn(w, w.threshold, -1.0, first);
    db := EvaluateMatches(env, before, ask, [id]).0;
    ReachNext(env, before, log, EvaluateRule(ask, [id]), db, log);
    AskIsPlanned(env, db, w, requested, minSimilarity, second);
    assert round(requested) <= round(1.0);
    HitIsFound(env, db, w, row, requested, minSimilarity, second, again, c);
  }

  /** No page is more similar than identical, so nothing is returned above one. */
  lemma NothingAboveOne(env: Env, requested: real, stored: real, minSimilarity: real)
    requires minSimilarity > 1.0
    ensures ReturnsKeep(env, requested, stored, minSimilarity)
  {
    forall db, log, req, ids | Reachable(env, db, log) && AsksAbout(db, req, ids, requested, stored, minSimilarity)
      ensures AllReach(EvaluateMatches(env, db, req, ids).1, Max(requested, stored))
    {
      NoHitsAboveOne(env, db, RaisedSearch(env, PlanEvaluation(db, req).value));
    }
  }

  lemma NoHitsAboveOne(env: Env, db: Db, req: Search)
    requires req.minSimilarity > 1.0
    ensures SearchPage(env, db, req).hits == []
  {
    HitsResolve(env, db, req);
    var hits := SearchPage(env, db, req).hits;
    forall h: PageEmbedding ensures !InScope(env, db, req, h) {
      assert PageDistance(env, h, req.vector) >= 0.0;
    }
    assert multiset(hits) == multiset{};
    assert |hits| == |multiset(hits)|;
  }

  /**
   Returned candidates meet the composed threshold in every store exactly when the caller asks for no more than
   the rule stores, or for a similarity that no page has.
   */
  lemma ReturnsKeepIff(sha: Sha, round: real -> real, requested: real, stored: Unit, minSimilarity: real)
    requires Injective(sha) && Casts(round) && 0.0 <= requested <= 1.0 && round(stored) == stored
    ensures (forall distance :: ReturnsKeep(Env(sha, distance, round), requested, stored, minSimilarity))
            <==> requested <= stored || minSimilarity > 1.0
  {
    if requested <= stored {
      forall distance ensures ReturnsKeep(Env(sha, distance, round), requested, stored, minSimilarity) {
        StoredThresholdIsKept(Env(sha, distance, round), requested, stored, minSimilarity);
      }
    } else if minSimilarity > 1.0 {
      forall distance ensures ReturnsKeep(Env(sha, distance, round), requested, stored, minSimilarity) {
        NothingAboveOne(Env(sha, distance, round), requested, stored, minSimilarity);
      }
    } else {
      var w, ids := AnySetting(stored), Ids(0, 0, [0]);
      var env, db, log, c := EarlierRowIsReturned(sha, round, w, _ => 0, requested, minSimilarity, [0], [], ids, 0, 0, 0);
      var req := AskIn(w, requested, minSimilarity, []);
      assert c in EvaluateMatches(env, db, req, [0]).1.value;
      assert !AllReach(EvaluateMatches(env, db, req, [0]).1, Max(requested, stored));
      assert !ReturnsKeep(Env(sha, env.distance, round), requested, stored, minSimilarity);
    }
  }

  // ---------------------------------------------------------------- seven tenths

  /** The distance of two neighbouring f32 values between one half and one, as a fraction of one. */
  const STEPS: real := 16777216.0

  /** The nearest integer, the even one of two. */
  function NearestInt(x: real): int {
    var f := x.Floor;
    if x - f as real < 0.5 then f
    else if x - f as real > 0.5 then f + 1
    else if f % 2 == 0 then f else f + 1
  }

  /** The cast to f32 for values between one half and one: the nearest multiple of the step, ties to even. */
  function CastNearest(x: real): real {
    NearestInt(x * STEPS) as real / STEPS
  }

  lemma NearestMonotone(x: real, y: real)
    requires x <= y
    ensures NearestInt(x) <= NearestInt(y)
  {
    assert x.Floor <= y.Floor;
  }

  lemma NearestOfInt(n: int)
    ensures NearestInt(n as real) == n
  {
  }

  lemma CastNearestCasts()
    ensures Casts(CastNearest)
  {
    forall x, y | x <= y ensures CastNearest(x) <= CastNearest(y) {
      NearestMonotone(x * STEPS, y * STEPS);
    }
    forall x ensures CastNearest(CastNearest(x)) == CastNearest(x) {
      assert CastNearest(x) * STEPS == NearestInt(x * STEPS) as real;
      NearestOfInt(NearestInt(x * STEPS));
    }
    NearestOfInt(0);
    NearestOfInt(16777216);
  }

  /** The f64 nearest to 0.7. */
  const SEVEN_TENTHS: real := 6305039478318694.0 / 9007199254740992.0

  /** A caller who asks for 0.7 of a rule that stores zero is given a new candidate below the 0.7 recorded in it. */
  lemma SevenTenthsIsLowered(sha: Sha, hash: string -> int) returns (env: Env, db: Db, log: Log, req: EvaluateRequest, ids: seq<Uuid>, c: Candidate)
    ensures env.sha == sha && env.round == CastNearest && Reachable(env, db, log)
    ensures Asks(env, db, req, ids, SEVEN_TENTHS, 0.0) && req.threshold == Some(SEVEN_TENTHS)
    ensures EvaluateMatches(env, db, req, ids).1 == Ok([c])
    ensures c.similarity == 11744051.0 / STEPS < SEVEN_TENTHS == c.threshold
  {
    CastNearestCasts();
    assert NearestInt(SEVEN_TENTHS * STEPS) == 11744051;
    assert CastNearest(SEVEN_TENTHS) == 11744051.0 / STEPS;
    var w, query := AnySetting(0.0), [];
    env, db, log, c := LowerRowIsWritten(sha, CastNearest, w, hash, SEVEN_TENTHS, 0.0, query, Ids(0, 0, [0]), 0, 0);
    req, ids := AskIn(w, SEVEN_TENTHS, 0.0, query), [0];
  }
}
