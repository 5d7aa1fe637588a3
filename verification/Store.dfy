/**
 The tables as mutable state, and the service's operations on them statement by statement. Each
 operation is a step of the runs in `LedgerRuns`: it takes the tables where its specification in
 `Ledger` says, keeps the store valid, and its contract says when it succeeds and what it leaves.
 */
module Store {
  import opened Wrappers
  import opened Uuids
  import opened MatchKeys
  import opened Ranking
  import opened Sequences
  import Paging
  import opened SourceScope
  import opened Activation
  import opened Ledger
  import opened LedgerProof
  import opened PageHistory
  import opened RuleEmbeddings
  import Evaluation
  import opened Immutability
  import opened Columns
  import LedgerRuns
  import Text

  class Store {
    const env: Env
    var pages: map<PageKey, Ledger.Page>
    var revisions: map<RevisionKey, PageRevision>
    var rules: map<Uuid, Rule>
    var ruleRevisions: map<Uuid, RuleRevision>
    var ruleEmbeddings: seq<RuleEmbedding>
    var pageEmbeddings: seq<PageEmbedding>
    var candidates: map<CandidateKey, Candidate>
    /** The ingests committed so far. */
    ghost var log: Log

    function Snapshot(): Db
      reads this
    {
      Db(pages, revisions, rules, ruleRevisions, ruleEmbeddings, pageEmbeddings, candidates)
    }

    ghost predicate Valid()
      reads this
    {
      Injective(env.sha) && Evaluation.Rounding(env.round) && LedgerRuns.StoreInv(env, Snapshot(), log)
    }

    /** A store over tables that some history of ingests explains; the empty tables are such. */
    constructor (env: Env, db: Db, ghost log: Log)
      requires Injective(env.sha) && Evaluation.Rounding(env.round) && LedgerRuns.StoreInv(env, db, log)
      ensures this.env == env && Snapshot() == db && this.log == log && Valid()
    {
      this.env, this.log := env, log;
      pages, revisions, rules, ruleRevisions := db.pages, db.revisions, db.rules, db.ruleRevisions;
      ruleEmbeddings, pageEmbeddings, candidates := db.ruleEmbeddings, db.pageEmbeddings, db.candidates;
    }

    // -------------------------------------------------------------- reverse matching

    /**
     The page and its revision are upserted in one statement; a second statement moves the latest pointer. A new
     revision points back to the page's latest one before.
     */
    method UpsertPageRevision(req: Ingest, ids: Ids) returns (receipt: PageReceipt)
      modifies this`pages, this`revisions
      ensures (Snapshot(), receipt) == UpsertPage(env, old(Snapshot()), req, ids)
      ensures PageColumns(env, old(Snapshot()), req, ids, Snapshot(), receipt)
    {
      UpsertWritesPage(env, Snapshot(), req, ids);
      var page := PageKeyOf(req);
      var content := Text.CollapseWhitespace(req.content);
      var key := RevisionKey(page, TextSha(env.sha, content));
      if page in pages {
        pages := pages[page := pages[page].(lastSeen := req.fetchedAt)];
      } else {
        pages := pages[page := Ledger.Page(ids.page, req.fetchedAt, req.fetchedAt, None)];
      }
      var changed := key !in revisions;
      if changed {
        var title := if req.title == Some("") then None else req.title;
        revisions := revisions[key := PageRevision(ids.revision, pages[page].latest, req.originalUrl, title, content, req.fetchedAt)];
      }
      receipt := PageReceipt(pages[page].id, revisions[key].id, key, changed);

      pages := pages[page := pages[page].(latest := Some(key), lastSeen := req.fetchedAt)];
      assert pages == old(pages)[page := TouchedPage(old(Snapshot()), req, ids.page).(latest := Some(key))];
    }

    /** The ledger stands, the receipt names a stored revision of the tenant, and the query selected the embedding. */
    ghost predicate WritesMatch(req: Ingest, receipt: PageReceipt, e: RuleEmbedding)
      reads this
    {
      && Injective(env.sha) && LedgerInv(env, Snapshot()) && ReceiptFits(Snapshot(), req, receipt)
      && e in ruleEmbeddings && Qualifies(env, Snapshot(), req, e)
    }

    /**
     Insert the candidate, or return the row that holds its key with the same evidence: a selected match is
     refused exactly when the other mode or another page vector holds its key, and is stored and returned otherwise.
     */
    method PersistReverseCandidate(req: Ingest, receipt: PageReceipt, e: RuleEmbedding, id: Uuid)
      returns (r: Result<ReverseCandidate, Failure>)
      modifies this`candidates
      ensures match PersistReverse(env, old(Snapshot()), req, receipt, e, id)
              case Ok((d, c)) => Snapshot() == d && r == Ok(c)
              case Err(f) => Snapshot() == old(Snapshot()) && r == Err(f)
      ensures r.Ok? && receipt.revision in revisions ==>
                OnlyAddsCandidates(old(Snapshot()), Snapshot()) && Returned(env, Snapshot(), req, receipt, e, r.value)
                && forall k :: k in candidates && k !in old(candidates) ==> k == ReverseKey(env, req, receipt, e)
      ensures old(WritesMatch(req, receipt, e)) ==>
                WriteFailsIfBlocked(env, old(Snapshot()), req, receipt, e, r) && LedgerInv(env, Snapshot())
      ensures forall k :: k in candidates && k !in old(candidates) && e.ruleRevision in ruleRevisions ==>
                ReverseColumns(env, old(Snapshot()), req, receipt, e, id, k, candidates[k])
    {
      ReverseWriteMeaning(env, Snapshot(), req, receipt, e, id);
      var key := ReverseKey(env, req, receipt, e);
      var row := ReverseRow(env, Snapshot(), req, receipt, e, id);
      if key !in candidates {
        candidates := candidates[key := row];
        return Ok(ReverseOutput(receipt.revisionId, key, row));
      }
      var existing := candidates[key];
      if SameReverseEvidence(Snapshot(), existing, row) {
        return Ok(ReverseOutput(receipt.revisionId, key, existing));
      }
      return Err(Conflict);
    }

    /** The loop over the candidate rows; a failing write leaves it at once. */
    method PersistCandidates(req: Ingest, receipt: PageReceipt, rows: seq<RuleEmbedding>, ids: seq<Uuid>)
      returns (r: Result<seq<ReverseCandidate>, Failure>)
      requires |rows| <= |ids|
      modifies this`candidates
      ensures match PersistAll(env, old(Snapshot()), req, receipt, rows, ids)
              case Ok((d, out)) => Snapshot() == d && r == Ok(out)
              case Err(f) => r == Err(f)
    {
      ghost var db := Snapshot();
      var out: seq<ReverseCandidate> := [];
      for i := 0 to |rows|
        invariant PersistAll(env, db, req, receipt, rows[..i], ids) == Ok((Snapshot(), out))
      {
        RowStep(env, db, req, receipt, rows, ids, i, Snapshot(), out);
        if !(Similarity(env, rows[i], req.vector) < ThresholdOf(Snapshot(), rows[i])) {
          var durable := PersistReverseCandidate(req, receipt, rows[i], ids[i]);
          if durable.Err? {
            LoopStops(env, db, req, receipt, rows, ids, i);
            return Err(durable.error);
          }
          out := out + [durable.value];
        }
      }
      assert rows[..|rows|] == rows;
      r := Ok(out);
    }

    /** One transaction; a failure in the loop rolls everything back. */
    method Transact(req: Ingest, ids: Ids) returns (r: Result<IngestResponse, Failure>)
      requires |ids.candidates| >= req.maxCandidates
      modifies this`pages, this`revisions, this`candidates
      ensures (Snapshot(), r) == IngestPage(env, old(Snapshot()), req, ids)
    {
      var pages0, revisions0, candidates0 := pages, revisions, candidates;
      var receipt := UpsertPageRevision(req, ids);
      var rows := FindCandidates(env, Snapshot(), req);
      var out := PersistCandidates(req, receipt, rows, ids.candidates);
      if out.Err? {
        pages, revisions, candidates := pages0, revisions0, candidates0;
        return Err(out.error);
      }
      r := Ok(IngestResponse(receipt.pageId, receipt.revisionId, receipt.revision.sha, receipt.changed, out.value));
    }

    /**
     The ingest fails exactly when a selected match is held by the other mode or for another page vector, and then
     leaves everything as it was; otherwise the nearest embeddings of serving rules that admit the source are selected, a
     new match is stored as pending, every selected match is returned and the visit enters the history.
     */
    method IngestAndReverseMatch(req: Ingest, ids: Ids) returns (r: Result<IngestResponse, Failure>)
      requires Valid() && |ids.candidates| >= req.maxCandidates && FreshRevision(Snapshot(), ids.revision)
      modifies this`pages, this`revisions, this`candidates, this`log
      ensures Valid() && Evolves(old(Snapshot()), Snapshot())
      ensures (Snapshot(), r) == IngestPage(env, old(Snapshot()), req, ids)
      ensures IngestOutcome(env, old(Snapshot()), old(log), req, ids, Selected(env, old(Snapshot()), req, ids), Snapshot(), log, r)
    {
      ghost var db, before := Snapshot(), log;
      r := Transact(req, ids);
      log := LogAfter(before, req, r);
      IngestMeaning(env, db, before, req, ids, Snapshot(), log, r);
    }

    // -------------------------------------------------------------- rule embeddings

    /**
     Insert into the slot unless it is taken, then compare fingerprints. The call succeeds exactly for the active
     revision of an active rule, configured for the model, with an empty slot or one that holds the same vector; only
     the empty slot is written.
     */
    method UpsertAlertRuleEmbedding(req: EmbeddingRequest, id: Uuid) returns (r: Result<EmbeddingReceipt, Failure>)
      requires Valid() && FreshEmbedding(Snapshot(), id)
      modifies this`ruleEmbeddings
      ensures Valid() && Evolves(old(Snapshot()), Snapshot())
      ensures (Snapshot(), r) == UpsertEmbedding(env, old(Snapshot()), req, id)
      ensures UpsertOutcome(old(Snapshot()), req, Snapshot(), r)
    {
      UpsertMeaning(env, Snapshot(), log, req, id);
      r := InsertOrCompare(req, id);
    }

    /** The statement with its conflict clause, and the checks of the row it selects. */
    method InsertOrCompare(req: EmbeddingRequest, id: Uuid) returns (r: Result<EmbeddingReceipt, Failure>)
      modifies this`ruleEmbeddings
      ensures (Snapshot(), r) == UpsertEmbedding(env, old(Snapshot()), req, id)
    {
      var sha := EmbeddingSha(env.sha, req.vector);
      if !IsTarget(Snapshot(), req) {
        return Err(Invalid);
      }
      var slot := FindEmbedding(ruleEmbeddings, req.tenant, req.ruleRevision, req.space);
      var selected, created;
      if slot.None? {
        selected := RuleEmbedding(id, req.tenant, req.rule, req.ruleRevision, req.space, req.vector, sha);
        created := true;
        ruleEmbeddings := ruleEmbeddings + [selected];
      } else if slot.value.rule != req.rule {
        return Err(Invalid);
      } else {
        selected, created := slot.value, false;
      }
      if selected.sha != sha {
        return Err(Conflict);
      }
      r := Ok(EmbeddingReceipt(selected.id, created));
    }

    // -------------------------------------------------------------- search and evaluation

    /**
     Ask for one row more than the limit; if it is there, drop it and point at the last row kept. The page has the
     nearest rows sought after the cursor, and a next cursor exactly when it leaves one of them out for a later page.
     */
    method SearchEmbeddings(req: Search) returns (page: Paging.Page<PageEmbedding>)
      ensures page == SearchPage(env, Snapshot(), req)
      ensures PageEmbeddingsUnique(Snapshot()) ==> SearchColumns(env, Snapshot(), req, page)
    {
      if PageEmbeddingsUnique(Snapshot()) {
        SearchFindsSought(env, Snapshot(), req);
      }
      var rows := Paging.Remaining(PageRankOf(env, req.vector), ScopedRows(env, Snapshot(), req), req.cursor);
      var records := Take(rows, req.limit + 1);
      var hasMore := |records| > req.limit;
      if hasMore {
        records := records[..req.limit];
      }
      var next := None;
      if hasMore && records != [] {
        next := Some(PageRankOf(env, req.vector)(records[|records| - 1]));
      }
      page := Paging.Page(records, next);
    }

    method PersistHistoricalCandidate(req: Ledger.Evaluation, hit: PageEmbedding, id: Uuid) returns (r: Result<Candidate, Failure>)
      requires hit.revision in revisions
      modifies this`candidates
      ensures match PersistHistorical(env, old(Snapshot()), req.search.tenant, req.rule, req.ruleRevision, hit, req.search.vector, req.threshold, id)
              case Ok((d, c)) => Snapshot() == d && r == Ok(c)
              case Err(f) => Snapshot() == old(Snapshot()) && r == Err(f)
    {
      var key := HistoricalKey(env, Snapshot(), req.search.tenant, req.rule, req.ruleRevision, hit);
      var row := HistoricalRow(env, req.rule, req.ruleRevision, hit, req.search.vector, req.threshold, id);
      if key !in candidates {
        candidates := candidates[key := row];
        return Ok(row);
      }
      if SameHistoricalEvidence(candidates[key], row) {
        return Ok(candidates[key]);
      }
      return Err(Internal);
    }

    /** The loop over the hits. No transaction: candidates written before a failing one stay. */
    method PersistHits(req: Ledger.Evaluation, hits: seq<PageEmbedding>, ids: seq<Uuid>) returns (r: Result<seq<Candidate>, Failure>)
      requires |hits| <= |ids| && forall h :: h in hits ==> h.revision in revisions
      modifies this`candidates
      ensures (Snapshot(), r) == EvaluateHits(env, old(Snapshot()), req, hits, ids)
    {
      ghost var db := Snapshot();
      var out: seq<Candidate> := [];
      for i := 0 to |hits|
        invariant EvaluateHits(env, db, req, hits[..i], ids) == (Snapshot(), Ok(out))
      {
        EvaluationStep(env, db, req, hits, ids, i, Snapshot(), out);
        var candidate := PersistHistoricalCandidate(req, hits[i], ids[i]);
        if candidate.Err? {
          EvaluationStops(env, db, req, hits, ids, i);
          return Err(candidate.error);
        }
        out := out + [candidate.value];
      }
      assert hits[..|hits|] == hits;
      r := Ok(out);
    }

    /** `store::evaluate_matches`: raise the minimum similarity, search once, write a candidate per hit. */
    method EvaluateMatches(req: Ledger.Evaluation, ids: seq<Uuid>) returns (r: Result<seq<Candidate>, Failure>)
      requires |ids| >= req.search.limit
      modifies this`candidates
      ensures (Snapshot(), r) == Evaluate(env, old(Snapshot()), req, ids)
    {
      var search := req.search;
      search := search.(minSimilarity := Max(search.minSimilarity, env.round(req.threshold)));
      var page := SearchEmbeddings(search);
      HitsResolve(env, Snapshot(), search);
      r := PersistHits(req, page.hits, ids);
    }

    /** The route: checks, then the search narrowed step by step to the rule's scope. */
    method PlanAndEvaluate(req: EvaluateRequest, ids: seq<Uuid>) returns (r: Result<seq<Candidate>, Failure>)
      requires |ids| >= req.search.limit
      modifies this`candidates
      ensures (Snapshot(), r) == Ledger.EvaluateMatches(env, old(Snapshot()), req, ids)
    {
      if req.threshold.None? || !(0.0 <= req.threshold.value <= 1.0) {
        return Err(Invalid);
      }
      if !LoadsRule(Snapshot(), req.ctx, req.rule) {
        return Err(NotFound);
      }
      var revision := LoadedRevision(Snapshot(), req.ctx, req.rule);
      if !revision.enabled || req.search.space.model != revision.model {
        return Err(Invalid);
      }
      var search := req.search;
      var scope := Constrain(revision.sourceFilters, search.sources);
      if scope.Err? {
        return Err(Invalid);
      }
      search := search.(sources := scope.value);
      search := search.(tenant := req.ctx.tenant);
      var threshold := Max(req.threshold.value, revision.threshold);
      r := EvaluateMatches(Ledger.Evaluation(req.rule, rules[req.rule].active.value, threshold, search), ids);
    }

    /**
     A request that is not acceptable changes nothing; an acceptable one finds the nearest pages it may match and records
     each as a pending candidate, or stops at the first that is held by the reverse path.
     */
    method EvaluateRoute(req: EvaluateRequest, ids: seq<Uuid>) returns (r: Result<seq<Candidate>, Failure>)
      requires Valid() && |ids| >= req.search.limit
      modifies this`candidates
      ensures Valid() && Evolves(old(Snapshot()), Snapshot())
      ensures (Snapshot(), r) == Ledger.EvaluateMatches(env, old(Snapshot()), req, ids)
      ensures EvaluationOutcome(env, old(Snapshot()), req, ids, Snapshot(), r)
    {
      RouteMeaning(env, Snapshot(), log, req, ids);
      r := PlanAndEvaluate(req, ids);
    }

    // -------------------------------------------------------------- direct changes

    /** A direct statement: the row triggers run before anything is written. */
    method Execute(m: Mutation) returns (ok: bool)
      modifies this`candidates, this`revisions, this`pageEmbeddings
      ensures ok == Mutate(old(Snapshot()), m).Ok?
      ensures Snapshot() == MutatedBy(old(Snapshot()), m)
    {
      match m
      case UpdateCandidate(key, key', row) =>
        if key !in candidates {
          return true;
        }
        if EvidenceMutated(key, candidates[key], key', row) || !IdFree(Snapshot(), key, row.id) {
          return false;
        }
        candidates := candidates[key := row];
        return true;
      case DeleteCandidate(key) => return key !in candidates;
      case UpdateRuleRevision(id, _) => return id !in ruleRevisions;
      case DeleteRuleRevision(id) => return id !in ruleRevisions;
      case UpdateRuleEmbedding(i, _) => return i >= |ruleEmbeddings|;
      case DeleteRuleEmbedding(i) => return i >= |ruleEmbeddings|;
      case SetPageContent(key, content) =>
        if key in revisions {
          revisions := revisions[key := revisions[key].(content := content)];
        }
        return true;
      case SetPageVector(i, vector) =>
        if i < |pageEmbeddings| {
          pageEmbeddings := pageEmbeddings[i := pageEmbeddings[i].(vector := vector)];
        }
        return true;
      case DeletePageEmbedding(i) =>
        if i < |pageEmbeddings| {
          if Cited(Snapshot(), pageEmbeddings[i]) {
            return false;
          }
          pageEmbeddings := pageEmbeddings[..i] + pageEmbeddings[i + 1..];
        }
        return true;
    }

    /**
     The store stays valid, and what never changes has not changed, unless the statement rewrites a page revision or
     embedding. Of a candidate only the identifier, the status and the update time move, and none is deleted.
     */
    method Change(m: Mutation) returns (ok: bool)
      requires Valid()
      modifies this`candidates, this`revisions, this`pageEmbeddings
      ensures ok == Mutate(old(Snapshot()), m).Ok?
      ensures Snapshot() == MutatedBy(old(Snapshot()), m)
      ensures ChangeOutcome(old(Snapshot()), m, Snapshot(), ok)
      ensures !Rewrites(old(Snapshot()), m) ==> Valid()
    {
      ghost var db := Snapshot();
      ok := Execute(m);
      ChangeMeaning(env, db, log, m, Snapshot(), ok);
    }
  }

  // ---------------------------------------------------------------- what the operations mean

  /** A selected match is refused exactly when it is blocked; an admitted one is stored and returned. */
  lemma ReverseWriteMeaning(env: Env, db: Db, req: Ingest, receipt: PageReceipt, e: RuleEmbedding, id: Uuid)
    ensures var w := PersistReverse(env, db, req, receipt, e, id);
            && (w.Ok? && receipt.revision in db.revisions ==>
                  && OnlyAddsCandidates(db, w.value.0) && Returned(env, w.value.0, req, receipt, e, w.value.1)
                  && forall k :: k in w.value.0.candidates && k !in db.candidates ==> k == ReverseKey(env, req, receipt, e))
            && (Injective(env.sha) && LedgerInv(env, db) && ReceiptFits(db, req, receipt) && e in db.ruleEmbeddings && Qualifies(env, db, req, e) ==>
                  WriteFailsIfBlocked(env, db, req, receipt, e, w) && (w.Ok? ==> LedgerInv(env, w.value.0)))
  {
    var w := PersistReverse(env, db, req, receipt, e, id);
    if w.Ok? && receipt.revision in db.revisions {
      WriteReturns(env, db, req, receipt, e, id);
    }
    if Injective(env.sha) && LedgerInv(env, db) && ReceiptFits(db, req, receipt) && e in db.ruleEmbeddings && Qualifies(env, db, req, e) {
      if ReverseKey(env, req, receipt, e) in db.candidates {
        ExistingReverseRow(env, db, req, receipt, e, id);
      }
      if w.Ok? {
        WriteKeepsInv(env, db, req, receipt, e, id);
      }
    }
  }

  function LogAfter(log: Log, req: Ingest, r: Result<IngestResponse, Failure>): Log {
    if r.Ok? then log + [VisitOf(req)] else log
  }

  /** What an ingest leaves behind and returns, given its receipt and the embeddings it selected. */
  ghost predicate IngestOutcome(env: Env, db: Db, log: Log, req: Ingest, ids: Ids, met: (PageReceipt, seq<RuleEmbedding>),
                                d: Db, log': Log, r: Result<IngestResponse, Failure>)
  {
    if AnyBlocked(env, db, req, met.0, met.1) then r == Err(Conflict) && d == db && log' == log
    else
      && r.Ok? && log' == log + [VisitOf(req)]
      && AllReturned(env, d, req, met.0, met.1, r.value.candidates)
      && IngestColumns(env, db, req, ids, d, met.0, met.1, r.value)
      && (r.value.changed <==> VisitOf(req) !in log)
  }

  lemma IngestMeaning(env: Env, db: Db, log: Log, req: Ingest, ids: Ids, d: Db, log': Log, r: Result<IngestResponse, Failure>)
    requires Injective(env.sha) && LedgerRuns.StoreInv(env, db, log)
    requires |ids.candidates| >= req.maxCandidates && FreshRevision(db, ids.revision)
    requires (d, r) == IngestPage(env, db, req, ids) && log' == LogAfter(log, req, r)
    ensures LedgerRuns.StoreInv(env, d, log') && Evolves(db, d) && IngestOutcome(env, db, log, req, ids, Selected(env, db, req, ids), d, log', r)
  {
    LedgerRuns.IngestKeepsInv(env, db, log, req, ids);
    LedgerRuns.IngestEvolves(env, db, req, ids);
    IngestFailsIff(env, db, req, ids);
    ChangedMeansNewContent(env, db, log, req, ids);
    if IngestPage(env, db, req, ids).1.Ok? {
      IngestReturnsSelected(env, db, req, ids);
      IngestWritesColumns(env, db, req, ids);
    }
  }

  lemma IngestReturnsSelected(env: Env, db: Db, req: Ingest, ids: Ids)
    requires RuleEmbeddingsUnique(db) && |ids.candidates| >= req.maxCandidates && IngestPage(env, db, req, ids).1.Ok?
    ensures var (d, r) := IngestPage(env, db, req, ids);
            var (receipt, es) := Selected(env, db, req, ids);
            AllReturned(env, d, req, receipt, es, r.value.candidates)
  {
    var (db1, receipt) := UpsertPage(env, db, req, ids);
    var es := FindCandidates(env, db1, req);
    FindCandidatesAdmitted(env, db1, req);
    PersistAllPersists(env, db1, req, receipt, es, ids.candidates);
  }

  /**
   A call succeeds exactly for a serving revision with an empty slot or one that holds the same vector; only an empty
   slot is written, and the receipt names the row in the slot.
   */
  ghost predicate UpsertOutcome(db: Db, req: EmbeddingRequest, d: Db, r: Result<EmbeddingReceipt, Failure>) {
    var slot := SlotOf(db, req);
    && (r.Ok? <==> Serves(db, req.tenant, req.rule, req.ruleRevision, req.space.model)
                   && (slot.Some? ==> SameVector(slot.value.vector, req.vector)))
    && (r.Err? || slot.Some? ==> d == db)
    && (r.Ok? ==> SlotOf(d, req).Some? && SameVector(SlotOf(d, req).value.vector, req.vector)
                  && r.value == EmbeddingReceipt(SlotOf(d, req).value.id, slot.None?))
  }

  lemma UpsertMeaning(env: Env, db: Db, log: Log, req: EmbeddingRequest, id: Uuid)
    requires Injective(env.sha) && LedgerRuns.StoreInv(env, db, log) && FreshEmbedding(db, id)
    ensures var (d, r) := UpsertEmbedding(env, db, req, id);
            LedgerRuns.StoreInv(env, d, log) && Evolves(db, d) && UpsertOutcome(db, req, d, r)
  {
    LedgerRuns.UpsertKeepsInv(env, db, log, req, id);
    LedgerRuns.EmbeddingEvolves(env, db, req, id);
    UpsertSucceedsIff(env, db, req, id);
    TargetServes(db, req);
  }

  /** What an accepted evaluation does: its plan's hits become candidates, unless the reverse path holds one. */
  ghost predicate EvaluatesPlan(env: Env, db: Db, req: EvaluateRequest, d: Db, r: Result<seq<Candidate>, Failure>)
    requires Evaluation.Accepts(db, req)
  {
    Evaluation.PlannedIff(db, req);
    var plan := PlanEvaluation(db, req).value;
    var hits := SearchPage(env, db, RaisedSearch(env, plan)).hits;
    && Evaluation.AddsHistorical(db, d)
    && Evaluation.NewRowsReach(db, d, Max(req.search.minSimilarity, env.round(plan.threshold)), plan.threshold)
    && if Evaluation.AnyHeld(env, db, plan, hits) then r == Err(Internal)
       else r.Ok? && |r.value| == |hits| && plan.ruleRevision in db.ruleRevisions && Evaluation.AllAbove(db, plan, r.value)
  }

  ghost predicate EvaluationOutcome(env: Env, db: Db, req: EvaluateRequest, ids: seq<Uuid>, d: Db, r: Result<seq<Candidate>, Failure>) {
    if Evaluation.Accepts(db, req) then EvaluatesPlan(env, db, req, d, r) && EvaluationColumns(env, db, req, ids, d, r)
    else d == db && r.Err? && r.error in {NotFound, Invalid}
  }

  lemma PlanMeaning(env: Env, db: Db, req: EvaluateRequest, ids: seq<Uuid>)
    requires Injective(env.sha) && Evaluation.Rounding(env.round) && Evaluation.ThresholdsStored(env, db) && LedgerInv(env, db)
    requires Evaluation.Accepts(db, req) && |ids| >= req.search.limit
    ensures EvaluatesPlan(env, db, req, Ledger.EvaluateMatches(env, db, req, ids).0, Ledger.EvaluateMatches(env, db, req, ids).1)
  {
    var d := Ledger.EvaluateMatches(env, db, req, ids).0;
    Evaluation.PlannedIff(db, req);
    var plan := PlanEvaluation(db, req).value;
    assert Evaluation.NewRowsReach(db, d, Max(req.search.minSimilarity, env.round(plan.threshold)), plan.threshold) by {
      Evaluation.WritesReachSearch(env, db, req, ids);
    }
    Evaluation.EvaluateMatchesMeaning(env, db, req, ids);
  }

  lemma OutcomeMeaning(env: Env, db: Db, req: EvaluateRequest, ids: seq<Uuid>)
    requires Injective(env.sha) && Evaluation.Rounding(env.round) && Evaluation.ThresholdsStored(env, db) && LedgerInv(env, db)
    requires |ids| >= req.search.limit
    ensures EvaluationOutcome(env, db, req, ids, Ledger.EvaluateMatches(env, db, req, ids).0, Ledger.EvaluateMatches(env, db, req, ids).1)
  {
    if Evaluation.Accepts(db, req) {
      PlanMeaning(env, db, req, ids);
      EvaluationWritesColumns(env, db, req, ids);
    } else {
      Evaluation.PlannedIff(db, req);
    }
  }

  lemma RouteMeaning(env: Env, db: Db, log: Log, req: EvaluateRequest, ids: seq<Uuid>)
    requires Injective(env.sha) && Evaluation.Rounding(env.round) && LedgerRuns.StoreInv(env, db, log) && |ids| >= req.search.limit
    ensures var (d, r) := Ledger.EvaluateMatches(env, db, req, ids);
            && LedgerRuns.StoreInv(env, d, log) && Evolves(db, d)
            && EvaluationOutcome(env, db, req, ids, d, r)
  {
    LedgerRuns.EvaluationKeepsInv(env, db, log, req, ids);
    LedgerRuns.EvaluationEvolves(env, db, req, ids);
    OutcomeMeaning(env, db, req, ids);
  }

  function MutatedBy(db: Db, m: Mutation): Db {
    if Mutate(db, m).Ok? then Mutate(db, m).value else db
  }

  ghost predicate ChangeOutcome(db: Db, m: Mutation, d: Db, ok: bool) {
    && (Evolves(db, d) <==> !(ok && Rewrites(db, m)))
    && (m.UpdateCandidate? && m.key in db.candidates ==>
          (ok
           <==> m.key' == m.key && IdFree(db, m.key, m.row.id)
                && m.row == db.candidates[m.key].(id := m.row.id, status := m.row.status, updatedAt := m.row.updatedAt)))
    && (m.DeleteCandidate? ==> (ok <==> m.key !in db.candidates))
  }

  lemma ChangeMeaning(env: Env, db: Db, log: Log, m: Mutation, d: Db, ok: bool)
    requires Injective(env.sha) && LedgerRuns.StoreInv(env, db, log)
    requires d == MutatedBy(db, m) && ok == Mutate(db, m).Ok?
    ensures !Rewrites(db, m) ==> LedgerRuns.StoreInv(env, d, log)
    ensures ChangeOutcome(db, m, d, ok)
  {
    if !Rewrites(db, m) && Mutate(db, m).Ok? {
      LedgerRuns.MutationKeepsInv(env, db, log, m);
    }
    ChangeHasOutcome(db, m);
  }

  lemma ChangeHasOutcome(db: Db, m: Mutation)
    ensures ChangeOutcome(db, m, MutatedBy(db, m), Mutate(db, m).Ok?)
  {
    if Mutate(db, m).Ok? {
      MutationEvolvesIff(db, m);
    } else {
      EvolvesReflexive(db);
    }
    if m.UpdateCandidate? && m.key in db.candidates {
      CandidateUpdateAdmittedIff(db, m.key, m.key', m.row);
    }
  }

  // ---------------------------------------------------------------- the loops, row by row

  /** The specified loop over one more row. */
  lemma RowStep(env: Env, db: Db, req: Ingest, receipt: PageReceipt, es: seq<RuleEmbedding>, ids: seq<Uuid>, i: nat,
                 d: Db, out: seq<ReverseCandidate>)
    requires i < |es| <= |ids| && PersistAll(env, db, req, receipt, es[..i], ids) == Ok((d, out))
    ensures PersistAll(env, db, req, receipt, es[..i + 1], ids) ==
            if Similarity(env, es[i], req.vector) < ThresholdOf(d, es[i]) then Ok((d, out))
            else
              match PersistReverse(env, d, req, receipt, es[i], ids[i])
              case Err(f) => Err(f)
              case Ok((d', c)) => Ok((d', out + [c]))
  {
    assert es[..i + 1][..i] == es[..i];
  }

  lemma EvaluationStep(env: Env, db: Db, req: Ledger.Evaluation, hits: seq<PageEmbedding>, ids: seq<Uuid>, i: nat,
                       d: Db, out: seq<Candidate>)
    requires i < |hits| <= |ids| && forall h :: h in hits ==> h.revision in db.revisions
    requires EvaluateHits(env, db, req, hits[..i], ids) == (d, Ok(out))
    ensures hits[i] in hits && hits[i].revision in d.revisions
    ensures EvaluateHits(env, db, req, hits[..i + 1], ids) ==
            match PersistHistorical(env, d, req.search.tenant, req.rule, req.ruleRevision, hits[i], req.search.vector, req.threshold, ids[i])
            case Err(f) => (d, Err(f))
            case Ok((d', c)) => (d', Ok(out + [c]))
  {
    assert hits[..i + 1][..i] == hits[..i];
  }

  /** A failing write ends the specified loop with its error, whatever rows follow. */
  lemma {:induction false} LoopStops(env: Env, db: Db, req: Ingest, receipt: PageReceipt, es: seq<RuleEmbedding>, ids: seq<Uuid>, i: nat)
    requires i < |es| <= |ids| && PersistAll(env, db, req, receipt, es[..i + 1], ids).Err?
    ensures PersistAll(env, db, req, receipt, es, ids) == PersistAll(env, db, req, receipt, es[..i + 1], ids)
    decreases |es|
  {
    if i + 1 == |es| {
      assert es[..i + 1] == es;
    } else {
      var n := |es| - 1;
      assert es[..n][..i + 1] == es[..i + 1];
      LoopStops(env, db, req, receipt, es[..n], ids, i);
    }
  }

  lemma {:induction false} EvaluationStops(env: Env, db: Db, req: Ledger.Evaluation, hits: seq<PageEmbedding>, ids: seq<Uuid>, i: nat)
    requires i < |hits| <= |ids| && forall h :: h in hits ==> h.revision in db.revisions
    requires EvaluateHits(env, db, req, hits[..i + 1], ids).1.Err?
    ensures EvaluateHits(env, db, req, hits, ids) == EvaluateHits(env, db, req, hits[..i + 1], ids)
    decreases |hits|
  {
    if i + 1 == |hits| {
      assert hits[..i + 1] == hits;
    } else {
      var n := |hits| - 1;
      assert hits[..n][..i + 1] == hits[..i + 1];
      EvaluationStops(env, db, req, hits[..n], ids, i);
    }
  }
}
