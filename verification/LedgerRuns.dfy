/**
 Whole runs of the matching side: reverse ingests, rule embeddings, historical evaluations,
 page embeddings, rule changes and direct changes to committed rows, in any order.
 */
module LedgerRuns {
  import opened Wrappers
  import opened Uuids
  import opened MatchKeys
  import opened Activation
  import ActivationProof
  import ActivationScope
  import opened Ledger
  import opened LedgerProof
  import opened PageHistory
  import opened Evaluation
  import opened Immutability
  import opened RuleEmbeddings
  import Columns
  import SourceScope

  /** The columns of a new rule revision that the activation protocol does not read. */
  datatype RuleColumns = RuleColumns(model: string, threshold: Unit, sourceFilters: seq<string>)

  datatype Step =
    | PublishRules(hash: string -> int, sessions: State, schedule: ActivationProof.Schedule, columns: Uuid -> RuleColumns)
    | UpsertRuleEmbedding(embedding: EmbeddingRequest, id: Uuid)
    | StorePageEmbedding(row: PageEmbedding)
    | IngestAndReverseMatch(ingest: Ingest, ids: Ids)
    | EvaluateRule(evaluate: EvaluateRequest, candidateIds: seq<Uuid>)
    | ChangeRows(mutation: Mutation)

  // ---------------------------------------------------------------- one step

  /**
   The evaluation route loads a rule exactly when both policies show it with its active revision, and finds it enabled
   exactly when the rule listing shows it as enabled and active.
   */
  lemma ShownIsLoaded(db: Db, ctx: Context, rule: Uuid)
    ensures LoadsRule(db, ctx, rule)
            <==> rule in db.rules && VisibleRule(ctx, db.rules[rule]) && db.rules[rule].active.Some?
                 && VisibleRevision(ctx, TablesOf(db.rules, db.ruleRevisions), db.rules[rule].active.value)
    ensures ActivationScope.Shown(ctx, TablesOf(db.rules, db.ruleRevisions), rule)
            <==> LoadsRule(db, ctx, rule) && LoadedRevision(db, ctx, rule).enabled
  {
    var tables := TablesOf(db.rules, db.ruleRevisions);
    assert tables.rules == db.rules && forall v :: v in tables.revisions <==> v in db.ruleRevisions;
  }

  /** A stored revision stays as it is; a new one has the columns its session inserted. */
  function RevisionsAfter(ruleRevisions: map<Uuid, RuleRevision>, published: Tables, columns: Uuid -> RuleColumns): map<Uuid, RuleRevision> {
    map v | v in published.revisions ::
      if v in ruleRevisions then ruleRevisions[v]
      else
        var r, c := published.revisions[v], columns(v);
        RuleRevision(r.tenant, r.rule, r.enabled, c.model, c.threshold, c.sourceFilters)
  }

  function Published(db: Db, published: Tables, columns: Uuid -> RuleColumns): Db {
    db.(rules := published.rules, ruleRevisions := RevisionsAfter(db.ruleRevisions, published, columns))
  }

  /** Sessions on these rule tables carry out the schedule; they store f32 thresholds and filters in normal form. */
  ghost predicate SessionsPublish(env: Env, db: Db, hash: string -> int, sessions: State, schedule: ActivationProof.Schedule, columns: Uuid -> RuleColumns) {
    && sessions.committed == TablesOf(db.rules, db.ruleRevisions) && ActivationProof.RowsInv(sessions)
    && ActivationProof.Run(hash, sessions, schedule).Some?
    && (forall v :: env.round(columns(v).threshold) == columns(v).threshold)
    && (forall v :: SourceScope.Normalize(columns(v).sourceFilters) == Ok(columns(v).sourceFilters))
  }

  predicate FreshPageEmbedding(db: Db, id: Uuid) {
    forall e :: e in db.pageEmbeddings ==> e.id != id
  }

  predicate PageSlotFree(db: Db, row: PageEmbedding) {
    forall e :: e in db.pageEmbeddings ==> !(e.revision == row.revision && e.space == row.space)
  }

  /** New identifiers are unused, there are enough of them, and page revisions and embeddings are not rewritten in place. */
  ghost predicate Possible(env: Env, db: Db, step: Step) {
    match step
    case PublishRules(hash, sessions, schedule, columns) => SessionsPublish(env, db, hash, sessions, schedule, columns)
    case UpsertRuleEmbedding(_, id) => FreshEmbedding(db, id)
    case StorePageEmbedding(row) => FreshPageEmbedding(db, row.id)
    case IngestAndReverseMatch(req, ids) => |ids.candidates| >= req.maxCandidates && FreshRevision(db, ids.revision)
    case EvaluateRule(req, ids) => |ids| >= req.search.limit
    case ChangeRows(m) => !Rewrites(db, m)
  }

  function Apply(env: Env, db: Db, step: Step): Db
    requires Possible(env, db, step)
  {
    match step
    case PublishRules(hash, sessions, schedule, columns) =>
      Published(db, ActivationProof.Run(hash, sessions, schedule).value.committed, columns)
    case UpsertRuleEmbedding(req, id) => UpsertEmbedding(env, db, req, id).0
    case StorePageEmbedding(row) =>
      if row.revision in db.revisions && PageSlotFree(db, row) then db.(pageEmbeddings := db.pageEmbeddings + [row]) else db
    case IngestAndReverseMatch(req, ids) => IngestPage(env, db, req, ids).0
    case EvaluateRule(req, ids) => EvaluateMatches(env, db, req, ids).0
    case ChangeRows(m) => if Mutate(db, m).Ok? then Mutate(db, m).value else db
  }

  /** A committed ingest enters the history of its page. */
  function Recorded(env: Env, db: Db, log: Log, step: Step): Log
    requires Possible(env, db, step)
  {
    if step.IngestAndReverseMatch? && IngestPage(env, db, step.ingest, step.ids).1.Ok? then log + [VisitOf(step.ingest)] else log
  }

  /** Everything the runs keep of one state. */
  ghost predicate StoreInv(env: Env, db: Db, log: Log) {
    && LedgerInv(env, db) && RuleEmbeddingsFit(env, db) && ThresholdsStored(env, db) && Columns.RulesServe(db)
    && HistoryInv(env, db, log)
  }

  const EMPTY_DB := Db(map[], map[], map[], map[], [], [], map[])

  lemma EmptyStore(env: Env)
    ensures StoreInv(env, EMPTY_DB, [])
  {
  }

  // ---------------------------------------------------------------- every step keeps the invariant

  /** The candidates still fit when only the tables they refer to grow. */
  lemma LedgerGrows(env: Env, db: Db, db': Db)
    requires LedgerInv(env, db) && RuleEmbeddingsUnique(db') && PageEmbeddingsUnique(db')
    requires db'.candidates == db.candidates && db'.revisions == db.revisions
    requires forall v :: v in db.ruleRevisions ==> v in db'.ruleRevisions && db'.ruleRevisions[v] == db.ruleRevisions[v]
    requires forall e :: e in db.ruleEmbeddings ==> e in db'.ruleEmbeddings
    requires forall e :: e in db.pageEmbeddings ==> e in db'.pageEmbeddings
    ensures LedgerInv(env, db')
  {
    forall k | k in db'.candidates ensures CandidateFits(env, db', k, db'.candidates[k]) {
      assert CandidateFits(env, db, k, db.candidates[k]);
      CandidateFitsElsewhere(env, db, db', k, db.candidates[k]);
    }
  }

  lemma PublishedFrom(db: Db, committed: Tables, columns: Uuid -> RuleColumns)
    requires ActivationProof.Evolves(TablesOf(db.rules, db.ruleRevisions), committed)
    ensures var db' := Published(db, committed, columns);
            && TablesOf(db'.rules, db'.ruleRevisions) == committed
            && (forall v :: v in db.ruleRevisions ==> v in db'.ruleRevisions && db'.ruleRevisions[v] == db.ruleRevisions[v])
            && RulesPersist(db, db')
  {
    var before, db' := TablesOf(db.rules, db.ruleRevisions), Published(db, committed, columns);
    forall v | v in db.ruleRevisions ensures v in committed.revisions && committed.revisions[v] == before.revisions[v] {
    }
    assert TablesOf(db'.rules, db'.ruleRevisions).revisions == committed.revisions;
  }

  /** What the sessions publish is what the protocol committed, over revisions that persist. */
  lemma PublishedTables(env: Env, db: Db, step: Step)
    requires step.PublishRules? && Possible(env, db, step)
    ensures var db' := Apply(env, db, step);
            && TablesOf(db'.rules, db'.ruleRevisions) == ActivationProof.Run(step.hash, step.sessions, step.schedule).value.committed
            && (forall v :: v in db.ruleRevisions ==> v in db'.ruleRevisions && db'.ruleRevisions[v] == db.ruleRevisions[v])
            && RulesPersist(db, db')
  {
    ActivationProof.RunEvolves(step.hash, step.sessions, step.schedule);
    PublishedFrom(db, ActivationProof.Run(step.hash, step.sessions, step.schedule).value.committed, step.columns);
  }

  lemma PublishKeepsInv(env: Env, db: Db, log: Log, step: Step)
    requires StoreInv(env, db, log) && step.PublishRules? && Possible(env, db, step)
    ensures StoreInv(env, Apply(env, db, step), log)
  {
    var db' := Apply(env, db, step);
    PublishedTables(env, db, step);
    LedgerGrows(env, db, db');
    Columns.RulesGrow(db, db');
    SamePagesSameHistory(env, db, db', log);
    assert RuleEmbeddingsFit(env, db') by {
      assert RuleEmbeddingsFit(env, db);
      forall e | e in db'.ruleEmbeddings ensures RuleEmbeddingFits(env, db', e) {
        assert RuleEmbeddingFits(env, db, e);
      }
    }
  }

  lemma UpsertKeepsInv(env: Env, db: Db, log: Log, req: EmbeddingRequest, id: Uuid)
    requires StoreInv(env, db, log) && FreshEmbedding(db, id)
    ensures StoreInv(env, UpsertEmbedding(env, db, req, id).0, log)
  {
    UpsertEmbeddingKeepsInv(env, db, req, id);
    Columns.UpsertKeepsServing(env, db, req, id);
    SamePagesSameHistory(env, db, UpsertEmbedding(env, db, req, id).0, log);
  }

  lemma StoreKeepsUnique(db: Db, row: PageEmbedding)
    requires PageEmbeddingsUnique(db) && FreshPageEmbedding(db, row.id) && PageSlotFree(db, row)
    ensures PageEmbeddingsUnique(db.(pageEmbeddings := db.pageEmbeddings + [row]))
  {
  }

  lemma StoreKeepsInv(env: Env, db: Db, log: Log, row: PageEmbedding)
    requires StoreInv(env, db, log) && FreshPageEmbedding(db, row.id) && PageSlotFree(db, row)
    ensures StoreInv(env, db.(pageEmbeddings := db.pageEmbeddings + [row]), log)
  {
    var db' := db.(pageEmbeddings := db.pageEmbeddings + [row]);
    StoreKeepsUnique(db, row);
    LedgerGrows(env, db, db');
    SamePagesSameHistory(env, db, db', log);
  }

  /** The other tables of an ingest are untouched. */
  lemma IngestFrame(env: Env, db: Db, req: Ingest, ids: Ids)
    requires |ids.candidates| >= req.maxCandidates
    ensures var db' := IngestPage(env, db, req, ids).0;
            db' == db.(pages := db'.pages, revisions := db'.revisions, candidates := db'.candidates)
  {
  }

  lemma SameRulesServe(env: Env, db: Db, d: Db)
    requires d.rules == db.rules && d.ruleRevisions == db.ruleRevisions && d.ruleEmbeddings == db.ruleEmbeddings
    requires RuleEmbeddingsFit(env, db) && ThresholdsStored(env, db) && Columns.RulesServe(db)
    ensures RuleEmbeddingsFit(env, d) && ThresholdsStored(env, d) && Columns.RulesServe(d)
  {
    Columns.RulesGrow(db, d);
    forall e | e in d.ruleEmbeddings ensures RuleEmbeddingFits(env, d, e) {
      assert RuleEmbeddingFits(env, db, e);
    }
  }

  lemma IngestKeepsInv(env: Env, db: Db, log: Log, req: Ingest, ids: Ids)
    requires Injective(env.sha) && StoreInv(env, db, log)
    requires |ids.candidates| >= req.maxCandidates && FreshRevision(db, ids.revision)
    ensures var (db', r) := IngestPage(env, db, req, ids);
            StoreInv(env, db', if r.Ok? then log + [VisitOf(req)] else log)
  {
    IngestFailsIff(env, db, req, ids);
    IngestKeepsHistory(env, db, log, req, ids);
    IngestFrame(env, db, req, ids);
    SameRulesServe(env, db, IngestPage(env, db, req, ids).0);
  }

  /** A change of candidates that keeps the ledger keeps the store. */
  lemma CandidatesKeepInv(env: Env, db: Db, log: Log, d: Db)
    requires StoreInv(env, db, log) && d == db.(candidates := d.candidates) && LedgerInv(env, d)
    ensures StoreInv(env, d, log)
  {
    SameRulesServe(env, db, d);
    SamePagesSameHistory(env, db, d, log);
  }

  lemma EvaluationKeepsInv(env: Env, db: Db, log: Log, req: EvaluateRequest, ids: seq<Uuid>)
    requires Injective(env.sha) && Rounding(env.round) && StoreInv(env, db, log) && |ids| >= req.search.limit
    ensures StoreInv(env, EvaluateMatches(env, db, req, ids).0, log)
  {
    EvaluateMatchesMeaning(env, db, req, ids);
    CandidatesKeepInv(env, db, log, EvaluateMatches(env, db, req, ids).0);
  }

  lemma UpdateKeepsInv(env: Env, db: Db, log: Log, key: CandidateKey, row: Candidate)
    requires StoreInv(env, db, log) && key in db.candidates && SameMatch(db.candidates[key], row)
    ensures StoreInv(env, db.(candidates := db.candidates[key := row]), log)
  {
    UpdatedCandidateFits(env, db, key, row);
    AddCandidateKeepsInv(env, db, key, row);
    CandidatesKeepInv(env, db, log, db.(candidates := db.candidates[key := row]));
  }

  lemma MutationKeepsInv(env: Env, db: Db, log: Log, m: Mutation)
    requires StoreInv(env, db, log) && Mutate(db, m).Ok? && !Rewrites(db, m)
    ensures StoreInv(env, Mutate(db, m).value, log)
  {
    MutationEffect(db, m);
    if m.UpdateCandidate? && m.key in db.candidates {
      UpdateKeepsInv(env, db, log, m.key, m.row);
    }
  }

  /** An admitted change that rewrites nothing is an update of a candidate to the same match, or no change. */
  lemma MutationEffect(db: Db, m: Mutation)
    requires Mutate(db, m).Ok? && !Rewrites(db, m)
    ensures var db' := Mutate(db, m).value;
            if m.UpdateCandidate? && m.key in db.candidates
            then db' == db.(candidates := db.candidates[m.key := m.row]) && SameMatch(db.candidates[m.key], m.row)
            else db' == db
  {
    match m
    case UpdateCandidate(key, key', row) =>
      if key in db.candidates {
        CandidateUpdateAdmittedIff(db, key, key', row);
      }
    case SetPageContent(key, content) => assert key in db.revisions ==> Mutate(db, m).value.revisions == db.revisions;
    case SetPageVector(i, vector) => assert i < |db.pageEmbeddings| ==> Mutate(db, m).value.pageEmbeddings == db.pageEmbeddings;
    case _ =>
  }

  /** After a direct change of page content, some history of ingests explains the revisions exactly when it was no change. */
  lemma RewriteFitsNoHistory(env: Env, db: Db, log: Log, key: RevisionKey, content: string)
    requires Injective(env.sha) && RevisionsMatchLog(env, db, log)
    ensures Mutate(db, SetPageContent(key, content)).Ok?
    ensures (exists log' :: RevisionsMatchLog(env, Mutate(db, SetPageContent(key, content)).value, log'))
            <==> !Rewrites(db, SetPageContent(key, content))
  {
    var db' := Mutate(db, SetPageContent(key, content)).value;
    HistoryHashesContents(env, db, log);
    HashesBreakIff(env, db, key, content);
    if ContentsHashed(env, db') {
      MutationEffect(db, SetPageContent(key, content));
      assert RevisionsMatchLog(env, db', log);
    } else {
      forall log' ensures !RevisionsMatchLog(env, db', log') {
        if RevisionsMatchLog(env, db', log') {
          HistoryHashesContents(env, db', log');
        }
      }
    }
  }

  lemma HashesBreakIff(env: Env, db: Db, key: RevisionKey, content: string)
    requires Injective(env.sha) && ContentsHashed(env, db)
    ensures Mutate(db, SetPageContent(key, content)).Ok?
    ensures ContentsHashed(env, Mutate(db, SetPageContent(key, content)).value) <==> !Rewrites(db, SetPageContent(key, content))
  {
    var db' := Mutate(db, SetPageContent(key, content)).value;
    if key in db.revisions {
      assert db'.revisions[key].content == content;
      if ContentsHashed(env, db') {
        TextShaInjective(env.sha, content, db.revisions[key].content);
      }
    }
  }

  lemma UpdatedCandidateFits(env: Env, db: Db, key: CandidateKey, row: Candidate)
    requires LedgerInv(env, db) && key in db.candidates && SameMatch(db.candidates[key], row)
    ensures CandidateFits(env, db, key, row)
  {
    var before := db.candidates[key];
    assert CandidateFits(env, db, key, before);
    var space :| EvidenceStored(db, key, before, space) && key.key == MatchKey(env.sha, IdentityOf(db, key, before, space));
    assert EvidenceStored(db, key, row, space);
    assert IdentityOf(db, key, row, space) == IdentityOf(db, key, before, space);
  }

  lemma StepKeepsInv(env: Env, db: Db, log: Log, step: Step)
    requires Injective(env.sha) && Rounding(env.round) && StoreInv(env, db, log) && Possible(env, db, step)
    ensures StoreInv(env, Apply(env, db, step), Recorded(env, db, log, step))
  {
    match step
    case PublishRules(_, _, _, _) => PublishKeepsInv(env, db, log, step);
    case UpsertRuleEmbedding(req, id) => UpsertKeepsInv(env, db, log, req, id);
    case StorePageEmbedding(row) =>
      if PageSlotFree(db, row) {
        StoreKeepsInv(env, db, log, row);
      }
    case IngestAndReverseMatch(req, ids) => IngestKeepsInv(env, db, log, req, ids);
    case EvaluateRule(req, ids) => EvaluationKeepsInv(env, db, log, req, ids);
    case ChangeRows(m) =>
      if Mutate(db, m).Ok? {
        MutationKeepsInv(env, db, log, m);
      }
  }

  // ---------------------------------------------------------------- every step evolves the tables

  lemma {:induction false} LoopEvolves(env: Env, db: Db, req: Ingest, receipt: PageReceipt, es: seq<RuleEmbedding>, ids: seq<Uuid>)
    requires |es| <= |ids| && PersistAll(env, db, req, receipt, es, ids).Ok?
    ensures OnlyAddsCandidates(db, PersistAll(env, db, req, receipt, es, ids).value.0)
  {
    if es != [] {
      LoopEvolves(env, db, req, receipt, es[..|es| - 1], ids);
    }
  }

  lemma IngestEvolves(env: Env, db: Db, req: Ingest, ids: Ids)
    requires |ids.candidates| >= req.maxCandidates
    ensures Evolves(db, IngestPage(env, db, req, ids).0)
  {
    var (db1, receipt) := UpsertPage(env, db, req, ids);
    var es := FindCandidates(env, db1, req);
    UpsertPageEffect(env, db, req, ids);
    if PersistAll(env, db1, req, receipt, es, ids.candidates).Ok? {
      LoopEvolves(env, db1, req, receipt, es, ids.candidates);
    }
  }

  lemma EvaluationEvolves(env: Env, db: Db, req: EvaluateRequest, ids: seq<Uuid>)
    requires |ids| >= req.search.limit
    ensures Evolves(db, EvaluateMatches(env, db, req, ids).0)
  {
    if PlanEvaluation(db, req).Ok? {
      var plan := PlanEvaluation(db, req).value;
      HitsResolve(env, db, RaisedSearch(env, plan));
      LoopAddsHistorical(env, db, plan, SearchPage(env, db, RaisedSearch(env, plan)).hits, ids);
    }
  }

  lemma EmbeddingEvolves(env: Env, db: Db, req: EmbeddingRequest, id: Uuid)
    ensures Evolves(db, UpsertEmbedding(env, db, req, id).0)
  {
  }

  lemma StepEvolves(env: Env, db: Db, step: Step)
    requires Possible(env, db, step)
    ensures Evolves(db, Apply(env, db, step))
  {
    match step
    case PublishRules(_, _, _, _) => PublishedTables(env, db, step);
    case UpsertRuleEmbedding(req, id) => EmbeddingEvolves(env, db, req, id);
    case StorePageEmbedding(_) => EvolvesReflexive(db);
    case IngestAndReverseMatch(req, ids) => IngestEvolves(env, db, req, ids);
    case EvaluateRule(req, ids) => EvaluationEvolves(env, db, req, ids);
    case ChangeRows(m) =>
      if Mutate(db, m).Ok? {
        MutationEvolvesIff(db, m);
      } else {
        EvolvesReflexive(db);
      }
  }

  // ---------------------------------------------------------------- runs

  /** The step is possible and leads from one state and history to the next. */
  ghost predicate Leads(env: Env, db: Db, log: Log, step: Step, db': Db, log': Log) {
    Possible(env, db, step) && db' == Apply(env, db, step) && log' == Recorded(env, db, log, step)
  }

  /** The states and histories a sequence of steps goes through. */
  ghost predicate IsRun(env: Env, steps: seq<Step>, states: seq<Db>, logs: seq<Log>) {
    && |states| == |steps| + 1 && |logs| == |steps| + 1
    && forall i {:trigger steps[i]} :: 0 <= i < |steps| ==> Leads(env, states[i], logs[i], steps[i], states[i + 1], logs[i + 1])
  }

  lemma LeadKeepsInv(env: Env, db: Db, log: Log, step: Step, db': Db, log': Log)
    requires Injective(env.sha) && Rounding(env.round) && StoreInv(env, db, log) && Leads(env, db, log, step, db', log')
    ensures StoreInv(env, db', log')
  {
    StepKeepsInv(env, db, log, step);
  }

  lemma NextInRun(env: Env, steps: seq<Step>, states: seq<Db>, logs: seq<Log>, i: nat)
    requires Injective(env.sha) && Rounding(env.round) && IsRun(env, steps, states, logs)
    requires i < |steps| && StoreInv(env, states[i], logs[i])
    ensures StoreInv(env, states[i + 1], logs[i + 1])
  {
    LeadKeepsInv(env, states[i], logs[i], steps[i], states[i + 1], logs[i + 1]);
  }

  /** Every state of a run satisfies the invariant of the ledger and of the page history. */
  lemma {:induction false} RunKeepsInv(env: Env, steps: seq<Step>, states: seq<Db>, logs: seq<Log>, i: nat)
    requires Injective(env.sha) && Rounding(env.round) && IsRun(env, steps, states, logs)
    requires StoreInv(env, states[0], logs[0]) && i <= |steps|
    ensures StoreInv(env, states[i], logs[i])
  {
    if i > 0 {
      RunKeepsInv(env, steps, states, logs, i - 1);
      NextInRun(env, steps, states, logs, i - 1);
    }
  }

  /** The tables some run leads to from an empty store, with the history it leaves. */
  ghost predicate Reachable(env: Env, db: Db, log: Log) {
    exists steps, states, logs :: RunEndsIn(env, steps, states, logs, db, log)
  }

  ghost predicate RunEndsIn(env: Env, steps: seq<Step>, states: seq<Db>, logs: seq<Log>, db: Db, log: Log) {
    && IsRun(env, steps, states, logs) && states[0] == EMPTY_DB && logs[0] == []
    && states[|steps|] == db && logs[|steps|] == log
  }

  lemma EmptyIsReachable(env: Env)
    ensures Reachable(env, EMPTY_DB, [])
  {
    assert RunEndsIn(env, [], [EMPTY_DB], [[]], EMPTY_DB, []);
  }

  lemma SameLead(env: Env, a: (Db, Log, Step, Db, Log), b: (Db, Log, Step, Db, Log))
    requires a == b && Leads(env, a.0, a.1, a.2, a.3, a.4)
    ensures Leads(env, b.0, b.1, b.2, b.3, b.4)
  {
  }

  lemma LeadAt(env: Env, steps: seq<Step>, states: seq<Db>, logs: seq<Log>, i: nat)
    requires IsRun(env, steps, states, logs) && i < |steps|
    ensures Leads(env, states[i], logs[i], steps[i], states[i + 1], logs[i + 1])
  {
  }

  lemma ExtendsAt(env: Env, steps: seq<Step>, states: seq<Db>, logs: seq<Log>, step: Step, db': Db, log': Log, i: nat)
    requires IsRun(env, steps, states, logs) && i <= |steps|
    requires Leads(env, states[|steps|], logs[|steps|], step, db', log')
    ensures Leads(env, (states + [db'])[i], (logs + [log'])[i], (steps + [step])[i], (states + [db'])[i + 1], (logs + [log'])[i + 1])
  {
    var steps', states', logs' := steps + [step], states + [db'], logs + [log'];
    if i < |steps| {
      LeadAt(env, steps, states, logs, i);
      SameLead(env, (states[i], logs[i], steps[i], states[i + 1], logs[i + 1]),
        (states'[i], logs'[i], steps'[i], states'[i + 1], logs'[i + 1]));
    } else {
      SameLead(env, (states[i], logs[i], step, db', log'), (states'[i], logs'[i], steps'[i], states'[i + 1], logs'[i + 1]));
    }
  }

  lemma RunExtends(env: Env, steps: seq<Step>, states: seq<Db>, logs: seq<Log>, db: Db, log: Log, step: Step, db': Db, log': Log)
    requires RunEndsIn(env, steps, states, logs, db, log) && Leads(env, db, log, step, db', log')
    ensures RunEndsIn(env, steps + [step], states + [db'], logs + [log'], db', log')
  {
    var steps', states', logs' := steps + [step], states + [db'], logs + [log'];
    forall i {:trigger steps'[i]} | 0 <= i < |steps'| ensures Leads(env, states'[i], logs'[i], steps'[i], states'[i + 1], logs'[i + 1]) {
      ExtendsAt(env, steps, states, logs, step, db', log', i);
    }
  }

  lemma ReachNext(env: Env, db: Db, log: Log, step: Step, db': Db, log': Log)
    requires Reachable(env, db, log) && Leads(env, db, log, step, db', log')
    ensures Reachable(env, db', log')
  {
    var steps, states, logs :| RunEndsIn(env, steps, states, logs, db, log);
    RunExtends(env, steps, states, logs, db, log, step, db', log');
    RunReaches(env, steps + [step], states + [db'], logs + [log'], db', log');
  }

  lemma RunReaches(env: Env, steps: seq<Step>, states: seq<Db>, logs: seq<Log>, db: Db, log: Log)
    requires RunEndsIn(env, steps, states, logs, db, log)
    ensures Reachable(env, db, log)
  {
  }

  /** Every reachable store satisfies the invariants. */
  lemma ReachableFits(env: Env, db: Db, log: Log)
    requires Injective(env.sha) && Rounding(env.round) && Reachable(env, db, log)
    ensures StoreInv(env, db, log)
  {
    var steps, states, logs :| RunEndsIn(env, steps, states, logs, db, log);
    EmptyStore(env);
    RunKeepsInv(env, steps, states, logs, |steps|);
  }

  lemma OneStepEvolves(env: Env, steps: seq<Step>, states: seq<Db>, logs: seq<Log>, i: nat)
    requires IsRun(env, steps, states, logs) && i < |steps|
    ensures Evolves(states[i], states[i + 1])
  {
    assert Leads(env, states[i], logs[i], steps[i], states[i + 1], logs[i + 1]);
    StepEvolves(env, states[i], steps[i]);
  }

  /** Between any two states of a run, what never changes has not changed. */
  lemma RunEvolves(env: Env, steps: seq<Step>, states: seq<Db>, logs: seq<Log>, i: nat, j: nat)
    requires IsRun(env, steps, states, logs) && i <= j <= |steps|
    ensures Evolves(states[i], states[j])
  {
    forall n | 0 <= n < |states| - 1 ensures Evolves(states[n], states[n + 1]) {
      OneStepEvolves(env, steps, states, logs, n);
    }
    ChainEvolves(states, i, j);
  }

  // ---------------------------------------------------------------- one embedding per slot, forever

  predicate Creates(env: Env, db: Db, step: Step) {
    step.UpsertRuleEmbedding?
    && UpsertEmbedding(env, db, step.embedding, step.id).1.Ok? && UpsertEmbedding(env, db, step.embedding, step.id).1.value.created
  }

  predicate SameSlotRequested(a: EmbeddingRequest, b: EmbeddingRequest) {
    a.tenant == b.tenant && a.ruleRevision == b.ruleRevision && a.space == b.space
  }

  /** A slot that was filled holds the same row in every later state. */
  lemma SlotPersists(env: Env, db: Db, db': Db, e: RuleEmbedding)
    requires RuleEmbeddingsUnique(db') && Evolves(db, db') && e in db.ruleEmbeddings
    ensures FindEmbedding(db'.ruleEmbeddings, e.tenant, e.ruleRevision, e.space) == Some(e)
  {
    SlotHolds(db', e);
  }

  lemma CreatedRow(env: Env, db: Db, step: Step)
    requires Possible(env, db, step) && Creates(env, db, step)
    ensures var req := step.embedding;
            RuleEmbedding(step.id, req.tenant, req.rule, req.ruleRevision, req.space, req.vector, Fingerprint(env, req.vector))
            in Apply(env, db, step).ruleEmbeddings
  {
  }

  /**
   After a call created the embedding of a slot, no later call creates it again, and a later call
   succeeds exactly when it targets the enabled active revision with the same vector up to signed
   zeros; it then returns the first call's identifier.
   */
  lemma FirstWriterWins(env: Env, steps: seq<Step>, states: seq<Db>, logs: seq<Log>, i: nat, j: nat)
    requires Injective(env.sha) && Rounding(env.round) && IsRun(env, steps, states, logs) && StoreInv(env, states[0], logs[0])
    requires i < j < |steps| && Creates(env, states[i], steps[i]) && steps[j].UpsertRuleEmbedding?
    requires SameSlotRequested(steps[i].embedding, steps[j].embedding)
    ensures !Creates(env, states[j], steps[j])
    ensures var r := UpsertEmbedding(env, states[j], steps[j].embedding, steps[j].id).1;
            var req := steps[j].embedding;
            && (r.Ok? <==> Columns.Serves(states[j], req.tenant, req.rule, req.ruleRevision, req.space.model)
                           && SameVector(steps[i].embedding.vector, req.vector))
            && (r.Ok? ==> r.value == EmbeddingReceipt(steps[i].id, false))
  {
    var req := steps[i].embedding;
    var e := RuleEmbedding(steps[i].id, req.tenant, req.rule, req.ruleRevision, req.space, req.vector, Fingerprint(env, req.vector));
    assert Leads(env, states[i], logs[i], steps[i], states[i + 1], logs[i + 1]);
    CreatedRow(env, states[i], steps[i]);
    RunEvolves(env, steps, states, logs, i + 1, j);
    RunKeepsInv(env, steps, states, logs, j);
    SlotPersists(env, states[i + 1], states[j], e);
    UpsertSucceedsIff(env, states[j], steps[j].embedding, steps[j].id);
    Columns.TargetServes(states[j], steps[j].embedding);
  }

  // ---------------------------------------------------------------- the ledger over a run

  /**
   A match recorded at one time stands at every later time under the same key, with the same
   evidence and scores, and no other row ever stands for its identity.
   */
  lemma MatchStands(env: Env, steps: seq<Step>, states: seq<Db>, logs: seq<Log>, i: nat, j: nat, k: CandidateKey, l: CandidateKey, space: Space)
    requires Injective(env.sha) && Rounding(env.round) && IsRun(env, steps, states, logs) && StoreInv(env, states[0], logs[0])
    requires i <= j <= |steps| && k in states[i].candidates && l in states[j].candidates
    requires EvidenceStored(states[i], k, states[i].candidates[k], space) && EvidenceStored(states[j], l, states[j].candidates[l], space)
    ensures k in states[j].candidates && SameMatch(states[i].candidates[k], states[j].candidates[k])
    ensures states[i].candidates[k].revision in states[i].revisions && states[j].candidates[l].revision in states[j].revisions
    ensures IdentityOf(states[i], k, states[i].candidates[k], space) == IdentityOf(states[j], l, states[j].candidates[l], space) <==> k == l
  {
    RunEvolves(env, steps, states, logs, i, j);
    RunKeepsInv(env, steps, states, logs, i);
    RunKeepsInv(env, steps, states, logs, j);
    assert CandidateFits(env, states[i], k, states[i].candidates[k]) && CandidateFits(env, states[j], l, states[j].candidates[l]);
    EvidenceStays(states[i], states[j], k, space);
    OneCandidatePerIdentity(env, states[j], k, l, space, space);
  }

  lemma EvidenceStays(db: Db, db': Db, k: CandidateKey, space: Space)
    requires Evolves(db, db') && k in db.candidates && EvidenceStored(db, k, db.candidates[k], space)
    requires db.candidates[k].revision in db.revisions
    ensures EvidenceStored(db', k, db'.candidates[k], space)
    ensures IdentityOf(db', k, db'.candidates[k], space) == IdentityOf(db, k, db.candidates[k], space)
  {
  }

  /** In every state of a run the latest revision of a page carries the content of its last committed ingest. */
  lemma LatestAlongRun(env: Env, steps: seq<Step>, states: seq<Db>, logs: seq<Log>, i: nat, page: PageKey)
    requires Injective(env.sha) && Rounding(env.round) && IsRun(env, steps, states, logs) && StoreInv(env, states[0], logs[0])
    requires i <= |steps| && page in states[i].pages
    ensures IsTree(states[i].revisions, page)
    ensures states[i].pages[page].latest.Some? && states[i].pages[page].latest.value in states[i].revisions
    ensures LastContent(logs[i], page) == Some(states[i].revisions[states[i].pages[page].latest.value].content)
  {
    RunKeepsInv(env, steps, states, logs, i);
    LatestIsLastCommitted(env, states[i], logs[i], page);
  }

  /** The step updates the candidate's row directly. */
  predicate Updates(step: Step, k: CandidateKey) {
    step.ChangeRows? && step.mutation.UpdateCandidate? && step.mutation.key == k
  }

  lemma IngestAddsPending(env: Env, db: Db, req: Ingest, ids: Ids, k: CandidateKey)
    requires RuleEmbeddingsUnique(db) && Columns.RulesServe(db) && |ids.candidates| >= req.maxCandidates
    requires k !in db.candidates && k in IngestPage(env, db, req, ids).0.candidates
    ensures IngestPage(env, db, req, ids).0.candidates[k].status == Pending
  {
    var (d, r) := IngestPage(env, db, req, ids);
    var (receipt, es) := Selected(env, db, req, ids);
    Columns.IngestWritesColumns(env, db, req, ids);
    assert Columns.IsReverseRow(env, db, req, receipt, es, ids.candidates, k, d.candidates[k]);
  }

  lemma EvaluationAddsPending(env: Env, db: Db, req: EvaluateRequest, ids: seq<Uuid>, k: CandidateKey)
    requires Injective(env.sha) && Rounding(env.round) && ThresholdsStored(env, db) && LedgerInv(env, db) && |ids| >= req.search.limit
    requires k !in db.candidates && k in EvaluateMatches(env, db, req, ids).0.candidates
    ensures EvaluateMatches(env, db, req, ids).0.candidates[k].status == Pending
  {
    PlannedIff(db, req);
    if Accepts(db, req) {
      Columns.EvaluationWritesColumns(env, db, req, ids);
      Columns.AddedIsPending(env, db, PlanEvaluation(db, req).value, Columns.HitsOf(env, db, req), ids,
        EvaluateMatches(env, db, req, ids).0, EvaluateMatches(env, db, req, ids).1, k);
    }
  }

  /** A candidate that a step adds is pending. */
  lemma StepAddsPending(env: Env, db: Db, log: Log, step: Step, k: CandidateKey)
    requires Injective(env.sha) && Rounding(env.round) && StoreInv(env, db, log) && Possible(env, db, step)
    requires k !in db.candidates && k in Apply(env, db, step).candidates
    ensures Apply(env, db, step).candidates[k].status == Pending
  {
    match step
    case IngestAndReverseMatch(req, ids) => IngestAddsPending(env, db, req, ids, k);
    case EvaluateRule(req, ids) => EvaluationAddsPending(env, db, req, ids, k);
    case _ => OtherStepsAddNothing(env, db, step, k);
  }

  lemma OtherStepsAddNothing(env: Env, db: Db, step: Step, k: CandidateKey)
    requires Possible(env, db, step) && !step.IngestAndReverseMatch? && !step.EvaluateRule?
    ensures k in Apply(env, db, step).candidates ==> k in db.candidates
  {
    if step.ChangeRows? && Mutate(db, step.mutation).Ok? {
      MutationEffect(db, step.mutation);
    }
  }

  /** A step that does not update the row directly leaves it as it is. */
  lemma StepLeavesRow(env: Env, db: Db, step: Step, k: CandidateKey)
    requires Possible(env, db, step) && k in db.candidates && !Updates(step, k)
    ensures k in Apply(env, db, step).candidates && Apply(env, db, step).candidates[k] == db.candidates[k]
  {
    match step
    case IngestAndReverseMatch(req, ids) => IngestLeavesRows(env, db, req, ids);
    case EvaluateRule(req, ids) => EvaluationLeavesRows(env, db, req, ids);
    case _ =>
  }

  lemma IngestLeavesRows(env: Env, db: Db, req: Ingest, ids: Ids)
    requires |ids.candidates| >= req.maxCandidates
    ensures forall k :: k in db.candidates ==>
              k in IngestPage(env, db, req, ids).0.candidates && IngestPage(env, db, req, ids).0.candidates[k] == db.candidates[k]
  {
    var (db1, receipt) := UpsertPage(env, db, req, ids);
    var es := FindCandidates(env, db1, req);
    if PersistAll(env, db1, req, receipt, es, ids.candidates).Ok? {
      LoopEvolves(env, db1, req, receipt, es, ids.candidates);
    }
  }

  lemma EvaluationLeavesRows(env: Env, db: Db, req: EvaluateRequest, ids: seq<Uuid>)
    requires |ids| >= req.search.limit
    ensures AddsHistorical(db, EvaluateMatches(env, db, req, ids).0)
  {
    if PlanEvaluation(db, req).Ok? {
      var plan := PlanEvaluation(db, req).value;
      HitsResolve(env, db, RaisedSearch(env, plan));
      LoopAddsHistorical(env, db, plan, SearchPage(env, db, RaisedSearch(env, plan)).hits, ids);
    }
  }

  lemma LeadKeepsPending(env: Env, db: Db, log: Log, step: Step, db': Db, log': Log, k: CandidateKey)
    requires Injective(env.sha) && Rounding(env.round) && StoreInv(env, db, log) && Leads(env, db, log, step, db', log')
    requires !Updates(step, k) && (k in db.candidates ==> db.candidates[k].status == Pending)
    ensures k in db'.candidates ==> db'.candidates[k].status == Pending
  {
    if k in db.candidates {
      StepLeavesRow(env, db, step, k);
    } else if k in db'.candidates {
      StepAddsPending(env, db, log, step, k);
    }
  }

  /** A candidate that a run adds is pending for as long as no direct statement of the run has updated it. */
  lemma {:induction false} PendingUntilUpdated(env: Env, steps: seq<Step>, states: seq<Db>, logs: seq<Log>, i: nat, j: nat, k: CandidateKey)
    requires Injective(env.sha) && Rounding(env.round) && IsRun(env, steps, states, logs) && StoreInv(env, states[0], logs[0])
    requires i <= j <= |steps| && k !in states[i].candidates
    requires forall n :: i <= n < j ==> !Updates(steps[n], k)
    ensures k in states[j].candidates ==> states[j].candidates[k].status == Pending
    decreases j - i
  {
    if i < j {
      PendingUntilUpdated(env, steps, states, logs, i, j - 1, k);
      RunKeepsInv(env, steps, states, logs, j - 1);
      NextKeepsPending(env, steps, states, logs, j - 1, k);
    }
  }

  lemma NextKeepsPending(env: Env, steps: seq<Step>, states: seq<Db>, logs: seq<Log>, i: nat, k: CandidateKey)
    requires Injective(env.sha) && Rounding(env.round) && IsRun(env, steps, states, logs)
    requires i < |steps| && StoreInv(env, states[i], logs[i]) && !Updates(steps[i], k)
    requires k in states[i].candidates ==> states[i].candidates[k].status == Pending
    ensures k in states[i + 1].candidates ==> states[i + 1].candidates[k].status == Pending
  {
    LeadKeepsPending(env, states[i], logs[i], steps[i], states[i + 1], logs[i + 1], k);
  }

  /** In every state of a run each rule embedding belongs to an enabled revision of its tenant's rule, for its model. */
  lemma EmbeddingsServeAlongRun(env: Env, steps: seq<Step>, states: seq<Db>, logs: seq<Log>, i: nat, e: RuleEmbedding)
    requires Injective(env.sha) && Rounding(env.round) && IsRun(env, steps, states, logs) && StoreInv(env, states[0], logs[0])
    requires i <= |steps| && e in states[i].ruleEmbeddings
    ensures e.rule in states[i].rules && states[i].rules[e.rule].tenant == e.tenant && e.ruleRevision in states[i].ruleRevisions
    ensures var revision := states[i].ruleRevisions[e.ruleRevision];
            revision.tenant == e.tenant && revision.rule == e.rule && revision.enabled && revision.model == e.space.model
  {
    RunKeepsInv(env, steps, states, logs, i);
    assert Columns.EmbeddingServes(states[i], e);
  }
}
