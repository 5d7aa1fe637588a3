/**
 Direct changes to committed rows: the triggers that reject them, the tables that have no such
 trigger, and the relation between an earlier and a later state of the tables that every step keeps.
 */
module Immutability {
  import opened Wrappers
  import opened Uuids
  import opened MatchKeys
  import opened Activation
  import opened Ledger

  // ---------------------------------------------------------------- the columns of the evidence

  function MatchMode(e: Evidence): string {
    if e.Historical? then "historical_page_search" else "reverse_alert_stream"
  }

  function EmbeddingId(e: Evidence): Option<Uuid> {
    if e.Historical? then Some(e.embedding) else None
  }

  function AlertEmbeddingId(e: Evidence): Option<Uuid> {
    if e.Reverse? then Some(e.alertEmbedding) else None
  }

  function PageEmbeddingSha(e: Evidence): Option<string> {
    if e.Reverse? then Some(e.pageVectorSha) else None
  }

  function PageEmbeddingModel(e: Evidence): Option<string> {
    if e.Reverse? then Some(e.space.model) else None
  }

  function PageEmbeddingVersion(e: Evidence): Option<string> {
    if e.Reverse? then Some(e.space.version) else None
  }

  function PageEmbeddingDimensions(e: Evidence): Option<nat> {
    if e.Reverse? then Some(e.space.dimensions) else None
  }

  function PageEmbeddingNormalization(e: Evidence): Option<string> {
    if e.Reverse? then Some(NormalizationName(e.space.normalization)) else None
  }

  /** What `eal_reject_match_evidence_mutation` compares between the old and the new row. */
  predicate EvidenceMutated(key: CandidateKey, row: Candidate, key': CandidateKey, row': Candidate) {
    || key'.tenant != key.tenant
    || row'.rule != row.rule
    || row'.ruleRevision != row.ruleRevision
    || row'.revision != row.revision
    || EmbeddingId(row'.evidence) != EmbeddingId(row.evidence)
    || MatchMode(row'.evidence) != MatchMode(row.evidence)
    || AlertEmbeddingId(row'.evidence) != AlertEmbeddingId(row.evidence)
    || PageEmbeddingSha(row'.evidence) != PageEmbeddingSha(row.evidence)
    || PageEmbeddingModel(row'.evidence) != PageEmbeddingModel(row.evidence)
    || PageEmbeddingVersion(row'.evidence) != PageEmbeddingVersion(row.evidence)
    || PageEmbeddingDimensions(row'.evidence) != PageEmbeddingDimensions(row.evidence)
    || PageEmbeddingNormalization(row'.evidence) != PageEmbeddingNormalization(row.evidence)
    || key'.key != key.key
    || row'.similarity != row.similarity
    || row'.threshold != row.threshold
  }

  // ---------------------------------------------------------------- direct changes to committed rows

  datatype Mutation =
    | UpdateCandidate(key: CandidateKey, key': CandidateKey, row: Candidate)
    | DeleteCandidate(key: CandidateKey)
    | UpdateRuleRevision(id: Uuid, revision: RuleRevision)
    | DeleteRuleRevision(id: Uuid)
    | UpdateRuleEmbedding(index: nat, embedding: RuleEmbedding)
    | DeleteRuleEmbedding(index: nat)
    | SetPageContent(page: RevisionKey, content: string)
    | SetPageVector(index: nat, vector: seq<F32>)
    | DeletePageEmbedding(index: nat)

  /** Some candidate's evidence is the page embedding. */
  predicate Cited(db: Db, e: PageEmbedding) {
    exists k :: k in db.candidates && db.candidates[k].evidence == Historical(e.id)
  }

  /** The primary key of the candidate table. */
  predicate IdFree(db: Db, key: CandidateKey, id: Uuid) {
    forall k :: k in db.candidates && k != key ==> db.candidates[k].id != id
  }

  /**
   A statement that touches no row succeeds; one that touches a row passes its table's triggers first.
   Page revisions and page embeddings have none, but deleting an embedding cascades to its candidates.
   */
  function Mutate(db: Db, m: Mutation): Result<Db, Failure> {
    match m
    case UpdateCandidate(key, key', row) =>
      if key !in db.candidates then Ok(db)
      else if EvidenceMutated(key, db.candidates[key], key', row) then Err(Internal)
      else if !IdFree(db, key, row.id) then Err(Conflict)
      else Ok(db.(candidates := db.candidates[key := row]))
    case DeleteCandidate(key) => if key in db.candidates then Err(Internal) else Ok(db)
    case UpdateRuleRevision(id, _) => if id in db.ruleRevisions then Err(Internal) else Ok(db)
    case DeleteRuleRevision(id) => if id in db.ruleRevisions then Err(Internal) else Ok(db)
    case UpdateRuleEmbedding(i, _) => if i < |db.ruleEmbeddings| then Err(Internal) else Ok(db)
    case DeleteRuleEmbedding(i) => if i < |db.ruleEmbeddings| then Err(Internal) else Ok(db)
    case SetPageContent(key, content) =>
      if key in db.revisions then Ok(db.(revisions := db.revisions[key := db.revisions[key].(content := content)])) else Ok(db)
    case SetPageVector(i, vector) =>
      if i < |db.pageEmbeddings| then Ok(db.(pageEmbeddings := db.pageEmbeddings[i := db.pageEmbeddings[i].(vector := vector)])) else Ok(db)
    case DeletePageEmbedding(i) =>
      if i >= |db.pageEmbeddings| then Ok(db)
      else if Cited(db, db.pageEmbeddings[i]) then Err(Internal)
      else Ok(db.(pageEmbeddings := db.pageEmbeddings[..i] + db.pageEmbeddings[i + 1..]))
  }

  /** The mode decides which columns are null, so the compared columns determine the evidence. */
  lemma ColumnsDetermineEvidence(a: Evidence, b: Evidence)
    requires EmbeddingId(a) == EmbeddingId(b) && AlertEmbeddingId(a) == AlertEmbeddingId(b)
    requires PageEmbeddingSha(a) == PageEmbeddingSha(b) && PageEmbeddingModel(a) == PageEmbeddingModel(b)
    requires PageEmbeddingVersion(a) == PageEmbeddingVersion(b) && PageEmbeddingDimensions(a) == PageEmbeddingDimensions(b)
    requires PageEmbeddingNormalization(a) == PageEmbeddingNormalization(b)
    ensures a == b
  {
    if a.Reverse? {
      NameInjective(a.space.normalization, b.space.normalization);
    }
  }

  /** The trigger lets exactly the identifier, the status and the update time of a candidate move. */
  lemma CandidateUpdateAdmittedIff(db: Db, key: CandidateKey, key': CandidateKey, row: Candidate)
    requires key in db.candidates
    ensures Mutate(db, UpdateCandidate(key, key', row)).Ok?
            <==> key' == key && IdFree(db, key, row.id)
                 && row == db.candidates[key].(id := row.id, status := row.status, updatedAt := row.updatedAt)
  {
    if !EvidenceMutated(key, db.candidates[key], key', row) {
      ColumnsDetermineEvidence(db.candidates[key].evidence, row.evidence);
    }
  }

  // ---------------------------------------------------------------- what never changes

  /** Two versions of a candidate agree on the match, its evidence and its scores. */
  predicate SameMatch(a: Candidate, b: Candidate) {
    && a.rule == b.rule && a.ruleRevision == b.ruleRevision && a.revision == b.revision
    && a.evidence == b.evidence && a.similarity == b.similarity && a.threshold == b.threshold
  }

  predicate CandidatesPersist(db: Db, db': Db) {
    forall k :: k in db.candidates ==> k in db'.candidates && SameMatch(db.candidates[k], db'.candidates[k])
  }

  /** A rule keeps its tenant and owner, a rule revision stays as it is. */
  predicate RulesPersist(db: Db, db': Db) {
    && (forall r :: r in db.rules ==>
          r in db'.rules && db'.rules[r].tenant == db.rules[r].tenant && db'.rules[r].owner == db.rules[r].owner)
    && (forall v :: v in db.ruleRevisions ==> v in db'.ruleRevisions && db'.ruleRevisions[v] == db.ruleRevisions[v])
  }

  predicate PagesPersist(db: Db, db': Db) {
    && (forall p :: p in db.pages ==>
          p in db'.pages && db'.pages[p].id == db.pages[p].id && db'.pages[p].firstSeen == db.pages[p].firstSeen)
    && (forall r :: r in db.revisions ==> r in db'.revisions && db'.revisions[r] == db.revisions[r])
  }

  predicate EmbeddingsPersist(db: Db, db': Db) {
    db.ruleEmbeddings <= db'.ruleEmbeddings && db.pageEmbeddings <= db'.pageEmbeddings
  }

  predicate Evolves(db: Db, db': Db) {
    CandidatesPersist(db, db') && RulesPersist(db, db') && PagesPersist(db, db') && EmbeddingsPersist(db, db')
  }

  lemma EvolvesReflexive(db: Db)
    ensures Evolves(db, db)
  {
  }

  lemma EvolvesTransitive(a: Db, b: Db, c: Db)
    requires Evolves(a, b) && Evolves(b, c)
    ensures Evolves(a, c)
  {
    assert CandidatesPersist(a, c);
    assert RulesPersist(a, c);
    assert PagesPersist(a, c);
  }

  lemma {:induction false} ChainEvolves(states: seq<Db>, i: nat, j: nat)
    requires i <= j < |states| && forall n :: 0 <= n < |states| - 1 ==> Evolves(states[n], states[n + 1])
    ensures Evolves(states[i], states[j])
  {
    if i == j {
      EvolvesReflexive(states[i]);
    } else {
      ChainEvolves(states, i, j - 1);
      assert Evolves(states[j - 1], states[j - 1 + 1]);
      EvolvesTransitive(states[i], states[j - 1], states[j]);
    }
  }

  /** The statement changes a page revision or a page embedding, which no trigger protects. */
  predicate Rewrites(db: Db, m: Mutation) {
    match m
    case SetPageContent(key, content) => key in db.revisions && db.revisions[key].content != content
    case SetPageVector(i, vector) => i < |db.pageEmbeddings| && db.pageEmbeddings[i].vector != vector
    case DeletePageEmbedding(i) => i < |db.pageEmbeddings|
    case _ => false
  }

  /** An admitted direct statement keeps what never changes exactly when it does not rewrite a page revision or embedding. */
  lemma MutationEvolvesIff(db: Db, m: Mutation)
    requires Mutate(db, m).Ok?
    ensures Evolves(db, Mutate(db, m).value) <==> !Rewrites(db, m)
  {
    var db' := Mutate(db, m).value;
    match m
    case UpdateCandidate(key, key', row) =>
      if key in db.candidates {
        CandidateUpdateAdmittedIff(db, key, key', row);
      }
    case SetPageContent(key, content) => SetContentEvolvesIff(db, key, content);
    case SetPageVector(i, vector) => SetVectorEvolvesIff(db, i, vector);
    case DeletePageEmbedding(_) =>
    case _ => EvolvesReflexive(db);
  }

  lemma SetContentEvolvesIff(db: Db, key: RevisionKey, content: string)
    ensures Evolves(db, Mutate(db, SetPageContent(key, content)).value) <==> !Rewrites(db, SetPageContent(key, content))
  {
    var db' := Mutate(db, SetPageContent(key, content)).value;
    if key in db.revisions {
      assert db'.revisions[key].content == content;
      if db.revisions[key].content == content {
        assert db'.revisions == db.revisions;
      }
    }
  }

  lemma SetVectorEvolvesIff(db: Db, i: nat, vector: seq<F32>)
    ensures Evolves(db, Mutate(db, SetPageVector(i, vector)).value) <==> !Rewrites(db, SetPageVector(i, vector))
  {
    var db' := Mutate(db, SetPageVector(i, vector)).value;
    if i < |db.pageEmbeddings| {
      assert db'.pageEmbeddings[i].vector == vector;
      if db.pageEmbeddings[i].vector == vector {
        assert db'.pageEmbeddings == db.pageEmbeddings;
      }
    }
  }
}
