/** First writer wins: what one call of the rule embedding upsert does to its slot. */
module RuleEmbeddings {
  import opened Wrappers
  import opened Uuids
  import opened MatchKeys
  import opened Activation
  import opened Ledger
  import opened LedgerProof

  /** The stored fingerprint is the vector's, and the foreign keys point to one rule's revision. */
  predicate RuleEmbeddingFits(env: Env, db: Db, e: RuleEmbedding) {
    && e.sha == Fingerprint(env, e.vector)
    && e.ruleRevision in db.ruleRevisions
    && db.ruleRevisions[e.ruleRevision].tenant == e.tenant && db.ruleRevisions[e.ruleRevision].rule == e.rule
  }

  predicate RuleEmbeddingsFit(env: Env, db: Db) {
    forall e :: e in db.ruleEmbeddings ==> RuleEmbeddingFits(env, db, e)
  }

  function SlotOf(db: Db, req: EmbeddingRequest): Option<RuleEmbedding> {
    FindEmbedding(db.ruleEmbeddings, req.tenant, req.ruleRevision, req.space)
  }

  predicate FreshEmbedding(db: Db, id: Uuid) {
    forall e :: e in db.ruleEmbeddings ==> e.id != id
  }

  /** The row in a slot is the one with its columns, wherever it is stored. */
  lemma SlotHolds(db: Db, e: RuleEmbedding)
    requires RuleEmbeddingsUnique(db) && e in db.ruleEmbeddings
    ensures FindEmbedding(db.ruleEmbeddings, e.tenant, e.ruleRevision, e.space) == Some(e)
  {
    var found := FindEmbedding(db.ruleEmbeddings, e.tenant, e.ruleRevision, e.space);
    assert SameSlot(e, e.tenant, e.ruleRevision, e.space);
    if found.Some? {
      RuleEmbeddingById(db, found.value, e);
    }
  }

  /**
   A call succeeds exactly when it targets the enabled active revision under its configured model
   and its slot is empty or holds the same vector up to signed zeros; only the empty slot is written.
   */
  lemma UpsertSucceedsIff(env: Env, db: Db, req: EmbeddingRequest, id: Uuid)
    requires Injective(env.sha) && RuleEmbeddingsFit(env, db)
    ensures var (db', r) := UpsertEmbedding(env, db, req, id);
            var slot := SlotOf(db, req);
            && (r.Ok? <==> IsTarget(db, req) && (slot.Some? ==> SameVector(slot.value.vector, req.vector)))
            && (r.Ok? && slot.Some? ==> r.value == EmbeddingReceipt(slot.value.id, false))
            && (r.Ok? && slot.None? ==>
                  && r.value == EmbeddingReceipt(id, true) && SlotOf(db', req).Some?
                  && SlotOf(db', req).value.id == id && SlotOf(db', req).value.vector == req.vector)
            && (r.Err? || slot.Some? ==> db' == db)
  {
    var slot := SlotOf(db, req);
    if slot.Some? {
      assert RuleEmbeddingFits(env, db, slot.value);
      FingerprintIdentifies(env.sha, slot.value.vector, req.vector);
    } else if IsTarget(db, req) {
      var db' := UpsertEmbedding(env, db, req, id).0;
      AppendedIsFound(db.ruleEmbeddings, db'.ruleEmbeddings[|db.ruleEmbeddings|]);
    }
  }

  lemma {:induction false} AppendedIsFound(es: seq<RuleEmbedding>, e: RuleEmbedding)
    requires FindEmbedding(es, e.tenant, e.ruleRevision, e.space).None?
    ensures FindEmbedding(es + [e], e.tenant, e.ruleRevision, e.space) == Some(e)
  {
    if es != [] {
      assert (es + [e])[1..] == es[1..] + [e];
      AppendedIsFound(es[1..], e);
    }
  }

  /** The appended row keeps the slots unique and every candidate's evidence stored. */
  lemma UpsertEmbeddingKeepsInv(env: Env, db: Db, req: EmbeddingRequest, id: Uuid)
    requires LedgerInv(env, db) && RuleEmbeddingsFit(env, db) && FreshEmbedding(db, id)
    ensures var db' := UpsertEmbedding(env, db, req, id).0;
            LedgerInv(env, db') && RuleEmbeddingsFit(env, db') && db' == db.(ruleEmbeddings := db'.ruleEmbeddings)
            && db.ruleEmbeddings <= db'.ruleEmbeddings
  {
    var db' := UpsertEmbedding(env, db, req, id).0;
    if db' != db {
      forall k | k in db'.candidates ensures CandidateFits(env, db', k, db'.candidates[k]) {
        CandidateFitsElsewhere(env, db, db', k, db.candidates[k]);
      }
    }
  }
}
