/**
 What holds of the match ledger: its keys name identities, writes of the two modes never
 share one, and a failed ingest leaves nothing behind.
 */
module LedgerProof {
  import opened Wrappers
  import opened Uuids
  import opened MatchKeys
  import opened Ranking
  import opened Activation
  import opened Ledger

  // ---------------------------------------------------------------- the invariant

  /** No identifier and no (rule revision, model space) occurs twice among rule embeddings. */
  ghost predicate RuleEmbeddingsUnique(db: Db) {
    forall i, j :: 0 <= i < j < |db.ruleEmbeddings| ==>
      var a, b := db.ruleEmbeddings[i], db.ruleEmbeddings[j];
      a.id != b.id && !SameSlot(a, b.tenant, b.ruleRevision, b.space)
  }

  ghost predicate PageEmbeddingsUnique(db: Db) {
    forall i, j :: 0 <= i < j < |db.pageEmbeddings| ==>
      var a, b := db.pageEmbeddings[i], db.pageEmbeddings[j];
      a.id != b.id && !(a.revision == b.revision && a.space == b.space)
  }

  ghost predicate RevisionIdsUnique(db: Db) {
    forall k, l :: k in db.revisions && l in db.revisions && db.revisions[k].id == db.revisions[l].id ==> k == l
  }

  function IdentityOf(db: Db, key: CandidateKey, row: Candidate, space: Space): MatchIdentity
    requires row.revision in db.revisions
  {
    MatchIdentity(key.tenant, row.rule, row.ruleRevision, db.revisions[row.revision].id, row.revision.sha, space)
  }

  /** The embedding a candidate was made from is stored, belongs to the match and is in the model space. */
  ghost predicate EvidenceStored(db: Db, key: CandidateKey, row: Candidate, space: Space) {
    match row.evidence
    case Reverse(id, _, s) =>
      s == space && exists e :: e in db.ruleEmbeddings && e.id == id && SameSlot(e, key.tenant, row.ruleRevision, space)
    case Historical(id) =>
      exists e :: e in db.pageEmbeddings && e.id == id && e.revision == row.revision && e.space == space
  }

  /** A candidate stands under the key of its own identity, with evidence for it, above its rule's threshold. */
  ghost predicate CandidateFits(env: Env, db: Db, key: CandidateKey, row: Candidate) {
    && row.revision in db.revisions && row.revision.page.tenant == key.tenant
    && row.ruleRevision in db.ruleRevisions && row.similarity >= db.ruleRevisions[row.ruleRevision].threshold
    && exists space :: EvidenceStored(db, key, row, space) && key.key == MatchKey(env.sha, IdentityOf(db, key, row, space))
  }

  ghost predicate CandidatesFit(env: Env, db: Db) {
    forall key :: key in db.candidates ==> CandidateFits(env, db, key, db.candidates[key])
  }

  ghost predicate LedgerInv(env: Env, db: Db) {
    RuleEmbeddingsUnique(db) && PageEmbeddingsUnique(db) && RevisionIdsUnique(db) && CandidatesFit(env, db)
  }

  // ---------------------------------------------------------------- one row per identity

  lemma RuleEmbeddingById(db: Db, a: RuleEmbedding, b: RuleEmbedding)
    requires RuleEmbeddingsUnique(db) && a in db.ruleEmbeddings && b in db.ruleEmbeddings
    ensures a.id == b.id || SameSlot(a, b.tenant, b.ruleRevision, b.space) ==> a == b
  {
    var i :| 0 <= i < |db.ruleEmbeddings| && db.ruleEmbeddings[i] == a;
    var j :| 0 <= j < |db.ruleEmbeddings| && db.ruleEmbeddings[j] == b;
  }

  lemma PageEmbeddingById(db: Db, a: PageEmbedding, b: PageEmbedding)
    requires PageEmbeddingsUnique(db) && a in db.pageEmbeddings && b in db.pageEmbeddings
    ensures a.id == b.id || (a.revision == b.revision && a.space == b.space) ==> a == b
  {
    var i :| 0 <= i < |db.pageEmbeddings| && db.pageEmbeddings[i] == a;
    var j :| 0 <= j < |db.pageEmbeddings| && db.pageEmbeddings[j] == b;
  }

  /** The stored evidence determines the model space of a candidate. */
  lemma SpaceUnique(db: Db, key: CandidateKey, row: Candidate, s: Space, t: Space)
    requires RuleEmbeddingsUnique(db) && PageEmbeddingsUnique(db)
    requires EvidenceStored(db, key, row, s) && EvidenceStored(db, key, row, t)
    ensures s == t
  {
    if row.evidence.Historical? {
      var a :| a in db.pageEmbeddings && a.id == row.evidence.embedding && a.revision == row.revision && a.space == s;
      var b :| b in db.pageEmbeddings && b.id == row.evidence.embedding && b.revision == row.revision && b.space == t;
      PageEmbeddingById(db, a, b);
    }
  }

  /** Across both modes, two rows with one logical identity are one row. */
  lemma OneCandidatePerIdentity(env: Env, db: Db, k: CandidateKey, l: CandidateKey, s: Space, t: Space)
    requires Injective(env.sha) && LedgerInv(env, db) && k in db.candidates && l in db.candidates
    requires EvidenceStored(db, k, db.candidates[k], s) && EvidenceStored(db, l, db.candidates[l], t)
    requires db.candidates[k].revision in db.revisions && db.candidates[l].revision in db.revisions
    ensures IdentityOf(db, k, db.candidates[k], s) == IdentityOf(db, l, db.candidates[l], t) <==> k == l
  {
    var a, b := db.candidates[k], db.candidates[l];
    assert CandidateFits(env, db, k, a) && CandidateFits(env, db, l, b);
    var s' :| EvidenceStored(db, k, a, s') && k.key == MatchKey(env.sha, IdentityOf(db, k, a, s'));
    var t' :| EvidenceStored(db, l, b, t') && l.key == MatchKey(env.sha, IdentityOf(db, l, b, t'));
    SpaceUnique(db, k, a, s, s');
    SpaceUnique(db, l, b, t, t');
    MatchKeyIdentifies(env.sha, IdentityOf(db, k, a, s), IdentityOf(db, l, b, t));
  }

  /** A row found under the key of an identity is a match of that identity. */
  lemma KeyFindsIdentity(env: Env, db: Db, key: CandidateKey, id: MatchIdentity, revision: RevisionKey)
    requires Injective(env.sha) && LedgerInv(env, db) && key in db.candidates
    requires key.key == MatchKey(env.sha, id) && revision in db.revisions
    requires id.pageRevision == db.revisions[revision].id && id.contentSha == revision.sha
    ensures var row := db.candidates[key];
            && row.rule == id.rule && row.ruleRevision == id.ruleRevision && row.revision == revision
            && EvidenceStored(db, key, row, id.space)
  {
    var row := db.candidates[key];
    assert CandidateFits(env, db, key, row);
    var space :| EvidenceStored(db, key, row, space) && key.key == MatchKey(env.sha, IdentityOf(db, key, row, space));
    MatchKeyIdentifies(env.sha, IdentityOf(db, key, row, space), id);
  }

  // ---------------------------------------------------------------- one reverse write

  /** The page revision the receipt names is stored under the request's tenant. */
  predicate ReceiptFits(db: Db, req: Ingest, receipt: PageReceipt) {
    && receipt.revision in db.revisions && db.revisions[receipt.revision].id == receipt.revisionId
    && receipt.revision.page.tenant == req.tenant
  }

  function Fingerprint(env: Env, vector: seq<F32>): string {
    env.sha(VectorBytes(vector))
  }

  /** The key is taken by the other mode, or by another page vector. */
  predicate Blocked(env: Env, db: Db, req: Ingest, receipt: PageReceipt, e: RuleEmbedding) {
    var key := ReverseKey(env, req, receipt, e);
    key in db.candidates
    && !(db.candidates[key].evidence.Reverse? && db.candidates[key].evidence.pageVectorSha == Fingerprint(env, req.vector))
  }

  /** A row under the key differs from the new one in mode or page vector, or not at all. */
  lemma ExistingReverseRow(env: Env, db: Db, req: Ingest, receipt: PageReceipt, e: RuleEmbedding, id: Uuid)
    requires Injective(env.sha) && LedgerInv(env, db) && ReceiptFits(db, req, receipt)
    requires e in db.ruleEmbeddings && Qualifies(env, db, req, e)
    requires ReverseKey(env, req, receipt, e) in db.candidates
    ensures SameReverseEvidence(db, db.candidates[ReverseKey(env, req, receipt, e)], ReverseRow(env, db, req, receipt, e, id))
            <==> !Blocked(env, db, req, receipt, e)
  {
    var key := ReverseKey(env, req, receipt, e);
    var row := db.candidates[key];
    KeyFindsIdentity(env, db, key,
      MatchIdentity(req.tenant, e.rule, e.ruleRevision, receipt.revisionId, receipt.revision.sha, req.space), receipt.revision);
    if row.evidence.Reverse? {
      var f :| f in db.ruleEmbeddings && f.id == row.evidence.alertEmbedding && SameSlot(f, key.tenant, row.ruleRevision, req.space);
      RuleEmbeddingById(db, f, e);
    }
  }

  lemma NewReverseRowFits(env: Env, db: Db, req: Ingest, receipt: PageReceipt, e: RuleEmbedding, id: Uuid)
    requires ReceiptFits(db, req, receipt) && e in db.ruleEmbeddings && Qualifies(env, db, req, e)
    ensures CandidateFits(env, db, ReverseKey(env, req, receipt, e), ReverseRow(env, db, req, receipt, e, id))
  {
    var key, row := ReverseKey(env, req, receipt, e), ReverseRow(env, db, req, receipt, e, id);
    assert SameSlot(e, key.tenant, row.ruleRevision, req.space);
    assert EvidenceStored(db, key, row, req.space);
    assert key.key == MatchKey(env.sha, IdentityOf(db, key, row, req.space));
  }

  /** Adding one candidate that fits keeps the invariant. */
  lemma AddCandidateKeepsInv(env: Env, db: Db, key: CandidateKey, row: Candidate)
    requires LedgerInv(env, db) && CandidateFits(env, db, key, row)
    ensures LedgerInv(env, db.(candidates := db.candidates[key := row]))
  {
    var db' := db.(candidates := db.candidates[key := row]);
    forall k | k in db'.candidates ensures CandidateFits(env, db', k, db'.candidates[k]) {
      CandidateFitsElsewhere(env, db, db', k, db'.candidates[k]);
    }
  }

  /** Whether a candidate fits depends on the other tables, which may have grown. */
  lemma CandidateFitsElsewhere(env: Env, db: Db, db': Db, key: CandidateKey, row: Candidate)
    requires CandidateFits(env, db, key, row)
    requires forall k :: k in db.revisions ==> k in db'.revisions && db'.revisions[k] == db.revisions[k]
    requires forall k :: k in db.ruleRevisions ==> k in db'.ruleRevisions && db'.ruleRevisions[k] == db.ruleRevisions[k]
    requires forall e :: e in db.ruleEmbeddings ==> e in db'.ruleEmbeddings
    requires forall e :: e in db.pageEmbeddings ==> e in db'.pageEmbeddings
    ensures CandidateFits(env, db', key, row)
  {
    var space :| EvidenceStored(db, key, row, space) && key.key == MatchKey(env.sha, IdentityOf(db, key, row, space));
    assert EvidenceStored(db', key, row, space);
    assert IdentityOf(db', key, row, space) == IdentityOf(db, key, row, space);
  }

  // ---------------------------------------------------------------- the loop of one ingest

  /** The rows of `es` are all admitted by the query, with room for every identifier. */
  predicate Admitted(env: Env, db: Db, req: Ingest, es: seq<RuleEmbedding>) {
    forall e :: e in es ==> e in db.ruleEmbeddings && Qualifies(env, db, req, e)
  }

  /** The row's candidate is stored with its evidence, and `c` is what was returned for it. */
  predicate Returned(env: Env, d: Db, req: Ingest, receipt: PageReceipt, e: RuleEmbedding, c: ReverseCandidate) {
    var key := ReverseKey(env, req, receipt, e);
    && key in d.candidates
    && SameReverseEvidence(d, d.candidates[key], ReverseRow(env, d, req, receipt, e, 0))
    && c == ReverseOutput(receipt.revisionId, key, d.candidates[key])
  }

  predicate OnlyAddsCandidates(db: Db, d: Db) {
    && d == db.(candidates := d.candidates)
    && forall k :: k in db.candidates ==> k in d.candidates && d.candidates[k] == db.candidates[k]
  }

  predicate IsKeyOf(env: Env, req: Ingest, receipt: PageReceipt, es: seq<RuleEmbedding>, k: CandidateKey) {
    exists e :: e in es && k == ReverseKey(env, req, receipt, e)
  }

  /** After the loop: every selected row has its candidate, returned in order, and nothing else was added. */
  ghost predicate Persisted(env: Env, db: Db, d: Db, req: Ingest, receipt: PageReceipt, es: seq<RuleEmbedding>, out: seq<ReverseCandidate>) {
    && OnlyAddsCandidates(db, d) && |out| == |es|
    && (forall k :: k in d.candidates ==> k in db.candidates || IsKeyOf(env, req, receipt, es, k))
    && (forall i :: 0 <= i < |es| ==> Returned(env, d, req, receipt, es[i], out[i]))
  }

  /** The threshold check repeated in the loop never drops a row the query admitted. */
  lemma NothingSkipped(env: Env, db: Db, d: Db, req: Ingest, e: RuleEmbedding)
    requires Qualifies(env, db, req, e) && d.ruleRevisions == db.ruleRevisions
    ensures !(Similarity(env, e, req.vector) < ThresholdOf(d, e))
  {
  }

  lemma ReturnedStays(env: Env, d: Db, d': Db, req: Ingest, receipt: PageReceipt, e: RuleEmbedding, c: ReverseCandidate)
    requires OnlyAddsCandidates(d, d') && Returned(env, d, req, receipt, e, c)
    ensures Returned(env, d', req, receipt, e, c)
  {
  }

  lemma WriteReturns(env: Env, d: Db, req: Ingest, receipt: PageReceipt, e: RuleEmbedding, id: Uuid)
    requires receipt.revision in d.revisions && PersistReverse(env, d, req, receipt, e, id).Ok?
    ensures var (d', c) := PersistReverse(env, d, req, receipt, e, id).value;
            && OnlyAddsCandidates(d, d')
            && (forall k :: k in d'.candidates ==> k in d.candidates || k == ReverseKey(env, req, receipt, e))
            && Returned(env, d', req, receipt, e, c)
  {
  }

  lemma PersistOne(env: Env, db: Db, d: Db, req: Ingest, receipt: PageReceipt, es: seq<RuleEmbedding>, out: seq<ReverseCandidate>, id: Uuid,
                   d': Db, c: ReverseCandidate)
    requires es != [] && receipt.revision in db.revisions
    requires Persisted(env, db, d, req, receipt, es[..|es| - 1], out)
    requires PersistReverse(env, d, req, receipt, es[|es| - 1], id) == Ok((d', c))
    ensures Persisted(env, db, d', req, receipt, es, out + [c])
  {
    var n := |es| - 1;
    WriteReturns(env, d, req, receipt, es[n], id);
    forall i | 0 <= i < |es| ensures Returned(env, d', req, receipt, es[i], (out + [c])[i]) {
      if i < n {
        assert es[..n][i] == es[i];
        ReturnedStays(env, d, d', req, receipt, es[i], out[i]);
      }
    }
    forall k | k in d'.candidates ensures k in db.candidates || IsKeyOf(env, req, receipt, es, k) {
      if k == ReverseKey(env, req, receipt, es[n]) {
        assert es[n] in es;
      } else if k !in db.candidates {
        assert IsKeyOf(env, req, receipt, es[..n], k);
        var f :| f in es[..n] && k == ReverseKey(env, req, receipt, f);
        assert f in es;
      }
    }
  }

  /** The loop over admitted rows is the loop over all but the last, then one write. */
  lemma LoopStep(env: Env, db: Db, req: Ingest, receipt: PageReceipt, es: seq<RuleEmbedding>, ids: seq<Uuid>)
    requires 0 < |es| <= |ids| && Admitted(env, db, req, es)
    ensures Admitted(env, db, req, es[..|es| - 1])
    ensures var n := |es| - 1;
            PersistAll(env, db, req, receipt, es, ids) ==
            match PersistAll(env, db, req, receipt, es[..n], ids)
            case Err(f) => Err(f)
            case Ok((d, out)) =>
              match PersistReverse(env, d, req, receipt, es[n], ids[n])
              case Err(f) => Err(f)
              case Ok((d', c)) => Ok((d', out + [c]))
  {
    var n := |es| - 1;
    assert es[n] in es;
    match PersistAll(env, db, req, receipt, es[..n], ids)
    case Err(_) =>
    case Ok((d, out)) => NothingSkipped(env, db, d, req, es[n]);
  }

  lemma {:induction false} PersistAllPersists(env: Env, db: Db, req: Ingest, receipt: PageReceipt, es: seq<RuleEmbedding>, ids: seq<Uuid>)
    requires |es| <= |ids| && Admitted(env, db, req, es) && receipt.revision in db.revisions
    requires PersistAll(env, db, req, receipt, es, ids).Ok?
    ensures var (d, out) := PersistAll(env, db, req, receipt, es, ids).value;
            Persisted(env, db, d, req, receipt, es, out)
  {
    if es == [] {
      assert Persisted(env, db, db, req, receipt, [], []);
    } else {
      var n := |es| - 1;
      LoopStep(env, db, req, receipt, es, ids);
      PersistAllPersists(env, db, req, receipt, es[..n], ids);
      var (d, out) := PersistAll(env, db, req, receipt, es[..n], ids).value;
      var (d', c) := PersistReverse(env, d, req, receipt, es[n], ids[n]).value;
      PersistOne(env, db, d, req, receipt, es, out, ids[n], d', c);
    }
  }

  // ---------------------------------------------------------------- when an ingest fails

  /** Different selected rows have different keys: within one ingest no write meets another. */
  lemma SelectedKeysDiffer(env: Env, db: Db, req: Ingest, receipt: PageReceipt, a: RuleEmbedding, b: RuleEmbedding)
    requires Injective(env.sha) && RuleEmbeddingsUnique(db)
    requires a in db.ruleEmbeddings && b in db.ruleEmbeddings && Qualifies(env, db, req, a) && Qualifies(env, db, req, b)
    requires ReverseKey(env, req, receipt, a) == ReverseKey(env, req, receipt, b)
    ensures a == b
  {
    MatchKeyIdentifies(env.sha,
      MatchIdentity(req.tenant, a.rule, a.ruleRevision, receipt.revisionId, receipt.revision.sha, req.space),
      MatchIdentity(req.tenant, b.rule, b.ruleRevision, receipt.revisionId, receipt.revision.sha, req.space));
    RuleEmbeddingById(db, a, b);
  }

  lemma WriteKeepsInv(env: Env, d: Db, req: Ingest, receipt: PageReceipt, e: RuleEmbedding, id: Uuid)
    requires LedgerInv(env, d) && ReceiptFits(d, req, receipt) && e in d.ruleEmbeddings && Qualifies(env, d, req, e)
    requires PersistReverse(env, d, req, receipt, e, id).Ok?
    ensures LedgerInv(env, PersistReverse(env, d, req, receipt, e, id).value.0)
  {
    if ReverseKey(env, req, receipt, e) !in d.candidates {
      NewReverseRowFits(env, d, req, receipt, e, id);
      AddCandidateKeepsInv(env, d, ReverseKey(env, req, receipt, e), ReverseRow(env, d, req, receipt, e, id));
    }
  }

  /** The tables in the middle of the loop still satisfy the invariant. */
  lemma {:induction false} PersistAllKeepsInv(env: Env, db: Db, req: Ingest, receipt: PageReceipt, es: seq<RuleEmbedding>, ids: seq<Uuid>)
    requires |es| <= |ids| && Admitted(env, db, req, es) && LedgerInv(env, db) && ReceiptFits(db, req, receipt)
    requires PersistAll(env, db, req, receipt, es, ids).Ok?
    ensures LedgerInv(env, PersistAll(env, db, req, receipt, es, ids).value.0)
  {
    if es != [] {
      var n := |es| - 1;
      LoopStep(env, db, req, receipt, es, ids);
      PersistAllKeepsInv(env, db, req, receipt, es[..n], ids);
      var (d, out) := PersistAll(env, db, req, receipt, es[..n], ids).value;
      assert es[n] in es;
      assert Qualifies(env, d, req, es[n]);
      WriteKeepsInv(env, d, req, receipt, es[n], ids[n]);
    }
  }

  predicate AnyBlocked(env: Env, db: Db, req: Ingest, receipt: PageReceipt, es: seq<RuleEmbedding>) {
    exists e :: e in es && Blocked(env, db, req, receipt, e)
  }

  predicate NoRepeats(es: seq<RuleEmbedding>) {
    forall i, j :: 0 <= i < j < |es| ==> es[i] != es[j]
  }

  /** A write later in the loop is blocked exactly when it was blocked before the loop. */
  lemma BlockedStays(env: Env, db: Db, d: Db, req: Ingest, receipt: PageReceipt, es: seq<RuleEmbedding>, out: seq<ReverseCandidate>, e: RuleEmbedding)
    requires Injective(env.sha) && RuleEmbeddingsUnique(db) && Admitted(env, db, req, es + [e]) && e !in es
    requires Persisted(env, db, d, req, receipt, es, out)
    ensures Blocked(env, d, req, receipt, e) <==> Blocked(env, db, req, receipt, e)
  {
    var key := ReverseKey(env, req, receipt, e);
    assert e in es + [e];
    if key in d.candidates && key !in db.candidates {
      var f :| f in es && key == ReverseKey(env, req, receipt, f);
      assert f in es + [e];
      SelectedKeysDiffer(env, db, req, receipt, e, f);
      assert false;
    }
  }

  predicate WriteFailsIfBlocked<T>(env: Env, db: Db, req: Ingest, receipt: PageReceipt, e: RuleEmbedding, w: Result<T, Failure>) {
    (w.Err? <==> Blocked(env, db, req, receipt, e)) && (w.Err? ==> w.error == Conflict)
  }

  /** One more write after the loop so far fails exactly when its key was blocked before the loop. */
  lemma NextWriteFailsIff(env: Env, db: Db, d: Db, req: Ingest, receipt: PageReceipt, es: seq<RuleEmbedding>, out: seq<ReverseCandidate>, e: RuleEmbedding, id: Uuid)
    requires Injective(env.sha) && RuleEmbeddingsUnique(db) && Admitted(env, db, req, es + [e]) && e !in es
    requires Persisted(env, db, d, req, receipt, es, out) && LedgerInv(env, d) && ReceiptFits(d, req, receipt)
    ensures WriteFailsIfBlocked(env, db, req, receipt, e, PersistReverse(env, d, req, receipt, e, id))
  {
    BlockedStays(env, db, d, req, receipt, es, out, e);
    assert e in es + [e];
    assert Qualifies(env, d, req, e);
    if ReverseKey(env, req, receipt, e) in d.candidates {
      ExistingReverseRow(env, d, req, receipt, e, id);
    }
  }

  lemma AnyBlockedSplits(env: Env, db: Db, req: Ingest, receipt: PageReceipt, es: seq<RuleEmbedding>, e: RuleEmbedding)
    ensures AnyBlocked(env, db, req, receipt, es + [e]) <==> AnyBlocked(env, db, req, receipt, es) || Blocked(env, db, req, receipt, e)
  {
    assert forall f :: f in es + [e] <==> f in es || f == e;
  }

  /** The loop's failure is exactly a blocked row among those it was given. */
  predicate FailsIfBlocked(env: Env, db: Db, req: Ingest, receipt: PageReceipt, es: seq<RuleEmbedding>, failure: Option<Failure>) {
    (failure.Some? <==> AnyBlocked(env, db, req, receipt, es)) && (failure.Some? ==> failure.value == Conflict)
  }

  function FailureOf<T>(r: Result<T, Failure>): Option<Failure> {
    if r.Ok? then None else Some(r.error)
  }

  lemma LastWriteDecides<T>(env: Env, db: Db, req: Ingest, receipt: PageReceipt, es: seq<RuleEmbedding>, e: RuleEmbedding,
                            before: Option<Failure>, w: Result<T, Failure>)
    requires FailsIfBlocked(env, db, req, receipt, es, before)
    requires before.None? ==> WriteFailsIfBlocked(env, db, req, receipt, e, w)
    ensures FailsIfBlocked(env, db, req, receipt, es + [e], if before.Some? then before else FailureOf(w))
  {
    AnyBlockedSplits(env, db, req, receipt, es, e);
  }

  lemma AfterLoop(env: Env, db: Db, req: Ingest, receipt: PageReceipt, es: seq<RuleEmbedding>, ids: seq<Uuid>, d: Db, out: seq<ReverseCandidate>)
    requires |es| <= |ids| && Admitted(env, db, req, es) && LedgerInv(env, db) && ReceiptFits(db, req, receipt)
    requires PersistAll(env, db, req, receipt, es, ids) == Ok((d, out))
    ensures Persisted(env, db, d, req, receipt, es, out) && LedgerInv(env, d) && ReceiptFits(d, req, receipt)
  {
    PersistAllPersists(env, db, req, receipt, es, ids);
    PersistAllKeepsInv(env, db, req, receipt, es, ids);
  }

  /** After the loop so far, the write of the next row fails exactly when that row was blocked before the loop. */
  lemma LastWriteFailsIff(env: Env, db: Db, req: Ingest, receipt: PageReceipt, es: seq<RuleEmbedding>, e: RuleEmbedding, ids: seq<Uuid>,
                          id: Uuid, d: Db, out: seq<ReverseCandidate>)
    requires |es| <= |ids| && Admitted(env, db, req, es) && Admitted(env, db, req, es + [e]) && e !in es
    requires Injective(env.sha) && LedgerInv(env, db) && ReceiptFits(db, req, receipt)
    requires PersistAll(env, db, req, receipt, es, ids) == Ok((d, out))
    ensures WriteFailsIfBlocked(env, db, req, receipt, e, PersistReverse(env, d, req, receipt, e, id))
  {
    AfterLoop(env, db, req, receipt, es, ids, d, out);
    NextWriteFailsIff(env, db, d, req, receipt, es, out, e, id);
  }

  lemma LastNotEarlier(es: seq<RuleEmbedding>)
    requires es != [] && NoRepeats(es)
    ensures es == es[..|es| - 1] + [es[|es| - 1]] && es[|es| - 1] !in es[..|es| - 1] && NoRepeats(es[..|es| - 1])
  {
  }

  /** One more row: if the loop before it fails exactly when blocked, so does the loop with it. */
  lemma OneMoreFailsIff(env: Env, db: Db, req: Ingest, receipt: PageReceipt, front: seq<RuleEmbedding>, e: RuleEmbedding, ids: seq<Uuid>,
                        id: Uuid, before: Result<(Db, seq<ReverseCandidate>), Failure>, after: Result<(Db, seq<ReverseCandidate>), Failure>)
    requires |front| <= |ids| && Admitted(env, db, req, front) && Admitted(env, db, req, front + [e]) && e !in front
    requires Injective(env.sha) && LedgerInv(env, db) && ReceiptFits(db, req, receipt)
    requires before == PersistAll(env, db, req, receipt, front, ids) && FailsIfBlocked(env, db, req, receipt, front, FailureOf(before))
    requires FailureOf(after) == if before.Err? then FailureOf(before) else FailureOf(PersistReverse(env, before.value.0, req, receipt, e, id))
    ensures FailsIfBlocked(env, db, req, receipt, front + [e], FailureOf(after))
  {
    if before.Ok? {
      LastWriteFailsIff(env, db, req, receipt, front, e, ids, id, before.value.0, before.value.1);
      LastWriteDecides(env, db, req, receipt, front, e, None, PersistReverse(env, before.value.0, req, receipt, e, id));
    } else {
      LastWriteDecides(env, db, req, receipt, front, e, FailureOf(before), before);
    }
  }

  /** The loop fails exactly when a selected row's key is blocked. */
  lemma {:induction false} PersistAllFailsIff(env: Env, db: Db, req: Ingest, receipt: PageReceipt, es: seq<RuleEmbedding>, ids: seq<Uuid>)
    requires |es| <= |ids| && Admitted(env, db, req, es) && NoRepeats(es)
    requires Injective(env.sha) && LedgerInv(env, db) && ReceiptFits(db, req, receipt)
    ensures FailsIfBlocked(env, db, req, receipt, es, FailureOf(PersistAll(env, db, req, receipt, es, ids)))
    decreases |es|
  {
    if es != [] {
      var front := es[..|es| - 1];
      LastNotEarlier(es);
      LoopStep(env, db, req, receipt, es, ids);
      PersistAllFailsIff(env, db, req, receipt, front, ids);
      OneMoreFailsIff(env, db, req, receipt, front, es[|es| - 1], ids, ids[|es| - 1],
        PersistAll(env, db, req, receipt, front, ids), PersistAll(env, db, req, receipt, es, ids));
    }
  }

  // ---------------------------------------------------------------- the whole ingest

  predicate FreshRevision(db: Db, id: Uuid) {
    forall k :: k in db.revisions ==> db.revisions[k].id != id
  }

  lemma UpsertPageEffect(env: Env, db: Db, req: Ingest, ids: Ids)
    ensures var (db1, receipt) := UpsertPage(env, db, req, ids);
            && db1 == db.(pages := db1.pages, revisions := db1.revisions)
            && (forall k :: k in db.revisions ==> k in db1.revisions && db1.revisions[k] == db.revisions[k])
            && (forall k :: k in db1.revisions && k !in db.revisions ==> k == receipt.revision && db1.revisions[k].id == ids.revision)
            && ReceiptFits(db1, req, receipt)
  {
  }

  lemma UpsertPageKeepsInv(env: Env, db: Db, req: Ingest, ids: Ids)
    requires LedgerInv(env, db) && FreshRevision(db, ids.revision)
    ensures var (db1, receipt) := UpsertPage(env, db, req, ids);
            LedgerInv(env, db1) && ReceiptFits(db1, req, receipt) && db1.candidates == db.candidates
  {
    var db1 := UpsertPage(env, db, req, ids).0;
    UpsertPageEffect(env, db, req, ids);
    MoreRevisionsKeepInv(env, db, db1, ids.revision);
  }

  lemma MoreRevisionsKeepInv(env: Env, db: Db, db1: Db, id: Uuid)
    requires LedgerInv(env, db) && FreshRevision(db, id)
    requires db1 == db.(pages := db1.pages, revisions := db1.revisions)
    requires forall k :: k in db.revisions ==> k in db1.revisions && db1.revisions[k] == db.revisions[k]
    requires forall k :: k in db1.revisions && k !in db.revisions ==> db1.revisions[k].id == id
    requires forall k, l :: k in db1.revisions && k !in db.revisions && l in db1.revisions && l !in db.revisions ==> k == l
    ensures LedgerInv(env, db1)
  {
    forall k | k in db1.candidates ensures CandidateFits(env, db1, k, db1.candidates[k]) {
      CandidateFitsElsewhere(env, db, db1, k, db.candidates[k]);
    }
  }

  lemma RanksDistinct(env: Env, db: Db, vector: seq<F32>)
    requires RuleEmbeddingsUnique(db)
    ensures DistinctRanks(RankOf(env, vector), db.ruleEmbeddings)
  {
  }

  /**
   The candidate query returns exactly the nearest qualifying embeddings, in order of distance
   and identifier, and each rule at most once.
   */
  lemma FindCandidatesMeaning(env: Env, db: Db, req: Ingest)
    requires RuleEmbeddingsUnique(db)
    ensures var es := FindCandidates(env, db, req);
            && IsTop(RankOf(env, req.vector), db.ruleEmbeddings, e => Qualifies(env, db, req, e), req.maxCandidates, es)
            && Admitted(env, db, req, es) && NoRepeats(es)
            && forall i, j :: 0 <= i < j < |es| ==> es[i].rule != es[j].rule
  {
    var key, keep := RankOf(env, req.vector), (e: RuleEmbedding) => Qualifies(env, db, req, e);
    RanksDistinct(env, db, req.vector);
    SelectIsTop(key, db.ruleEmbeddings, keep, req.maxCandidates);
    var es := FindCandidates(env, db, req);
    forall i, j | 0 <= i < j < |es| ensures es[i] != es[j] && es[i].rule != es[j].rule {
      assert Before(key(es[i]), key(es[j]));
      assert es[i] in es && es[j] in es;
      if es[i].rule == es[j].rule {
        RuleEmbeddingById(db, es[i], es[j]);
      }
    }
  }

  /** Room for one more candidate only appends to the answer. */
  lemma FindCandidatesPrefix(env: Env, db: Db, req: Ingest)
    ensures FindCandidates(env, db, req) <= FindCandidates(env, db, req.(maxCandidates := req.maxCandidates + 1))
  {
    var more := req.(maxCandidates := req.maxCandidates + 1);
    assert forall e :: Qualifies(env, db, more, e) == Qualifies(env, db, req, e);
    FilterAgrees(db.ruleEmbeddings, e => Qualifies(env, db, more, e), e => Qualifies(env, db, req, e));
    SelectPrefix(RankOf(env, req.vector), db.ruleEmbeddings, e => Qualifies(env, db, req, e), req.maxCandidates);
  }

  lemma FindCandidatesAdmitted(env: Env, db: Db, req: Ingest)
    requires RuleEmbeddingsUnique(db)
    ensures Admitted(env, db, req, FindCandidates(env, db, req)) && NoRepeats(FindCandidates(env, db, req))
  {
    FindCandidatesMeaning(env, db, req);
  }

  /** What an ingest meets: the receipt of its page and the rows it selects. */
  function Selected(env: Env, db: Db, req: Ingest, ids: Ids): (PageReceipt, seq<RuleEmbedding>) {
    var (db1, receipt) := UpsertPage(env, db, req, ids);
    (receipt, FindCandidates(env, db1, req))
  }

  /**
   An ingest fails exactly when one of its matches is already recorded by the historical mode
   or for another page vector; then every table is as before, and otherwise the invariant holds.
   */
  lemma IngestFailsIff(env: Env, db: Db, req: Ingest, ids: Ids)
    requires Injective(env.sha) && LedgerInv(env, db) && FreshRevision(db, ids.revision)
    requires |ids.candidates| >= req.maxCandidates
    ensures var (db', r) := IngestPage(env, db, req, ids);
            var (receipt, es) := Selected(env, db, req, ids);
            && (r.Err? <==> AnyBlocked(env, db, req, receipt, es))
            && (r.Err? ==> db' == db && r.error == Conflict)
            && LedgerInv(env, db')
  {
    var (db1, receipt) := UpsertPage(env, db, req, ids);
    var es := FindCandidates(env, db1, req);
    UpsertPageKeepsInv(env, db, req, ids);
    FindCandidatesAdmitted(env, db1, req);
    PersistAllFailsIff(env, db1, req, receipt, es, ids.candidates);
    BlockedByCandidates(env, db, db1, req, receipt, es);
    if PersistAll(env, db1, req, receipt, es, ids.candidates).Ok? {
      PersistAllKeepsInv(env, db1, req, receipt, es, ids.candidates);
    }
  }

  lemma BlockedByCandidates(env: Env, db: Db, db1: Db, req: Ingest, receipt: PageReceipt, es: seq<RuleEmbedding>)
    requires db1.candidates == db.candidates
    ensures AnyBlocked(env, db1, req, receipt, es) <==> AnyBlocked(env, db, req, receipt, es)
  {
    assert forall e :: Blocked(env, db1, req, receipt, e) <==> Blocked(env, db, req, receipt, e);
  }

  /** A blocked reverse match was recorded by the other mode, or its page vector differs beyond the sign of zeros. */
  lemma BlockedMeansOtherVector(env: Env, db: Db, req: Ingest, receipt: PageReceipt, e: RuleEmbedding, other: seq<F32>)
    requires Injective(env.sha) && ReverseKey(env, req, receipt, e) in db.candidates
    requires var row := db.candidates[ReverseKey(env, req, receipt, e)];
             row.evidence.Reverse? && row.evidence.pageVectorSha == Fingerprint(env, other)
    ensures Blocked(env, db, req, receipt, e) <==> !SameVector(other, req.vector)
  {
    FingerprintIdentifies(env.sha, other, req.vector);
  }

  /** An embedding that both requests select, the second for the same page and content with another vector. */
  predicate SelectedByBoth(env: Env, db: Db, req: Ingest, ids: Ids, d: Db, vector: seq<F32>, again: Ids, e: RuleEmbedding) {
    e in Selected(env, db, req, ids).1 && e in Selected(env, d, req.(vector := vector), again).1
  }

  /** What a successful ingest stored blocks the same match for another vector. */
  lemma StoredMatchBlocks(env: Env, db: Db, req: Ingest, ids: Ids, vector: seq<F32>, again: Ids, e: RuleEmbedding)
    requires Injective(env.sha) && RuleEmbeddingsUnique(db) && |ids.candidates| >= req.maxCandidates
    requires IngestPage(env, db, req, ids).1.Ok? && !SameVector(req.vector, vector)
    requires e in Selected(env, db, req, ids).1
    ensures var d := IngestPage(env, db, req, ids).0;
            Blocked(env, d, req.(vector := vector), Selected(env, d, req.(vector := vector), again).0, e)
  {
    var (db1, receipt) := UpsertPage(env, db, req, ids);
    var es := FindCandidates(env, db1, req);
    FindCandidatesMeaning(env, db1, req);
    PersistAllPersists(env, db1, req, receipt, es, ids.candidates);
    var (d, out) := PersistAll(env, db1, req, receipt, es, ids.candidates).value;
    var i :| 0 <= i < |es| && es[i] == e;
    assert Returned(env, d, req, receipt, es[i], out[i]);
    var req' := req.(vector := vector);
    var receipt' := UpsertPage(env, d, req', again).1;
    assert receipt' == receipt.(changed := false);
    assert ReverseKey(env, req', receipt', e) == ReverseKey(env, req, receipt, e);
    BlockedMeansOtherVector(env, d, req', receipt', e, req.vector);
  }

  /** After a successful ingest, the same page and content with another vector conflicts as soon as one embedding is selected again. */
  lemma OtherVectorConflicts(env: Env, db: Db, req: Ingest, ids: Ids, vector: seq<F32>, again: Ids, e: RuleEmbedding)
    requires Injective(env.sha) && LedgerInv(env, db) && FreshRevision(db, ids.revision)
    requires |ids.candidates| >= req.maxCandidates && |again.candidates| >= req.maxCandidates
    requires IngestPage(env, db, req, ids).1.Ok? && !SameVector(req.vector, vector)
    requires var d := IngestPage(env, db, req, ids).0;
             FreshRevision(d, again.revision) && SelectedByBoth(env, db, req, ids, d, vector, again, e)
    ensures var d := IngestPage(env, db, req, ids).0;
            IngestPage(env, d, req.(vector := vector), again) == (d, Err(Conflict))
  {
    var d := IngestPage(env, db, req, ids).0;
    IngestFailsIff(env, db, req, ids);
    StoredMatchBlocks(env, db, req, ids, vector, again, e);
    IngestFailsIff(env, d, req.(vector := vector), again);
  }

  // ---------------------------------------------------------------- replay

  lemma UpsertPageAgain(env: Env, db: Db, req: Ingest, ids: Ids, again: Ids)
    ensures var (db1, receipt) := UpsertPage(env, db, req, ids);
            UpsertPage(env, db1, req, again) == (db1, receipt.(changed := false))
  {
    var (db1, receipt) := UpsertPage(env, db, req, ids);
    var (db2, _) := UpsertPage(env, db1, req, again);
    assert db2.pages == db1.pages;
  }

  lemma FindCandidatesAgrees(env: Env, db: Db, d: Db, req: Ingest)
    requires d.rules == db.rules && d.ruleRevisions == db.ruleRevisions && d.ruleEmbeddings == db.ruleEmbeddings
    ensures FindCandidates(env, d, req) == FindCandidates(env, db, req)
  {
    assert forall e :: Qualifies(env, d, req, e) == Qualifies(env, db, req, e);
    FilterAgrees(db.ruleEmbeddings, e => Qualifies(env, d, req, e), e => Qualifies(env, db, req, e));
  }

  lemma WriteAgain(env: Env, d: Db, req: Ingest, receipt: PageReceipt, e: RuleEmbedding, c: ReverseCandidate, id: Uuid)
    requires Returned(env, d, req, receipt, e, c)
    ensures PersistReverse(env, d, req, receipt, e, id) == Ok((d, c))
  {
  }

  predicate AllReturned(env: Env, d: Db, req: Ingest, receipt: PageReceipt, es: seq<RuleEmbedding>, out: seq<ReverseCandidate>) {
    |es| == |out| && forall i :: 0 <= i < |es| ==> Returned(env, d, req, receipt, es[i], out[i])
  }

  lemma AllReturnedFront(env: Env, d: Db, req: Ingest, receipt: PageReceipt, es: seq<RuleEmbedding>, out: seq<ReverseCandidate>)
    requires es != [] && AllReturned(env, d, req, receipt, es, out)
    ensures AllReturned(env, d, req, receipt, es[..|es| - 1], out[..|es| - 1])
    ensures Returned(env, d, req, receipt, es[|es| - 1], out[|es| - 1])
  {
  }

  lemma AgainStep(env: Env, d: Db, req: Ingest, receipt: PageReceipt, es: seq<RuleEmbedding>, out: seq<ReverseCandidate>, ids: seq<Uuid>)
    requires 0 < |es| == |out| <= |ids| && Admitted(env, d, req, es)
    requires PersistAll(env, d, req, receipt, es[..|es| - 1], ids) == Ok((d, out[..|es| - 1]))
    requires Returned(env, d, req, receipt, es[|es| - 1], out[|es| - 1])
    ensures PersistAll(env, d, req, receipt, es, ids) == Ok((d, out))
  {
    var n := |es| - 1;
    LoopStep(env, d, req, receipt, es, ids);
    WriteAgain(env, d, req, receipt, es[n], out[n], ids[n]);
    assert out == out[..n] + [out[n]];
  }

  lemma AdmittedFront(env: Env, db: Db, req: Ingest, es: seq<RuleEmbedding>)
    requires es != [] && Admitted(env, db, req, es)
    ensures Admitted(env, db, req, es[..|es| - 1])
  {
  }

  /** Writing rows whose candidates are all there returns them and writes nothing. */
  lemma {:induction false} PersistAllAgain(env: Env, d: Db, req: Ingest, receipt: PageReceipt, es: seq<RuleEmbedding>, out: seq<ReverseCandidate>, ids: seq<Uuid>)
    requires |es| <= |ids| && Admitted(env, d, req, es) && AllReturned(env, d, req, receipt, es, out)
    ensures PersistAll(env, d, req, receipt, es, ids) == Ok((d, out))
    decreases |es|
  {
    if es == [] {
      assert out == [];
    } else {
      AllReturnedFront(env, d, req, receipt, es, out);
      AdmittedFront(env, d, req, es);
      PersistAllAgain(env, d, req, receipt, es[..|es| - 1], out[..|es| - 1], ids);
      AgainStep(env, d, req, receipt, es, out, ids);
    }
  }

  /** Replaying a successful ingest returns the same page, revision and candidates, unchanged, and writes nothing. */
  lemma ReplayIsIdempotent(env: Env, db: Db, req: Ingest, ids: Ids, again: Ids)
    requires RuleEmbeddingsUnique(db) && |ids.candidates| >= req.maxCandidates && |again.candidates| >= req.maxCandidates
    requires IngestPage(env, db, req, ids).1.Ok?
    ensures var (db', r) := IngestPage(env, db, req, ids);
            IngestPage(env, db', req, again) == (db', Ok(r.value.(changed := false)))
  {
    var (db1, receipt) := UpsertPage(env, db, req, ids);
    var es := FindCandidates(env, db1, req);
    FindCandidatesMeaning(env, db1, req);
    PersistAllPersists(env, db1, req, receipt, es, ids.candidates);
    var (d, out) := PersistAll(env, db1, req, receipt, es, ids.candidates).value;
    UpsertPageAgain(env, db, req, ids, again);
    var (d1, receipt') := UpsertPage(env, d, req, again);
    assert d1 == d && receipt' == receipt.(changed := false) by {
      var (db2, r2) := UpsertPage(env, db1, req, again);
      assert d1 == db2.(candidates := d.candidates);
    }
    FindCandidatesAgrees(env, db1, d, req);
    forall i | 0 <= i < |es| ensures Returned(env, d, req, receipt', es[i], out[i]) {
      assert Returned(env, d, req, receipt, es[i], out[i]);
    }
    assert forall e :: Qualifies(env, d, req, e) == Qualifies(env, db1, req, e);
    PersistAllAgain(env, d, req, receipt', es, out, again.candidates);
  }
}
