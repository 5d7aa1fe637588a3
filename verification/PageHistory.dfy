/**
 The revision history of a page: one revision per distinct normalised content, linked into a
 tree by predecessors, with the latest pointer on the content of the last committed ingest.
 The history of committed ingests is carried as a log beside the tables.
 */
module PageHistory {
  import opened Wrappers
  import opened MatchKeys
  import opened Ledger
  import Text

  datatype Visit = Visit(page: PageKey, content: string)

  type Log = seq<Visit>

  function VisitOf(req: Ingest): Visit {
    Visit(PageKeyOf(req), Text.CollapseWhitespace(req.content))
  }

  /** The content of the last committed ingest of a page. */
  function LastContent(log: Log, page: PageKey): (r: Option<string>)
    ensures r.Some? ==> Visit(page, r.value) in log
    ensures r.None? ==> forall v :: v in log ==> v.page != page
  {
    if log == [] then None
    else if log[|log| - 1].page == page then Some(log[|log| - 1].content)
    else LastContent(log[..|log| - 1], page)
  }

  function KeyFor(env: Env, page: PageKey, content: string): RevisionKey {
    RevisionKey(page, TextSha(env.sha, content))
  }

  type Revisions = map<RevisionKey, PageRevision>

  // ---------------------------------------------------------------- trees of revisions

  /** Following predecessors from `from`, inside its page, ends at a revision without one. */
  predicate PathToRoot(revs: Revisions, path: seq<RevisionKey>, from: RevisionKey) {
    && path != [] && path[0] == from
    && (forall i :: 0 <= i < |path| ==> path[i] in revs && path[i].page == from.page)
    && (forall i :: 0 <= i < |path| - 1 ==> revs[path[i]].predecessor == Some(path[i + 1]))
    && revs[path[|path| - 1]].predecessor == None
  }

  predicate IsRoot(revs: Revisions, page: PageKey, r: RevisionKey) {
    r in revs && r.page == page && revs[r].predecessor == None
  }

  ghost predicate ReachesRoot(revs: Revisions, r: RevisionKey) {
    exists path :: PathToRoot(revs, path, r)
  }

  /** One root, and every revision of the page reaches it by links inside the page. */
  ghost predicate IsTree(revs: Revisions, page: PageKey) {
    && (exists root :: IsRoot(revs, page, root))
    && (forall a, b :: IsRoot(revs, page, a) && IsRoot(revs, page, b) ==> a == b)
    && (forall r :: r in revs && r.page == page ==> ReachesRoot(revs, r))
  }

  lemma PathStays(revs: Revisions, revs': Revisions, path: seq<RevisionKey>, from: RevisionKey)
    requires PathToRoot(revs, path, from)
    requires forall k :: k in revs ==> k in revs' && revs'[k] == revs[k]
    ensures PathToRoot(revs', path, from)
  {
  }

  lemma ReachesRootStays(revs: Revisions, revs': Revisions, r: RevisionKey)
    requires ReachesRoot(revs, r) && forall k :: k in revs ==> k in revs' && revs'[k] == revs[k]
    ensures ReachesRoot(revs', r)
  {
    var path :| PathToRoot(revs, path, r);
    PathStays(revs, revs', path, r);
  }

  /** A new revision hangs under a revision of its page that reaches the root. */
  lemma NewLeafReachesRoot(revs: Revisions, key: RevisionKey, row: PageRevision, parent: RevisionKey)
    requires key !in revs && row.predecessor == Some(parent) && parent.page == key.page && ReachesRoot(revs, parent)
    ensures ReachesRoot(revs[key := row], key)
  {
    var revs' := revs[key := row];
    var path :| PathToRoot(revs, path, parent);
    PathStays(revs, revs', path, parent);
    var path' := [key] + path;
    assert forall i :: 0 <= i < |path| ==> path'[i + 1] == path[i];
    assert PathToRoot(revs', path', key) by {
      forall i | 0 <= i < |path'| - 1 ensures revs'[path'[i]].predecessor == Some(path'[i + 1]) {
        if i > 0 {
          assert revs'[path[i - 1]].predecessor == Some(path[i - 1 + 1]);
        }
      }
    }
  }

  /** A revision keeps a page's tree a tree, as its root or under a revision already there. */
  lemma AddToTree(revs: Revisions, key: RevisionKey, row: PageRevision)
    requires key !in revs
    requires match row.predecessor
             case None => forall r :: r in revs ==> r.page != key.page
             case Some(parent) => parent in revs && parent.page == key.page && IsTree(revs, key.page)
    ensures IsTree(revs[key := row], key.page)
  {
    var revs' := revs[key := row];
    var page := key.page;
    if row.predecessor.None? {
      assert IsRoot(revs', page, key);
      assert PathToRoot(revs', [key], key);
    } else {
      var root :| IsRoot(revs, page, root);
      assert IsRoot(revs', page, root);
      NewLeafReachesRoot(revs, key, row, row.predecessor.value);
      forall a | IsRoot(revs', page, a) ensures IsRoot(revs, page, a) {
      }
    }
    forall r | r in revs' && r.page == page ensures ReachesRoot(revs', r) {
      if r != key {
        ReachesRootStays(revs, revs', r);
      }
    }
  }

  lemma OtherTreeStays(revs: Revisions, key: RevisionKey, row: PageRevision, page: PageKey)
    requires key !in revs && key.page != page && IsTree(revs, page)
    ensures IsTree(revs[key := row], page)
  {
    var revs' := revs[key := row];
    var root :| IsRoot(revs, page, root);
    assert IsRoot(revs', page, root);
    forall a | IsRoot(revs', page, a) ensures IsRoot(revs, page, a) {
    }
    forall r | r in revs' && r.page == page ensures ReachesRoot(revs', r) {
      ReachesRootStays(revs, revs', r);
    }
  }

  // ---------------------------------------------------------------- the invariant

  ghost predicate PagesMatchLog(env: Env, db: Db, log: Log) {
    && (forall v :: v in log ==> v.page in db.pages)
    && (forall k :: k in db.pages ==>
          LastContent(log, k).Some? && db.pages[k].latest == Some(KeyFor(env, k, LastContent(log, k).value)))
  }

  ghost predicate RevisionsMatchLog(env: Env, db: Db, log: Log) {
    && (forall v :: v in log ==> KeyFor(env, v.page, v.content) in db.revisions)
    && (forall k :: k in db.revisions ==>
          Visit(k.page, db.revisions[k].content) in log && k == KeyFor(env, k.page, db.revisions[k].content))
  }

  /** No earlier visit of the page had content with the same hash. */
  predicate IsFirst(env: Env, log: Log, n: nat)
    requires n < |log|
  {
    forall m :: 0 <= m < n ==> KeyFor(env, log[m].page, log[m].content) != KeyFor(env, log[n].page, log[n].content)
  }

  /** The revision of the content that the page's last visit before position `n` committed. */
  function PreviousRevision(env: Env, log: Log, n: nat): Option<RevisionKey>
    requires n < |log|
  {
    match LastContent(log[..n], log[n].page)
    case None => None
    case Some(content) => Some(KeyFor(env, log[n].page, content))
  }

  /** The revision that a visit created points back to the page's previous one. */
  ghost predicate PredecessorsMatchLog(env: Env, db: Db, log: Log) {
    forall n :: 0 <= n < |log| && IsFirst(env, log, n) ==>
      var key := KeyFor(env, log[n].page, log[n].content);
      key in db.revisions && db.revisions[key].predecessor == PreviousRevision(env, log, n)
  }

  ghost predicate HistoryInv(env: Env, db: Db, log: Log) {
    && PagesMatchLog(env, db, log)
    && RevisionsMatchLog(env, db, log)
    && PredecessorsMatchLog(env, db, log)
    && forall k :: k in db.pages ==> IsTree(db.revisions, k)
  }

  lemma LastContentAppend(log: Log, v: Visit, page: PageKey)
    ensures LastContent(log + [v], page) == if v.page == page then Some(v.content) else LastContent(log, page)
  {
    var log' := log + [v];
    assert log'[..|log'| - 1] == log;
  }

  /** What an upsert does to pages and revisions, in terms of the visit it records. */
  lemma UpsertEffect(env: Env, db: Db, req: Ingest, ids: Ids)
    ensures var db' := UpsertPage(env, db, req, ids).0;
            var v := VisitOf(req);
            var key := KeyFor(env, v.page, v.content);
            && db'.pages.Keys == db.pages.Keys + {v.page}
            && db'.pages[v.page].latest == Some(key)
            && (forall k :: k in db.pages && k != v.page ==> db'.pages[k] == db.pages[k])
            && key in db'.revisions
            && (key in db.revisions ==> db'.revisions == db.revisions)
            && (key !in db.revisions ==> db'.revisions == db.revisions[key := db'.revisions[key]] && db'.revisions[key].content == v.content)
  {
  }

  lemma PagesStayMatched(env: Env, db: Db, log: Log, db': Db, v: Visit)
    requires PagesMatchLog(env, db, log)
    requires db'.pages.Keys == db.pages.Keys + {v.page} && db'.pages[v.page].latest == Some(KeyFor(env, v.page, v.content))
    requires forall k :: k in db.pages && k != v.page ==> db'.pages[k] == db.pages[k]
    ensures PagesMatchLog(env, db', log + [v])
  {
    forall k | k in db'.pages
      ensures LastContent(log + [v], k).Some? && db'.pages[k].latest == Some(KeyFor(env, k, LastContent(log + [v], k).value))
    {
      LastContentAppend(log, v, k);
    }
  }

  lemma RevisionsStayMatched(env: Env, db: Db, log: Log, db': Db, v: Visit, key: RevisionKey)
    requires RevisionsMatchLog(env, db, log) && key == KeyFor(env, v.page, v.content) && key in db'.revisions
    requires key in db.revisions ==> db'.revisions == db.revisions
    requires key !in db.revisions ==> db'.revisions == db.revisions[key := db'.revisions[key]] && db'.revisions[key].content == v.content
    ensures RevisionsMatchLog(env, db', log + [v])
  {
    assert v in log + [v];
    forall k | k in db'.revisions
      ensures Visit(k.page, db'.revisions[k].content) in log + [v] && k == KeyFor(env, k.page, db'.revisions[k].content)
    {
      if k in db.revisions {
        assert Visit(k.page, db.revisions[k].content) in log;
      } else {
        assert Visit(k.page, db'.revisions[k].content) == v;
      }
    }
  }

  lemma UpsertKeepsLogMatch(env: Env, db: Db, log: Log, req: Ingest, ids: Ids)
    requires PagesMatchLog(env, db, log) && RevisionsMatchLog(env, db, log)
    ensures var db' := UpsertPage(env, db, req, ids).0;
            PagesMatchLog(env, db', log + [VisitOf(req)]) && RevisionsMatchLog(env, db', log + [VisitOf(req)])
  {
    var db' := UpsertPage(env, db, req, ids).0;
    var v := VisitOf(req);
    UpsertEffect(env, db, req, ids);
    PagesStayMatched(env, db, log, db', v);
    RevisionsStayMatched(env, db, log, db', v, KeyFor(env, v.page, v.content));
  }

  lemma UpsertKeepsTrees(env: Env, db: Db, log: Log, req: Ingest, ids: Ids)
    requires HistoryInv(env, db, log)
    ensures var db' := UpsertPage(env, db, req, ids).0;
            forall k :: k in db'.pages ==> IsTree(db'.revisions, k)
  {
    var db' := UpsertPage(env, db, req, ids).0;
    var key := RevisionKeyOf(env, req);
    if key in db.revisions {
      assert Visit(key.page, db.revisions[key].content) in log;
    } else {
      var row := NewRevision(db, req, ids);
      if key.page in db.pages {
        var parent := db.pages[key.page].latest.value;
        assert parent == KeyFor(env, key.page, LastContent(log, key.page).value);
        assert Visit(key.page, LastContent(log, key.page).value) in log;
      } else {
        forall r | r in db.revisions ensures r.page != key.page {
          assert Visit(r.page, db.revisions[r].content) in log;
        }
      }
      AddToTree(db.revisions, key, row);
      forall k | k in db'.pages && k != key.page ensures IsTree(db'.revisions, k) {
        OtherTreeStays(db.revisions, key, row, k);
      }
    }
  }

  /** Earlier positions of a history keep their meaning when it is extended. */
  lemma EarlierPositions(env: Env, log: Log, v: Visit, n: nat)
    requires n < |log|
    ensures IsFirst(env, log + [v], n) <==> IsFirst(env, log, n)
    ensures PreviousRevision(env, log + [v], n) == PreviousRevision(env, log, n)
  {
    assert (log + [v])[..n] == log[..n];
    assert forall m :: 0 <= m <= n ==> (log + [v])[m] == log[m];
  }

  /** A new visit whose key is not yet stored is the first with it, and the page's latest pointer is its previous revision. */
  lemma NewPosition(env: Env, db: Db, log: Log, req: Ingest, ids: Ids)
    requires PagesMatchLog(env, db, log) && RevisionsMatchLog(env, db, log)
    ensures var v := VisitOf(req);
            var key := KeyFor(env, v.page, v.content);
            && (IsFirst(env, log + [v], |log|) ==> key !in db.revisions)
            && PreviousRevision(env, log + [v], |log|) == TouchedPage(db, req, ids.page).latest
  {
    var v := VisitOf(req);
    var key := KeyFor(env, v.page, v.content);
    var log' := log + [v];
    assert log'[..|log|] == log && log'[|log|] == v;
    if key in db.revisions {
      var w := Visit(key.page, db.revisions[key].content);
      var m :| 0 <= m < |log| && log[m] == w;
      assert log'[m] == w;
    }
    if v.page in db.pages {
      assert LastContent(log, v.page).Some?;
    } else {
      assert LastContent(log, v.page).None?;
    }
  }

  lemma UpsertPredecessor(env: Env, db: Db, req: Ingest, ids: Ids)
    ensures var db' := UpsertPage(env, db, req, ids).0;
            var key := KeyFor(env, VisitOf(req).page, VisitOf(req).content);
            && (forall k :: k in db.revisions ==> k in db'.revisions && db'.revisions[k] == db.revisions[k])
            && (key !in db.revisions ==> key in db'.revisions && db'.revisions[key].predecessor == TouchedPage(db, req, ids.page).latest)
  {
  }

  lemma PredecessorsExtend(env: Env, db: Db, db': Db, log: Log, v: Visit, latest: Option<RevisionKey>)
    requires PredecessorsMatchLog(env, db, log)
    requires forall k :: k in db.revisions ==> k in db'.revisions && db'.revisions[k] == db.revisions[k]
    requires IsFirst(env, log + [v], |log|) ==>
               var key := KeyFor(env, v.page, v.content); key in db'.revisions && db'.revisions[key].predecessor == latest
    requires PreviousRevision(env, log + [v], |log|) == latest
    ensures PredecessorsMatchLog(env, db', log + [v])
  {
    var log' := log + [v];
    forall n | 0 <= n < |log'| && IsFirst(env, log', n)
      ensures var key := KeyFor(env, log'[n].page, log'[n].content);
              key in db'.revisions && db'.revisions[key].predecessor == PreviousRevision(env, log', n)
    {
      if n < |log| {
        EarlierPositions(env, log, v, n);
      }
    }
  }

  lemma UpsertKeepsPredecessors(env: Env, db: Db, log: Log, req: Ingest, ids: Ids)
    requires PagesMatchLog(env, db, log) && RevisionsMatchLog(env, db, log) && PredecessorsMatchLog(env, db, log)
    ensures PredecessorsMatchLog(env, UpsertPage(env, db, req, ids).0, log + [VisitOf(req)])
  {
    NewPosition(env, db, log, req, ids);
    UpsertPredecessor(env, db, req, ids);
    PredecessorsExtend(env, db, UpsertPage(env, db, req, ids).0, log, VisitOf(req), TouchedPage(db, req, ids.page).latest);
  }

  /** Every committed ingest extends the history; a failed one leaves it alone. */
  lemma IngestKeepsHistory(env: Env, db: Db, log: Log, req: Ingest, ids: Ids)
    requires HistoryInv(env, db, log) && |ids.candidates| >= req.maxCandidates
    ensures var (db', r) := IngestPage(env, db, req, ids);
            HistoryInv(env, db', if r.Ok? then log + [VisitOf(req)] else log)
  {
    UpsertKeepsLogMatch(env, db, log, req, ids);
    UpsertKeepsTrees(env, db, log, req, ids);
    UpsertKeepsPredecessors(env, db, log, req, ids);
    IngestPublishesUpsert(env, db, req, ids);
    var db1 := UpsertPage(env, db, req, ids).0;
    var (db', r) := IngestPage(env, db, req, ids);
    if r.Ok? {
      SamePagesSameHistory(env, db1, db', log + [VisitOf(req)]);
    }
  }

  lemma IngestPublishesUpsert(env: Env, db: Db, req: Ingest, ids: Ids)
    requires |ids.candidates| >= req.maxCandidates
    ensures var db1 := UpsertPage(env, db, req, ids).0;
            var (db', r) := IngestPage(env, db, req, ids);
            if r.Ok? then db'.pages == db1.pages && db'.revisions == db1.revisions else db' == db
  {
  }

  lemma SamePagesSameHistory(env: Env, db: Db, db': Db, log: Log)
    requires HistoryInv(env, db, log) && db'.pages == db.pages && db'.revisions == db.revisions
    ensures HistoryInv(env, db', log)
  {
  }

  // ---------------------------------------------------------------- what the history says

  /** The latest revision carries the content of the last committed ingest, also when that content returns. */
  lemma LatestIsLastCommitted(env: Env, db: Db, log: Log, page: PageKey)
    requires Injective(env.sha) && HistoryInv(env, db, log) && page in db.pages
    ensures db.pages[page].latest.Some? && db.pages[page].latest.value in db.revisions
    ensures LastContent(log, page) == Some(db.revisions[db.pages[page].latest.value].content)
  {
    var content := LastContent(log, page).value;
    var key := KeyFor(env, page, content);
    assert Visit(page, content) in log;
    TextShaInjective(env.sha, content, db.revisions[key].content);
  }

  /**
   Where a content was first committed for a page, its revision points back to the revision of the content committed
   for the page just before, or to none if there was none.
   */
  lemma PredecessorIsPreviousContent(env: Env, db: Db, log: Log, n: nat)
    requires Injective(env.sha) && HistoryInv(env, db, log)
    requires n < |log| && log[n] !in log[..n]
    ensures exists k :: k in db.revisions && k.page == log[n].page && db.revisions[k].content == log[n].content
    ensures forall k :: k in db.revisions && k.page == log[n].page && db.revisions[k].content == log[n].content ==>
              match LastContent(log[..n], log[n].page)
              case None => db.revisions[k].predecessor == None
              case Some(content) =>
                && db.revisions[k].predecessor.Some? && db.revisions[k].predecessor.value in db.revisions
                && db.revisions[k].predecessor.value.page == log[n].page
                && db.revisions[db.revisions[k].predecessor.value].content == content
  {
    var v := log[n];
    FirstContentIsFirst(env, log, n);
    OneRevisionPerContent(env, db, log, v.page, v.content);
    var key := KeyFor(env, v.page, v.content);
    ContentAt(env, db, log, v);
    var before := LastContent(log[..n], v.page);
    if before.Some? {
      assert Visit(v.page, before.value) in log[..n];
      ContentAt(env, db, log, Visit(v.page, before.value));
    }
  }

  lemma FirstContentIsFirst(env: Env, log: Log, n: nat)
    requires Injective(env.sha) && n < |log| && log[n] !in log[..n]
    ensures IsFirst(env, log, n)
  {
    forall m | 0 <= m < n ensures KeyFor(env, log[m].page, log[m].content) != KeyFor(env, log[n].page, log[n].content) {
      assert log[m] in log[..n];
      if TextSha(env.sha, log[m].content) == TextSha(env.sha, log[n].content) {
        TextShaInjective(env.sha, log[m].content, log[n].content);
      }
    }
  }

  lemma ContentAt(env: Env, db: Db, log: Log, v: Visit)
    requires Injective(env.sha) && RevisionsMatchLog(env, db, log) && v in log
    ensures KeyFor(env, v.page, v.content) in db.revisions && db.revisions[KeyFor(env, v.page, v.content)].content == v.content
  {
    var key := KeyFor(env, v.page, v.content);
    TextShaInjective(env.sha, v.content, db.revisions[key].content);
  }

  /** Revisions and distinct committed contents of a page correspond one to one. */
  lemma OneRevisionPerContent(env: Env, db: Db, log: Log, page: PageKey, content: string)
    requires Injective(env.sha) && HistoryInv(env, db, log)
    ensures Visit(page, content) in log <==>
            exists k :: k in db.revisions && k.page == page && db.revisions[k].content == content
    ensures forall k, l | k in db.revisions && l in db.revisions ::
              k.page == l.page && db.revisions[k].content == db.revisions[l].content ==> k == l
  {
    if Visit(page, content) in log {
      var key := KeyFor(env, page, content);
      assert key in db.revisions;
      TextShaInjective(env.sha, content, db.revisions[key].content);
      assert key.page == page && db.revisions[key].content == content;
    }
  }

  /** An ingest reports a change exactly when its content is new to the page; the revision it names has that content. */
  lemma ChangedMeansNewContent(env: Env, db: Db, log: Log, req: Ingest, ids: Ids)
    requires Injective(env.sha) && HistoryInv(env, db, log)
    ensures var (db', receipt) := UpsertPage(env, db, req, ids);
            && (receipt.changed <==> VisitOf(req) !in log)
            && receipt.revision in db'.revisions && db'.revisions[receipt.revision].id == receipt.revisionId
            && db'.revisions[receipt.revision].content == VisitOf(req).content
            && db'.pages[PageKeyOf(req)].latest == Some(receipt.revision)
  {
    var v := VisitOf(req);
    var key := RevisionKeyOf(env, req);
    assert key == KeyFor(env, v.page, v.content);
    if key in db.revisions {
      TextShaInjective(env.sha, v.content, db.revisions[key].content);
    }
  }

  /** Every revision stands under the hash of its content. */
  ghost predicate ContentsHashed(env: Env, db: Db) {
    forall k :: k in db.revisions ==> k.sha == TextSha(env.sha, db.revisions[k].content)
  }

  lemma HistoryHashesContents(env: Env, db: Db, log: Log)
    requires RevisionsMatchLog(env, db, log)
    ensures ContentsHashed(env, db)
  {
  }
}
