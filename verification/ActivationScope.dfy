/**
 What the trigger counts and what the service lists. The trigger counts a rule whose pointer is on
 an enabled revision of that rule; the listing joins the pointer to any revision of the tenant that row
 level security shows. The two agree as long as pointers stay within their rule, and only the
 trigger's own events are counted.
 */
module ActivationScope {
  import opened Wrappers
  import opened Uuids
  import opened Activation
  import opened ActivationProof
  import opened ActivationRuns

  /** The join of `list_alert_rules` and `get_alert_rule` under both policies, with the revision enabled. */
  predicate Shown(ctx: Context, db: Tables, id: Uuid) {
    && id in db.rules && VisibleRule(ctx, db.rules[id])
    && db.rules[id].active.Some?
    && var v := db.rules[id].active.value;
       VisibleRevision(ctx, db, v) && db.revisions[v].tenant == db.rules[id].tenant && db.revisions[v].enabled
  }

  /** The rules of an owner that a request is shown as enabled and active. */
  function ShownSet(ctx: Context, db: Tables, owner: string): set<Uuid> {
    set id | id in db.rules && db.rules[id].owner == owner && Shown(ctx, db, id)
  }

  /** Requests of the owner and of administrators are shown the owner's rules. */
  predicate SeesOwner(ctx: Context, owner: string) {
    ctx.admin || (ctx.subject != "" && ctx.subject == owner)
  }

  /** No pointer of the owner is on an enabled revision of another rule that the request may see. */
  predicate OwnerAtHome(ctx: Context, db: Tables, owner: string) {
    forall id :: id in db.rules && db.rules[id].tenant == ctx.tenant && db.rules[id].owner == owner && db.rules[id].active.Some? ==>
      var v := db.rules[id].active.value;
      VisibleRevision(ctx, db, v) && db.revisions[v].enabled ==> db.revisions[v].rule == id
  }

  /**
   A request that may see the owner's rules is shown everything counted, and nothing else exactly when no pointer of
   the owner is on an enabled revision of another rule that it may see; any other request is shown nothing.
   */
  lemma ShownIsCountedIff(ctx: Context, db: Tables, owner: string)
    ensures SeesOwner(ctx, owner) ==> ActiveSet(db, ctx.tenant, owner) <= ShownSet(ctx, db, owner)
    ensures SeesOwner(ctx, owner) ==>
              (ShownSet(ctx, db, owner) == ActiveSet(db, ctx.tenant, owner) <==> OwnerAtHome(ctx, db, owner))
    ensures !SeesOwner(ctx, owner) ==> ShownSet(ctx, db, owner) == {}
  {
    if SeesOwner(ctx, owner) {
      if OwnerAtHome(ctx, db, owner) {
        assert ShownSet(ctx, db, owner) <= ActiveSet(db, ctx.tenant, owner);
      } else {
        var id :| id in db.rules && db.rules[id].tenant == ctx.tenant && db.rules[id].owner == owner && db.rules[id].active.Some?
                  && VisibleRevision(ctx, db, db.rules[id].active.value) && db.revisions[db.rules[id].active.value].enabled
                  && db.revisions[db.rules[id].active.value].rule != id;
        assert id in ShownSet(ctx, db, owner) && id !in ActiveSet(db, ctx.tenant, owner);
      }
    }
  }

  // ---------------------------------------------------------------- pointers that stay within their rule

  predicate AtHome(db: Tables) {
    forall id :: id in db.rules && db.rules[id].active.Some? && db.rules[id].active.value in db.revisions ==>
      db.revisions[db.rules[id].active.value].rule == id
  }

  /** When the trigger reads the revision the pointer moves to, the session sees it, and it is of the pointer's rule. */
  predicate MovesHome(s: State, t: SessionId, e: Event) {
    e.ReadRevision? && t in s.sessions && s.sessions[t].point.HasLock? ==>
      var p := s.sessions[t].point;
      p.revision in View(s, t).revisions && View(s, t).revisions[p.revision].rule == p.rule
  }

  predicate PointAtHome(s: State, t: SessionId)
    requires t in s.sessions
  {
    var p := s.sessions[t].point;
    p.Ready? || p.Failed? || p.WantsLock? || p.HasLock? || (p.revision in View(s, t).revisions && View(s, t).revisions[p.revision].rule == p.rule)
  }

  predicate SessionAtHome(s: State, t: SessionId)
    requires t in s.sessions
  {
    AtHome(View(s, t)) && PointAtHome(s, t)
  }

  predicate AllAtHome(s: State) {
    AtHome(s.committed) && forall t :: t in s.sessions ==> SessionAtHome(s, t)
  }

  /** Moving the one pointer of a view to a revision of its rule, or to none. */
  lemma PointerStaysHome(s: State, t: SessionId, id: Uuid, target: Option<Uuid>)
    requires t in s.sessions && id in View(s, t).rules && AtHome(View(s, t))
    requires target.Some? ==> target.value in View(s, t).revisions && View(s, t).revisions[target.value].rule == id
    ensures SessionAtHome(WritePointer(s, t, id, target), t)
  {
    var s' := WritePointer(s, t, id, target);
    assert View(s', t).revisions == View(s, t).revisions;
    assert View(s', t).rules == View(s, t).rules[id := View(s, t).rules[id].(active := target)];
  }

  /** A step of `t` that leaves its rows alone. */
  lemma SameViewAtHome(s: State, s': State, t: SessionId)
    requires t in s.sessions && t in s'.sessions && SessionAtHome(s, t)
    requires View(s', t) == View(s, t)
    requires var p := s'.sessions[t].point;
             p.Ready? || p.Failed? || p.WantsLock? || p.HasLock?
             || (p.revision in View(s, t).revisions && View(s, t).revisions[p.revision].rule == p.rule)
    ensures SessionAtHome(s', t)
  {
  }

  lemma NewRuleAtHome(db: Tables, id: Uuid, row: Rule)
    requires AtHome(db) && id !in db.rules && row.active.None?
    ensures AtHome(db.(rules := db.rules[id := row]))
  {
  }

  lemma NewRevisionAtHome(db: Tables, id: Uuid, row: Revision)
    requires AtHome(db) && PointersResolve(db) && id !in db.revisions
    ensures AtHome(db.(revisions := db.revisions[id := row]))
  {
  }

  lemma InsertRuleAtHome(hash: string -> int, s: State, t: SessionId, id: Uuid, tenant: Uuid, owner: string)
    requires t in s.sessions && SessionAtHome(s, t) && Next(hash, s, t, InsertRule(id, tenant, owner)).Some?
    ensures var s' := Next(hash, s, t, InsertRule(id, tenant, owner)).value; t in s'.sessions && SessionAtHome(s', t)
  {
    var s' := Next(hash, s, t, InsertRule(id, tenant, owner)).value;
    var row := Rule(tenant, owner, None);
    if s'.sessions[t].point == Failed {
      assert View(s', t) == View(s, t);
    } else {
      NewRuleAtHome(View(s, t), id, row);
      assert View(s', t) == View(s, t).(rules := View(s, t).rules[id := row]);
    }
  }

  lemma InsertRevisionAtHome(hash: string -> int, s: State, t: SessionId, id: Uuid, tenant: Uuid, rule: Uuid, enabled: bool)
    requires t in s.sessions && SessionAtHome(s, t) && PointersResolve(View(s, t))
    requires Next(hash, s, t, InsertRevision(id, tenant, rule, enabled)).Some?
    ensures var s' := Next(hash, s, t, InsertRevision(id, tenant, rule, enabled)).value; t in s'.sessions && SessionAtHome(s', t)
  {
    var s' := Next(hash, s, t, InsertRevision(id, tenant, rule, enabled)).value;
    var row := Revision(tenant, rule, enabled);
    if s'.sessions[t].point == Failed {
      assert View(s', t) == View(s, t);
    } else {
      NewRevisionAtHome(View(s, t), id, row);
      assert View(s', t) == View(s, t).(revisions := View(s, t).revisions[id := row]);
    }
  }

  lemma MoveAtHome(hash: string -> int, s: State, t: SessionId, id: Uuid, target: Option<Uuid>)
    requires t in s.sessions && SessionAtHome(s, t)
    requires Next(hash, s, t, MovePointer(id, target)).Some?
    ensures var s' := Next(hash, s, t, MovePointer(id, target)).value; t in s'.sessions && SessionAtHome(s', t)
  {
    var x := s.sessions[t];
    var s' := Next(hash, s, t, MovePointer(id, target)).value;
    if id in View(s, t).rules && VisibleRule(x.ctx, View(s, t).rules[id]) {
      var locked := At(s, t, x.(rowLocks := x.rowLocks + {id}));
      assert View(locked, t) == View(s, t);
      if target.None? {
        PointerStaysHome(locked, t, id, None);
      } else {
        SameViewAtHome(s, s', t);
      }
    }
  }

  lemma VerdictAtHome(hash: string -> int, s: State, t: SessionId, e: Event)
    requires t in s.sessions && SessionAtHome(s, t) && MovesHome(s, t, e) && (e.ReadRevision? || e.Decide?) && Next(hash, s, t, e).Some?
    ensures var s' := Next(hash, s, t, e).value; t in s'.sessions && SessionAtHome(s', t)
  {
    var x := s.sessions[t];
    var s' := Next(hash, s, t, e).value;
    if View(s', t) == View(s, t) {
      SameViewAtHome(s, s', t);
    } else {
      PointerStaysHome(s, t, x.point.rule, Some(x.point.revision));
    }
  }

  lemma PointAtHomeStep(hash: string -> int, s: State, t: SessionId, e: Event)
    requires t in s.sessions && SessionAtHome(s, t) && (e.TakeLock? || e.CountActive? || e.CheckReference?) && Next(hash, s, t, e).Some?
    ensures var s' := Next(hash, s, t, e).value; t in s'.sessions && SessionAtHome(s', t)
  {
    SameViewAtHome(s, Next(hash, s, t, e).value, t);
  }

  /** A step of a session that goes on keeps its own rows at home. */
  lemma OwnStepAtHome(hash: string -> int, s: State, t: SessionId, e: Event)
    requires t in s.sessions && SessionAtHome(s, t) && PointersResolve(View(s, t)) && MovesHome(s, t, e)
    requires Next(hash, s, t, e).Some? && !e.Commit? && !e.Rollback?
    ensures var s' := Next(hash, s, t, e).value; t in s'.sessions && SessionAtHome(s', t)
  {
    match e
    case InsertRule(id, tenant, owner) => InsertRuleAtHome(hash, s, t, id, tenant, owner);
    case InsertRevision(id, tenant, rule, enabled) => InsertRevisionAtHome(hash, s, t, id, tenant, rule, enabled);
    case MovePointer(id, target) => MoveAtHome(hash, s, t, id, target);
    case ReadRevision => VerdictAtHome(hash, s, t, e);
    case Decide => VerdictAtHome(hash, s, t, e);
    case TakeLock => PointAtHomeStep(hash, s, t, e);
    case CountActive => PointAtHomeStep(hash, s, t, e);
    case CheckReference => PointAtHomeStep(hash, s, t, e);
    case Begin(_) =>
  }

  /** What the invariant says of two sessions' rows. */
  lemma RowsExtend(hash: string -> int, s: State, t: SessionId, u: SessionId)
    requires Inv(hash, s) && t in s.sessions && u in s.sessions
    ensures PointersResolve(View(s, t)) && s.sessions[u].writes.revisions.Keys !! s.committed.revisions.Keys
    ensures t != u ==> s.sessions[t].writes.revisions.Keys !! s.sessions[u].writes.revisions.Keys
  {
    assert SessionFits(hash, s, t) && SessionFits(hash, s, u);
  }

  /** Rows laid over rows that are at home, with revisions of their own. */
  lemma OverlayAtHome(base: Tables, over: Tables, writes: Tables, db: Tables)
    requires AtHome(over) && PointersResolve(over) && AtHome(base) && PointersResolve(base)
    requires forall id :: id in writes.rules ==> id in over.rules && over.rules[id] == writes.rules[id]
    requires forall v :: v in over.revisions ==> v in db.revisions && db.revisions[v] == over.revisions[v]
    requires forall v :: v in base.revisions ==> v in db.revisions && db.revisions[v] == base.revisions[v]
    requires db.rules == base.rules + writes.rules
    ensures AtHome(db)
  {
  }

  /** When `t` commits, the rows another session sees are still at home. */
  lemma CommitStaysHome(hash: string -> int, s: State, t: SessionId, u: SessionId)
    requires Inv(hash, s) && AllAtHome(s) && t in s.sessions && u in s.sessions && t != u
    ensures u in End(s, t, View(s, t)).sessions && SessionAtHome(End(s, t, View(s, t)), u)
  {
    ViewAfterCommit(s, t, u);
    RowsExtend(hash, s, t, u);
    RowsExtend(hash, s, u, u);
    assert SessionAtHome(s, t) && SessionAtHome(s, u);
    OverlayAtHome(View(s, t), View(s, u), s.sessions[u].writes, View(End(s, t, View(s, t)), u));
  }

  lemma OthersUntouched(hash: string -> int, s: State, t: SessionId, e: Event, u: SessionId)
    requires Next(hash, s, t, e).Some? && u in s.sessions && u != t && !e.Commit?
    ensures var s' := Next(hash, s, t, e).value;
            u in s'.sessions && s'.sessions[u] == s.sessions[u] && s'.committed == s.committed
  {
  }

  lemma OthersStayHome(hash: string -> int, s: State, t: SessionId, e: Event, u: SessionId)
    requires Inv(hash, s) && AllAtHome(s) && Next(hash, s, t, e).Some? && u in s.sessions && u != t
    ensures u in Next(hash, s, t, e).value.sessions && SessionAtHome(Next(hash, s, t, e).value, u)
  {
    if e.Commit? {
      CommitStaysHome(hash, s, t, u);
    } else {
      OthersUntouched(hash, s, t, e, u);
      assert SessionAtHome(s, u);
    }
  }

  lemma SessionsAfter(hash: string -> int, s: State, t: SessionId, e: Event)
    requires Next(hash, s, t, e).Some?
    ensures var s' := Next(hash, s, t, e).value;
            && (forall u :: u in s'.sessions && u != t ==> u in s.sessions)
            && (t in s'.sessions ==> !e.Commit? && !e.Rollback?)
            && (t !in s.sessions ==> e.Begin? && t in s'.sessions && View(s', t) == s.committed && s'.sessions[t].point.Ready?)
            && s'.committed == (if e.Commit? then View(s, t) else s.committed)
  {
  }

  /** Every statement keeps pointers within their rules if pointer moves do. */
  lemma NextStaysHome(hash: string -> int, s: State, t: SessionId, e: Event)
    requires Inv(hash, s) && AllAtHome(s) && MovesHome(s, t, e) && Next(hash, s, t, e).Some?
    ensures AllAtHome(Next(hash, s, t, e).value)
  {
    var s' := Next(hash, s, t, e).value;
    SessionsAfter(hash, s, t, e);
    forall u | u in s'.sessions ensures SessionAtHome(s', u) {
      if u != t {
        OthersStayHome(hash, s, t, e, u);
      } else if t in s.sessions {
        RowsExtend(hash, s, t, t);
        OwnStepAtHome(hash, s, t, e);
      }
    }
    if e.Commit? {
      assert SessionAtHome(s, t);
    }
  }

  // ---------------------------------------------------------------- the limit on what is shown

  /** Every trigger of the run reads a revision of its rule that its session sees by then. */
  predicate TargetsOwn(hash: string -> int, s: State, schedule: Schedule)
    decreases |schedule|
  {
    schedule == [] ||
    (MovesHome(s, schedule[0].0, schedule[0].1) &&
     match Next(hash, s, schedule[0].0, schedule[0].1)
     case None => true
     case Some(s') => TargetsOwn(hash, s', schedule[1..]))
  }

  lemma {:induction false} OwnTargetsSeen(hash: string -> int, s: State, schedule: Schedule)
    requires TargetsOwn(hash, s, schedule)
    ensures TargetsSeen(hash, s, schedule)
    decreases |schedule|
  {
    if schedule != [] {
      match Next(hash, s, schedule[0].0, schedule[0].1)
      case None =>
      case Some(s') => OwnTargetsSeen(hash, s', schedule[1..]);
    }
  }

  lemma {:induction false} RunStaysHome(hash: string -> int, s: State, schedule: Schedule)
    requires Inv(hash, s) && AllAtHome(s) && TargetsOwn(hash, s, schedule) && Run(hash, s, schedule).Some?
    ensures Inv(hash, Run(hash, s, schedule).value) && AllAtHome(Run(hash, s, schedule).value)
    decreases |schedule|
  {
    if schedule != [] {
      NextKeepsInv(hash, s, schedule[0].0, schedule[0].1);
      NextStaysHome(hash, s, schedule[0].0, schedule[0].1);
      RunStaysHome(hash, Next(hash, s, schedule[0].0, schedule[0].1).value, schedule[1..]);
    }
  }

  /** If pointer moves stay within their rules, no request is shown more than ten enabled active rules of an owner. */
  lemma ShownLimit(hash: string -> int, schedule: Schedule, ctx: Context, owner: string)
    requires Run(hash, EMPTY, schedule).Some? && TargetsOwn(hash, EMPTY, schedule)
    ensures var db := Run(hash, EMPTY, schedule).value.committed;
            && |ShownSet(ctx, db, owner)| <= MAX_ACTIVE
            && (SeesOwner(ctx, owner) ==> ShownSet(ctx, db, owner) == ActiveSet(db, ctx.tenant, owner))
  {
    EmptyFits(hash);
    RunStaysHome(hash, EMPTY, schedule);
    ShownIsCountedIff(ctx, Run(hash, EMPTY, schedule).value.committed, owner);
  }

  // ---------------------------------------------------------------- rule creation

  /** The revisions each open transaction has inserted, with their rules, read off the schedule alone. */
  type Drafts = map<SessionId, map<Uuid, Uuid>>

  function Drafted(own: Drafts, t: SessionId, e: Event): Drafts {
    match e
    case Begin(_) => own[t := map[]]
    case InsertRevision(id, _, rule, _) =>
      if t in own then
        var drafts: map<Uuid, Uuid> := own[t][id := rule];
        own[t := drafts]
      else own
    case _ => own
  }

  /** `create_alert_rule` activates the revision it inserted for the same rule; so does every session here. */
  predicate ActivatesOwnRule(own: Drafts, schedule: Schedule)
    decreases |schedule|
  {
    schedule == [] ||
    (var (t, e) := schedule[0];
     MovesToDraft(own, t, e) && ActivatesOwnRule(Drafted(own, t, e), schedule[1..]))
  }

  predicate MovesToDraft(own: Drafts, t: SessionId, e: Event) {
    e.MovePointer? && e.target.Some? ==> t in own && e.target.value in own[t] && own[t][e.target.value] == e.rule
  }

  predicate DraftsFit(own: Drafts, s: State) {
    forall t :: t in s.sessions ==> t in own && OwnDrafts(own[t], s.sessions[t])
  }

  predicate OwnDrafts(drafts: map<Uuid, Uuid>, x: Session) {
    x.point != Failed ==>
      && (forall v :: v in drafts ==> v in x.writes.revisions && x.writes.revisions[v].rule == drafts[v])
      && (x.point.WantsLock? || x.point.HasLock? ==> x.point.revision in drafts && drafts[x.point.revision] == x.point.rule)
  }

  lemma OwnDraftsFit(hash: string -> int, own: Drafts, s: State, t: SessionId, e: Event)
    requires t in s.sessions ==> t in own && OwnDrafts(own[t], s.sessions[t])
    requires MovesToDraft(own, t, e) && Next(hash, s, t, e).Some? && t in Next(hash, s, t, e).value.sessions
    ensures t in Drafted(own, t, e) && OwnDrafts(Drafted(own, t, e)[t], Next(hash, s, t, e).value.sessions[t])
  {
  }

  lemma DraftsStayFit(hash: string -> int, own: Drafts, s: State, t: SessionId, e: Event)
    requires DraftsFit(own, s) && MovesToDraft(own, t, e) && Next(hash, s, t, e).Some?
    ensures DraftsFit(Drafted(own, t, e), Next(hash, s, t, e).value)
  {
    NextFrame(hash, s, t, e);
    if t in Next(hash, s, t, e).value.sessions {
      OwnDraftsFit(hash, own, s, t, e);
    }
    assert forall u :: u != t && u in own ==> u in Drafted(own, t, e) && Drafted(own, t, e)[u] == own[u];
  }

  lemma {:induction false} DraftsAreOwn(hash: string -> int, own: Drafts, s: State, schedule: Schedule)
    requires DraftsFit(own, s) && ActivatesOwnRule(own, schedule) && Run(hash, s, schedule).Some?
    ensures TargetsOwn(hash, s, schedule)
    decreases |schedule|
  {
    if schedule != [] {
      var (t, e) := schedule[0];
      DraftsStayFit(hash, own, s, t, e);
      DraftsAreOwn(hash, Drafted(own, t, e), Next(hash, s, t, e).value, schedule[1..]);
    }
  }

  /** Rule creation, in any number of interleaved transactions, never shows a request more than ten of an owner's. */
  lemma CreationShownLimit(hash: string -> int, schedule: Schedule, ctx: Context, owner: string)
    requires Run(hash, EMPTY, schedule).Some? && ActivatesOwnRule(map[], schedule)
    ensures |ShownSet(ctx, Run(hash, EMPTY, schedule).value.committed, owner)| <= MAX_ACTIVE
  {
    DraftsAreOwn(hash, map[], EMPTY, schedule);
    ShownLimit(hash, schedule, ctx, owner);
  }

  /** Statements that move no pointer ask for nothing. */
  lemma {:induction false} NoMoves(own: Drafts, schedule: Schedule)
    requires forall x :: x in schedule ==> !x.1.MovePointer?
    ensures ActivatesOwnRule(own, schedule)
    decreases |schedule|
  {
    if schedule != [] {
      assert schedule[0] in schedule;
      NoMoves(Drafted(own, schedule[0].0, schedule[0].1), schedule[1..]);
    }
  }

  lemma Cons(own: Drafts, t: SessionId, e: Event, rest: Schedule)
    requires MovesToDraft(own, t, e)
    requires ActivatesOwnRule(Drafted(own, t, e), rest)
    ensures ActivatesOwnRule(own, [(t, e)] + rest)
  {
    assert ([(t, e)] + rest)[1..] == rest;
  }

  lemma ScriptFrom(t: SessionId, c: Creation, rest: Schedule)
    requires forall x :: x in rest ==> !x.1.MovePointer?
    ensures ActivatesOwnRule(map[], [(t, Begin(Context(c.tenant, c.subject, false)))]
              + ([(t, InsertRule(c.rule, c.tenant, c.subject))]
              + ([(t, InsertRevision(c.revision, c.tenant, c.rule, c.enabled))]
              + ([(t, MovePointer(c.rule, Some(c.revision)))] + rest))))
  {
    var started: Drafts := map[t := map[]];
    var drafts: Drafts := map[t := map[c.revision := c.rule]];
    NoMoves(drafts, rest);
    var moved := [(t, MovePointer(c.rule, Some(c.revision)))] + rest;
    Cons(drafts, t, MovePointer(c.rule, Some(c.revision)), rest);
    assert Drafted(started, t, InsertRevision(c.revision, c.tenant, c.rule, c.enabled)) == drafts;
    Cons(started, t, InsertRevision(c.revision, c.tenant, c.rule, c.enabled), moved);
    var inserted := [(t, InsertRevision(c.revision, c.tenant, c.rule, c.enabled))] + moved;
    Cons(started, t, InsertRule(c.rule, c.tenant, c.subject), inserted);
    Cons(map[], t, Begin(Context(c.tenant, c.subject, false)), [(t, InsertRule(c.rule, c.tenant, c.subject))] + inserted);
  }

  lemma Regroup<T>(b: T, i: T, v: T, m: T, l: T, r: T, verdict: seq<T>, c: T, k: T)
    ensures [b, i] + [v] + [m] + [l] + [r] + verdict + [c] + [k]
            == [b] + ([i] + ([v] + ([m] + ([l] + [r] + verdict + [c] + [k]))))
  {
  }

  lemma ScriptActivatesOwnRule(t: SessionId, c: Creation)
    ensures ActivatesOwnRule(map[], CreateScript(t, c))
  {
    var verdict: Schedule := if c.enabled then [(t, CountActive)] + [(t, Decide)] else [];
    ScriptFrom(t, c, [(t, TakeLock)] + [(t, ReadRevision)] + verdict + [(t, CheckReference)] + [(t, Commit)]);
    Regroup((t, Begin(Context(c.tenant, c.subject, false))), (t, InsertRule(c.rule, c.tenant, c.subject)),
      (t, InsertRevision(c.revision, c.tenant, c.rule, c.enabled)), (t, MovePointer(c.rule, Some(c.revision))),
      (t, TakeLock), (t, ReadRevision), verdict, (t, CheckReference), (t, Commit));
  }

  lemma {:induction false} TargetsOwnAppend(hash: string -> int, s: State, a: Schedule, b: Schedule)
    requires Run(hash, s, a).Some? && TargetsOwn(hash, s, a) && TargetsOwn(hash, Run(hash, s, a).value, b)
    ensures TargetsOwn(hash, s, a + b)
    decreases |a|
  {
    if a == [] {
      assert a + b == b;
    } else {
      assert (a + b)[0] == a[0] && (a + b)[1..] == a[1..] + b;
      TargetsOwnAppend(hash, Next(hash, s, a[0].0, a[0].1).value, a[1..], b);
    }
  }

  /** A creation after a run that keeps to its own targets. */
  lemma CreateAfter(hash: string -> int, before: Schedule, s: State, t: SessionId, c: Creation)
    requires Run(hash, EMPTY, before) == Some(s) && TargetsOwn(hash, EMPTY, before) && Idle(s)
    requires Run(hash, s, CreateScript(t, c)).Some?
    ensures Run(hash, EMPTY, before + CreateScript(t, c)) == Run(hash, s, CreateScript(t, c))
    ensures TargetsOwn(hash, EMPTY, before + CreateScript(t, c))
  {
    ScriptActivatesOwnRule(t, c);
    DraftsAreOwn(hash, map[], s, CreateScript(t, c));
    RunAppend(hash, EMPTY, before, CreateScript(t, c));
    TargetsOwnAppend(hash, EMPTY, before, CreateScript(t, c));
  }

  predicate AllOwnedBy(db: Tables, owner: string) {
    forall id :: id in db.rules ==> db.rules[id].owner == owner
  }

  /** One more creation for the same owner. */
  lemma CreationMovesHome(hash: string -> int, before: Schedule, s: State, c: Creation)
    requires Run(hash, EMPTY, before) == Some(s) && TargetsOwn(hash, EMPTY, before) && AllOwnedBy(s.committed, c.subject)
    requires Idle(s) && CanRequest(s, c) && PointersResolve(s.committed)
    requires |ActiveSet(s.committed, c.tenant, c.subject)| < MAX_ACTIVE
    ensures var after := before + CreateScript(0, c);
            && Run(hash, EMPTY, after) == Some(State(Created(s.committed, c), map[], map[])) && TargetsOwn(hash, EMPTY, after)
            && AllOwnedBy(Created(s.committed, c), c.subject)
  {
    CreationSucceedsBelowLimit(hash, s, 0, c);
    CreateAfter(hash, before, s, 0, c);
  }

  lemma {:induction false} CreationsMoveHome(hash: string -> int, tenant: Uuid, owner: string, n: nat)
    requires 1 <= |owner| <= 256 && n <= MAX_ACTIVE
    ensures Run(hash, EMPTY, Creations(tenant, owner, n)).Some? && TargetsOwn(hash, EMPTY, Creations(tenant, owner, n))
    ensures AllOwnedBy(Run(hash, EMPTY, Creations(tenant, owner, n)).value.committed, owner)
  {
    if n == 0 {
      assert Creations(tenant, owner, n) == [];
    } else {
      var before, c := Creations(tenant, owner, n - 1), CreationOf(tenant, owner, n - 1);
      CreationsReach(hash, tenant, owner, n - 1);
      CreationsMoveHome(hash, tenant, owner, n - 1);
      CreationMovesHome(hash, before, Run(hash, EMPTY, before).value, c);
    }
  }

  /** The owner's own requests. */
  function OwnerContext(tenant: Uuid, owner: string): Context {
    Context(tenant, owner, false)
  }

  /** A run that keeps to its own targets and leaves its one owner with ten active rules. */
  lemma FullOwner(hash: string -> int, tenant: Uuid, owner: string, n: nat) returns (before: Schedule, s: State)
    requires 1 <= |owner| <= 256 && n == MAX_ACTIVE
    ensures Run(hash, EMPTY, before) == Some(s) && TargetsOwn(hash, EMPTY, before) && AllOwnedBy(s.committed, owner)
    ensures Holding(s, tenant, owner, n)
  {
    before := Creations(tenant, owner, n);
    CreationsReach(hash, tenant, owner, n);
    CreationsMoveHome(hash, tenant, owner, n);
    s := Run(hash, EMPTY, before).value;
  }

  // ---------------------------------------------------------------- a pointer to another rule's revision

  /** The rule's pointer is on no enabled revision. */
  predicate Dormant(db: Tables, rule: Uuid)
    requires rule in db.rules
  {
    var active := db.rules[rule].active;
    active.None? || active.value !in db.revisions || !db.revisions[active.value].enabled
  }

  /** The session may move the pointer of the dormant rule; the revision is an enabled one of another rule of the tenant. */
  predicate CanBorrow(ctx: Context, db: Tables, rule: Uuid, revision: Uuid) {
    && rule in db.rules && VisibleRule(ctx, db.rules[rule]) && Dormant(db, rule)
    && revision in db.revisions && db.revisions[revision].tenant == ctx.tenant
    && db.revisions[revision].enabled && db.revisions[revision].rule != rule
  }

  function BorrowScript(t: SessionId, ctx: Context, rule: Uuid, revision: Uuid): Schedule {
    [] + [(t, Begin(ctx))] + [(t, MovePointer(rule, Some(revision)))] + [(t, TakeLock)]
    + [(t, ReadRevision)] + [(t, CheckReference)] + [(t, Commit)]
  }

  function Borrowed(db: Tables, rule: Uuid, revision: Uuid): Tables
    requires rule in db.rules
  {
    db.(rules := db.rules[rule := db.rules[rule].(active := Some(revision))])
  }

  /** One session over the committed tables, before and after it has written the pointer. */
  function Borrower(db: Tables, t: SessionId, ctx: Context, rows: map<Uuid, Rule>, held: set<Uuid>, point: Point,
                    locks: map<int, SessionId>): State {
    State(db, map[t := Session(ctx, Tables(rows, map[]), held, point)], locks)
  }

  lemma BorrowOpens(hash: string -> int, db: Tables, t: SessionId, ctx: Context, rule: Uuid, revision: Uuid)
    requires CanBorrow(ctx, db, rule, revision)
    ensures var s1 := Borrower(db, t, ctx, map[], {}, Ready, map[]);
            && Next(hash, State(db, map[], map[]), t, Begin(ctx)) == Some(s1)
            && Next(hash, s1, t, MovePointer(rule, Some(revision)))
               == Some(Borrower(db, t, ctx, map[], {rule}, WantsLock(rule, revision), map[]))
  {
    var s1 := Borrower(db, t, ctx, map[], {}, Ready, map[]);
    var s2 := Borrower(db, t, ctx, map[], {rule}, WantsLock(rule, revision), map[]);
    assert View(s1, t) == db;
    assert {} + {rule} == {rule};
    assert s2.sessions == s1.sessions[t := s2.sessions[t]];
    var locked := At(s1, t, s1.sessions[t].(rowLocks := {rule}));
    assert locked.sessions[t := s2.sessions[t]] == s2.sessions;
  }

  lemma BorrowReads(hash: string -> int, db: Tables, t: SessionId, ctx: Context, rule: Uuid, revision: Uuid, key: int)
    requires CanBorrow(ctx, db, rule, revision) && key == LockKey(hash, db.rules[rule].tenant, db.rules[rule].owner)
    ensures var s2 := Borrower(db, t, ctx, map[], {rule}, WantsLock(rule, revision), map[]);
            var s3 := Borrower(db, t, ctx, map[], {rule}, HasLock(rule, revision), map[key := t]);
            var rows := map[rule := db.rules[rule].(active := Some(revision))];
            && Next(hash, s2, t, TakeLock) == Some(s3) && SeesTarget(s3, t, ReadRevision)
            && Next(hash, s3, t, ReadRevision) == Some(Borrower(db, t, ctx, rows, {rule}, MustResolve(rule, revision), map[key := t]))
  {
    var s2 := Borrower(db, t, ctx, map[], {rule}, WantsLock(rule, revision), map[]);
    var s3 := Borrower(db, t, ctx, map[], {rule}, HasLock(rule, revision), map[key := t]);
    var rows := map[rule := db.rules[rule].(active := Some(revision))];
    var s4 := Borrower(db, t, ctx, rows, {rule}, MustResolve(rule, revision), map[key := t]);
    assert View(s2, t) == db && View(s3, t) == db;
    assert s3.sessions == s2.sessions[t := s3.sessions[t]];
    var none: map<Uuid, Rule> := map[];
    assert none[rule := rows[rule]] == rows;
    assert s4.sessions == s3.sessions[t := s4.sessions[t]];
  }

  lemma BorrowEnds(hash: string -> int, db: Tables, t: SessionId, ctx: Context, rule: Uuid, revision: Uuid, key: int)
    requires CanBorrow(ctx, db, rule, revision)
    ensures var rows := map[rule := db.rules[rule].(active := Some(revision))];
            var s4 := Borrower(db, t, ctx, rows, {rule}, MustResolve(rule, revision), map[key := t]);
            var s5 := Borrower(db, t, ctx, rows, {rule}, Ready, map[key := t]);
            && Next(hash, s4, t, CheckReference) == Some(s5)
            && Next(hash, s5, t, Commit) == Some(State(Borrowed(db, rule, revision), map[], map[]))
  {
    var rows := map[rule := db.rules[rule].(active := Some(revision))];
    var s4 := Borrower(db, t, ctx, rows, {rule}, MustResolve(rule, revision), map[key := t]);
    var s5 := Borrower(db, t, ctx, rows, {rule}, Ready, map[key := t]);
    assert View(s4, t).rules == db.rules[rule := rows[rule]] && View(s4, t).revisions == db.revisions;
    assert View(s5, t) == Borrowed(db, rule, revision);
    assert s5.sessions == s4.sessions[t := s5.sessions[t]];
    assert s5.sessions - {t} == map[];
  }

  /** The reader may see the rule and the one whose revision it borrows. */
  predicate SeesBoth(reader: Context, db: Tables, rule: Uuid, revision: Uuid)
    requires rule in db.rules
  {
    VisibleRule(reader, db.rules[rule]) && VisibleRevision(reader, db, revision)
  }

  lemma BorrowedIsShown(ctx: Context, reader: Context, db: Tables, rule: Uuid, revision: Uuid)
    requires CanBorrow(ctx, db, rule, revision)
    ensures var db' := Borrowed(db, rule, revision);
            var owner := db.rules[rule].owner;
            && ActiveSet(db', ctx.tenant, owner) == ActiveSet(db, ctx.tenant, owner)
            && rule !in ShownSet(reader, db, owner)
            && ShownSet(reader, db', owner) == ShownSet(reader, db, owner) + (if SeesBoth(reader, db, rule, revision) then {rule} else {})
  {
    var db' := Borrowed(db, rule, revision);
    assert forall v :: VisibleRevision(reader, db', v) <==> VisibleRevision(reader, db, v);
    forall id | id != rule ensures (Shown(reader, db', id) <==> Shown(reader, db, id)) && (EnabledActive(db', id) <==> EnabledActive(db, id)) {
    }
    assert !EnabledActive(db', rule) && !EnabledActive(db, rule) && !Shown(reader, db, rule);
    assert Shown(reader, db', rule) <==> SeesBoth(reader, db, rule, revision);
  }

  /**
   From any idle state a dormant rule can be moved to an enabled revision of another rule of the tenant: the trigger
   counts nothing, and the rule is then shown to exactly those requests that may see both rules.
   */
  lemma BorrowedTargetIsNotCounted(hash: string -> int, s: State, t: SessionId, ctx: Context, reader: Context, rule: Uuid, revision: Uuid)
    requires Idle(s) && CanBorrow(ctx, s.committed, rule, revision)
    ensures var script := BorrowScript(t, ctx, rule, revision);
            && Run(hash, s, script) == Some(State(Borrowed(s.committed, rule, revision), map[], map[]))
            && TargetsSeen(hash, s, script)
    ensures var db, db' := s.committed, Borrowed(s.committed, rule, revision);
            var owner := db.rules[rule].owner;
            && ActiveSet(db', ctx.tenant, owner) == ActiveSet(db, ctx.tenant, owner)
            && rule !in ShownSet(reader, db, owner)
            && ShownSet(reader, db', owner) == ShownSet(reader, db, owner) + (if SeesBoth(reader, db, rule, revision) then {rule} else {})
  {
    var db := s.committed;
    var key := LockKey(hash, db.rules[rule].tenant, db.rules[rule].owner);
    assert s == State(db, map[], map[]);
    BorrowOpens(hash, db, t, ctx, rule, revision);
    BorrowReads(hash, db, t, ctx, rule, revision, key);
    BorrowEnds(hash, db, t, ctx, rule, revision, key);
    BorrowedIsShown(ctx, reader, db, rule, revision);
    var p1 := [] + [(t, Begin(ctx))];
    var p2 := p1 + [(t, MovePointer(rule, Some(revision)))];
    var p3 := p2 + [(t, TakeLock)];
    var p4 := p3 + [(t, ReadRevision)];
    var p5 := p4 + [(t, CheckReference)];
    OneMoreSeen(hash, s, [], s, t, Begin(ctx));
    OneMoreSeen(hash, s, p1, Run(hash, s, p1).value, t, MovePointer(rule, Some(revision)));
    OneMoreSeen(hash, s, p2, Run(hash, s, p2).value, t, TakeLock);
    OneMoreSeen(hash, s, p3, Run(hash, s, p3).value, t, ReadRevision);
    OneMoreSeen(hash, s, p4, Run(hash, s, p4).value, t, CheckReference);
    OneMoreSeen(hash, s, p5, Run(hash, s, p5).value, t, Commit);
  }

  lemma OneMoreSeen(hash: string -> int, s: State, a: Schedule, s': State, t: SessionId, e: Event)
    requires Run(hash, s, a) == Some(s') && TargetsSeen(hash, s, a) && SeesTarget(s', t, e) && Next(hash, s', t, e).Some?
    ensures Run(hash, s, a + [(t, e)]) == Next(hash, s', t, e) && TargetsSeen(hash, s, a + [(t, e)])
  {
    RunOneMore(hash, s, a, t, e);
    assert [(t, e)][1..] == [];
    assert TargetsSeen(hash, s', [(t, e)]);
    TargetsSeenAppend(hash, s, a, [(t, e)]);
  }

  /** A disabled draft changes nothing that is counted. */
  lemma DraftIsNotCounted(db: Tables, draft: Creation)
    requires PointersResolve(db) && draft.rule !in db.rules && draft.revision !in db.revisions && !draft.enabled
    ensures var db' := Created(db, draft);
            && ActiveSet(db', draft.tenant, draft.subject) == ActiveSet(db, draft.tenant, draft.subject)
            && draft.rule in db'.rules && Dormant(db', draft.rule)
  {
    var db' := Created(db, draft);
    forall id | id != draft.rule ensures EnabledActive(db', id) <==> EnabledActive(db, id) {
    }
  }

  /** The run: fill up the owner, draft a disabled rule, point it to a revision of another rule of the owner. */
  lemma BorrowAfter(hash: string -> int, before: Schedule, s: State, draft: Creation) returns (schedule: Schedule, db: Tables)
    requires Run(hash, EMPTY, before) == Some(s) && TargetsOwn(hash, EMPTY, before) && Idle(s) && PointersResolve(s.committed)
    requires CanRequest(s, draft) && !draft.enabled && ActiveSet(s.committed, draft.tenant, draft.subject) != {}
    ensures Run(hash, EMPTY, schedule) == Some(State(db, map[], map[])) && TargetsSeen(hash, EMPTY, schedule)
    ensures ActiveSet(db, draft.tenant, draft.subject) == ActiveSet(s.committed, draft.tenant, draft.subject)
    ensures draft.rule !in ActiveSet(db, draft.tenant, draft.subject)
    ensures ShownSet(OwnerContext(draft.tenant, draft.subject), db, draft.subject)
            == ActiveSet(db, draft.tenant, draft.subject) + {draft.rule}
  {
    var ctx := OwnerContext(draft.tenant, draft.subject);
    CreationSucceedsBelowLimit(hash, s, 0, draft);
    CreateAfter(hash, before, s, 0, draft);
    DraftIsNotCounted(s.committed, draft);
    var drafted := before + CreateScript(0, draft);
    var s' := State(Created(s.committed, draft), map[], map[]);
    OwnTargetsSeen(hash, EMPTY, drafted);
    ShownLimit(hash, drafted, ctx, draft.subject);
    var id :| id in ActiveSet(s'.committed, draft.tenant, draft.subject);
    var lent := s'.committed.rules[id].active.value;
    BorrowedTargetIsNotCounted(hash, s', 0, ctx, ctx, draft.rule, lent);
    assert SeesBoth(ctx, s'.committed, draft.rule, lent);
    var script := BorrowScript(0, ctx, draft.rule, lent);
    RunAppend(hash, EMPTY, drafted, script);
    TargetsSeenAppend(hash, EMPTY, drafted, script);
    schedule, db := drafted + script, Borrowed(s'.committed, draft.rule, lent);
  }

  /** Concretely: a run in which every trigger sees its target ends with eleven rules shown to their owner as enabled and active. */
  lemma ShownLimitNeedsOwnTargets(hash: string -> int, tenant: Uuid, owner: string) returns (schedule: Schedule)
    requires 1 <= |owner| <= 256
    ensures Run(hash, EMPTY, schedule).Some? && TargetsSeen(hash, EMPTY, schedule) && !TargetsOwn(hash, EMPTY, schedule)
    ensures var db := Run(hash, EMPTY, schedule).value.committed;
            |ShownSet(OwnerContext(tenant, owner), db, owner)| == 11 && |ActiveSet(db, tenant, owner)| == 10
  {
    var n: nat :| n == MAX_ACTIVE;
    var before, s := FullOwner(hash, tenant, owner, n);
    assert ActiveSet(s.committed, tenant, owner) != {};
    var db;
    schedule, db := BorrowAfter(hash, before, s, Creation(tenant, owner, 100, 101, false));
    if TargetsOwn(hash, EMPTY, schedule) {
      ShownLimit(hash, schedule, OwnerContext(tenant, owner), owner);
      assert false;
    }
  }

  // ---------------------------------------------------------------- a change of owner

  /**
   `UPDATE eal_alert_rules SET owner_subject`, as one statement on committed tables: both policies apply,
   and the limit trigger, which watches the active pointer only, does not fire.
   */
  function ChangeOwner(ctx: Context, db: Tables, id: Uuid, owner: string): Option<Tables> {
    if id !in db.rules || !VisibleRule(ctx, db.rules[id]) then Some(db)
    else
      var row := db.rules[id].(owner := owner);
      if VisibleRule(ctx, row) && 1 <= |owner| <= 256 then Some(db.(rules := db.rules[id := row])) else None
  }

  /** Only an administrator of the tenant can give a rule to another owner; the rule then counts for that owner unchecked. */
  lemma OwnerChangeIsNotCounted(ctx: Context, db: Tables, id: Uuid, owner: string)
    requires id in db.rules && owner != db.rules[id].owner && 1 <= |owner| <= 256
    ensures var r := ChangeOwner(ctx, db, id, owner);
            (r.Some? && r.value != db) <==> ctx.admin && ctx.tenant == db.rules[id].tenant
    ensures ctx.admin && ctx.tenant == db.rules[id].tenant && EnabledActive(db, id) ==>
              var r := ChangeOwner(ctx, db, id, owner);
              && r.Some? && id !in ActiveSet(db, ctx.tenant, owner)
              && ActiveSet(r.value, ctx.tenant, owner) == ActiveSet(db, ctx.tenant, owner) + {id}
  {
    var db' := db.(rules := db.rules[id := db.rules[id].(owner := owner)]);
    assert db'.rules[id] != db.rules[id];
    forall other ensures EnabledActive(db', other) <==> EnabledActive(db, other) {
    }
  }

  /** Another owner's creation leaves this owner's rules as they are. */
  lemma OtherOwnersRule(db: Tables, c: Creation, owner: string)
    requires PointersResolve(db) && c.rule !in db.rules && c.revision !in db.revisions && c.subject != owner && c.enabled
    ensures var db' := Created(db, c);
            ActiveSet(db', c.tenant, owner) == ActiveSet(db, c.tenant, owner) && c.rule in db'.rules && EnabledActive(db', c.rule)
  {
    var db' := Created(db, c);
    forall id | id != c.rule ensures EnabledActive(db', id) <==> EnabledActive(db, id) {
    }
  }

  /** Concretely: an owner with ten active rules is given an eleventh. */
  lemma LimitNeedsFixedOwners(hash: string -> int, tenant: Uuid, owner: string, other: string)
    returns (schedule: Schedule, ctx: Context, rule: Uuid, db': Tables)
    requires 1 <= |owner| <= 256 && 1 <= |other| <= 256 && owner != other
    ensures Run(hash, EMPTY, schedule).Some? && TargetsOwn(hash, EMPTY, schedule)
    ensures ChangeOwner(ctx, Run(hash, EMPTY, schedule).value.committed, rule, owner) == Some(db')
    ensures |ActiveSet(db', tenant, owner)| == 11
  {
    var n: nat :| n == MAX_ACTIVE;
    var before, s := FullOwner(hash, tenant, owner, n);
    var c := Creation(tenant, other, 100, 101, true);
    assert ActiveSet(s.committed, tenant, other) == {};
    CreationSucceedsBelowLimit(hash, s, 0, c);
    CreateAfter(hash, before, s, 0, c);
    OtherOwnersRule(s.committed, c, owner);
    schedule, ctx, rule := before + CreateScript(0, c), Context(tenant, "", true), 100;
    OwnerChangeIsNotCounted(ctx, Created(s.committed, c), rule, owner);
    db' := ChangeOwner(ctx, Created(s.committed, c), rule, owner).value;
  }
}
