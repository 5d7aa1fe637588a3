/**
 The rule activation protocol: sessions that insert rules and revisions and move the
 active pointer of a rule, interleaved statement by statement under READ COMMITTED, and
 the trigger that keeps an owner at ten enabled active rules.

 A session sees the committed tables overlaid with its own uncommitted rows, each
 statement with a fresh snapshot. The trigger is split at the points where another
 session may commit: taking the advisory lock, reading the new revision, counting,
 deciding, and the foreign key check that follows it.
 */
module Activation {
  import opened Wrappers
  import opened Uuids

  const MAX_ACTIVE: nat := 10

  // ---------------------------------------------------------------- rows

  datatype Rule = Rule(tenant: Uuid, owner: string, active: Option<Uuid>)

  datatype Revision = Revision(tenant: Uuid, rule: Uuid, enabled: bool)

  datatype Tables = Tables(rules: map<Uuid, Rule>, revisions: map<Uuid, Revision>)

  /** `app.tenant_id`, `app.subject` and `app.is_tenant_admin` of one transaction. */
  datatype Context = Context(tenant: Uuid, subject: string, admin: bool)

  function Overlay(base: Tables, writes: Tables): Tables {
    Tables(base.rules + writes.rules, base.revisions + writes.revisions)
  }

  /** The joins of the trigger: the active revision belongs to the rule and is enabled. */
  predicate EnabledActive(db: Tables, id: Uuid) {
    && id in db.rules
    && db.rules[id].active.Some?
    && var v := db.rules[id].active.value;
       v in db.revisions
       && db.revisions[v].tenant == db.rules[id].tenant
       && db.revisions[v].rule == id
       && db.revisions[v].enabled
  }

  function ActiveSet(db: Tables, tenant: Uuid, owner: string): set<Uuid> {
    set id | id in db.rules && db.rules[id].tenant == tenant && db.rules[id].owner == owner && EnabledActive(db, id)
  }

  /** Row level security on rules: the tenant's own rows, narrowed to the subject unless an administrator asks. */
  predicate VisibleRule(ctx: Context, rule: Rule) {
    rule.tenant == ctx.tenant && ((ctx.subject != "" && rule.owner == ctx.subject) || ctx.admin)
  }

  predicate VisibleRevision(ctx: Context, db: Tables, v: Uuid) {
    && v in db.revisions
    && db.revisions[v].tenant == ctx.tenant
    && db.revisions[v].rule in db.rules
    && db.rules[db.revisions[v].rule].tenant == db.revisions[v].tenant
    && VisibleRule(ctx, db.rules[db.revisions[v].rule])
  }

  // ---------------------------------------------------------------- the trigger's three queries

  /** `new_revision_enabled IS TRUE`, through row level security. */
  predicate ReadsEnabled(ctx: Context, db: Tables, id: Uuid, v: Uuid)
    requires id in db.rules
  {
    && VisibleRevision(ctx, db, v)
    && db.revisions[v].tenant == db.rules[id].tenant
    && db.revisions[v].rule == id
    && db.revisions[v].enabled
  }

  /** The rules that `COUNT(*)` ranges over, through row level security on both tables. */
  function CountedRules(ctx: Context, db: Tables, id: Uuid): set<Uuid>
    requires id in db.rules
  {
    set other | other in db.rules
                && other != id
                && VisibleRule(ctx, db.rules[other])
                && db.rules[other].tenant == db.rules[id].tenant
                && db.rules[other].owner == db.rules[id].owner
                && EnabledActive(db, other)
                && VisibleRevision(ctx, db, db.rules[other].active.value)
  }

  /** Row level security hides nothing the limit depends on from a session that may write the rule. */
  lemma FilteredCountIsTrueCount(ctx: Context, db: Tables, id: Uuid)
    requires id in db.rules && VisibleRule(ctx, db.rules[id])
    ensures CountedRules(ctx, db, id) == ActiveSet(db, db.rules[id].tenant, db.rules[id].owner) - {id}
    ensures forall v :: ReadsEnabled(ctx, db, id, v) <==>
                          (v in db.revisions && db.revisions[v].tenant == db.rules[id].tenant
                           && db.revisions[v].rule == id && db.revisions[v].enabled)
  {
  }

  // ---------------------------------------------------------------- sessions

  type SessionId = nat

  /** Where a session stands: between statements, or inside the pointer update and its trigger. */
  datatype Point =
    | Ready
    | WantsLock(rule: Uuid, revision: Uuid)
    | HasLock(rule: Uuid, revision: Uuid)
    | MustCount(rule: Uuid, revision: Uuid)
    | Counted(rule: Uuid, revision: Uuid, others: nat)
    | MustResolve(rule: Uuid, revision: Uuid)
    | Failed

  datatype Session = Session(ctx: Context, writes: Tables, rowLocks: set<Uuid>, point: Point)

  datatype State = State(committed: Tables, sessions: map<SessionId, Session>, locks: map<int, SessionId>)

  datatype Event =
    | Begin(ctx: Context)
    | InsertRule(id: Uuid, tenant: Uuid, owner: string)
    | InsertRevision(id: Uuid, tenant: Uuid, rule: Uuid, enabled: bool)
    | MovePointer(rule: Uuid, target: Option<Uuid>)
    | TakeLock
    | ReadRevision
    | CountActive
    | Decide
    | CheckReference
    | Commit
    | Rollback

  /** `hashtextextended(tenant::TEXT || ':' || owner, 0)` for an arbitrary hash. */
  function LockKey(hash: string -> int, tenant: Uuid, owner: string): int {
    hash(ToText(tenant) + ":" + owner)
  }

  function View(s: State, t: SessionId): Tables
    requires t in s.sessions
  {
    Overlay(s.committed, s.sessions[t].writes)
  }

  predicate IdUnused(s: State, id: Uuid) {
    && id !in s.committed.rules && id !in s.committed.revisions
    && forall t :: t in s.sessions ==> id !in s.sessions[t].writes.rules && id !in s.sessions[t].writes.revisions
  }

  predicate RowLockedByOther(s: State, t: SessionId, id: Uuid) {
    exists u :: u in s.sessions && u != t && id in s.sessions[u].rowLocks
  }

  function At(s: State, t: SessionId, session: Session): State {
    s.(sessions := s.sessions[t := session])
  }

  function Fail(s: State, t: SessionId): State
    requires t in s.sessions
  {
    At(s, t, s.sessions[t].(point := Failed))
  }

  function WithRule(x: Session, id: Uuid, row: Rule): Session {
    x.(writes := x.writes.(rules := x.writes.rules[id := row]), rowLocks := x.rowLocks + {id})
  }

  function WithRevision(x: Session, id: Uuid, row: Revision): Session {
    x.(writes := x.writes.(revisions := x.writes.revisions[id := row]))
  }

  /** Store the new pointer in the session's own rows; a non-null pointer must still resolve. */
  function WritePointer(s: State, t: SessionId, id: Uuid, target: Option<Uuid>): State
    requires t in s.sessions && id in View(s, t).rules
  {
    var x := s.sessions[t];
    var row := View(s, t).rules[id].(active := target);
    var point := if target.None? then Ready else MustResolve(id, target.value);
    At(s, t, x.(writes := x.writes.(rules := x.writes.rules[id := row]), point := point))
  }

  function End(s: State, t: SessionId, committed: Tables): State {
    State(committed, s.sessions - {t}, map k | k in s.locks && s.locks[k] != t :: s.locks[k])
  }

  /** One step of session `t`; `None` when the step is not possible now, be it blocked or out of order. */
  function Next(hash: string -> int, s: State, t: SessionId, e: Event): Option<State> {
    if e.Begin? then
      if t in s.sessions then None
      else Some(At(s, t, Session(e.ctx, Tables(map[], map[]), {}, Ready)))
    else if t !in s.sessions then None
    else
      var x := s.sessions[t];
      var db := View(s, t);
      match e
      case Rollback => Some(End(s, t, s.committed))
      case Commit => if x.point == Ready then Some(End(s, t, db)) else None
      case InsertRule(id, tenant, owner) =>
        if x.point != Ready || !IdUnused(s, id) then None
        else
          var row := Rule(tenant, owner, None);
          if !VisibleRule(x.ctx, row) || !(1 <= |owner| <= 256) then Some(Fail(s, t))
          else Some(At(s, t, WithRule(x, id, row)))
      case InsertRevision(id, tenant, rule, enabled) =>
        if x.point != Ready || !IdUnused(s, id) then None
        else if tenant == x.ctx.tenant && rule in db.rules && db.rules[rule].tenant == tenant && VisibleRule(x.ctx, db.rules[rule]) then
          Some(At(s, t, WithRevision(x, id, Revision(tenant, rule, enabled))))
        else Some(Fail(s, t))
      case MovePointer(id, target) =>
        if x.point != Ready then None
        else if id !in db.rules || !VisibleRule(x.ctx, db.rules[id]) then Some(s)
        else if RowLockedByOther(s, t, id) then None
        else
          var locked := At(s, t, x.(rowLocks := x.rowLocks + {id}));
          if target.None? then Some(WritePointer(locked, t, id, None))
          else Some(At(locked, t, locked.sessions[t].(point := WantsLock(id, target.value))))
      case TakeLock =>
        if !x.point.WantsLock? || x.point.rule !in db.rules then None
        else
          var row := db.rules[x.point.rule];
          var key := LockKey(hash, row.tenant, row.owner);
          if key in s.locks && s.locks[key] != t then None
          else Some(At(s.(locks := s.locks[key := t]), t, x.(point := HasLock(x.point.rule, x.point.revision))))
      case ReadRevision =>
        if !x.point.HasLock? || x.point.rule !in db.rules then None
        else if ReadsEnabled(x.ctx, db, x.point.rule, x.point.revision) then
          Some(At(s, t, x.(point := MustCount(x.point.rule, x.point.revision))))
        else Some(WritePointer(s, t, x.point.rule, Some(x.point.revision)))
      case CountActive =>
        if !x.point.MustCount? || x.point.rule !in db.rules then None
        else Some(At(s, t, x.(point := Counted(x.point.rule, x.point.revision, |CountedRules(x.ctx, db, x.point.rule)|))))
      case Decide =>
        if !x.point.Counted? || x.point.rule !in db.rules then None
        else if x.point.others >= MAX_ACTIVE then Some(Fail(s, t))
        else Some(WritePointer(s, t, x.point.rule, Some(x.point.revision)))
      case CheckReference =>
        if !x.point.MustResolve? || x.point.rule !in db.rules then None
        else if x.point.revision in db.revisions && db.revisions[x.point.revision].tenant == db.rules[x.point.rule].tenant then
          Some(At(s, t, x.(point := Ready)))
        else Some(Fail(s, t))
      case Begin(_) => None
  }

  // ---------------------------------------------------------------- the invariant

  predicate PointersResolve(db: Tables) {
    forall id :: id in db.rules && db.rules[id].active.Some? ==> db.rules[id].active.value in db.revisions
  }

  predicate Holds(hash: string -> int, s: State, t: SessionId, tenant: Uuid, owner: string) {
    var key := LockKey(hash, tenant, owner);
    key in s.locks && s.locks[key] == t
  }

  ghost predicate WithinLimit(db: Tables) {
    forall tenant: Uuid, owner: string :: |ActiveSet(db, tenant, owner)| <= MAX_ACTIVE
  }

  /** A session holds every row it has written, inserts only new revisions and keeps a rule's tenant and owner. */
  ghost predicate RowsFit(s: State, t: SessionId)
    requires t in s.sessions
  {
    var x := s.sessions[t];
    && x.writes.rules.Keys <= x.rowLocks
    && x.rowLocks <= View(s, t).rules.Keys
    && x.writes.revisions.Keys !! s.committed.revisions.Keys
    && forall id :: id in x.writes.rules && id in s.committed.rules ==>
         x.writes.rules[id].tenant == s.committed.rules[id].tenant && x.writes.rules[id].owner == s.committed.rules[id].owner
  }

  /** A session's rows extend the committed tables without contradicting them, and its pointers resolve. */
  ghost predicate WritesFit(s: State, t: SessionId)
    requires t in s.sessions
  {
    RowsFit(s, t) && PointersResolve(View(s, t))
  }

  /** Every enabled pointer a session has written is covered by the lock of its owner. */
  ghost predicate ActivationsLocked(hash: string -> int, s: State, t: SessionId)
    requires t in s.sessions
  {
    forall id :: id in s.sessions[t].writes.rules && EnabledActive(View(s, t), id) ==>
      Holds(hash, s, t, s.sessions[t].writes.rules[id].tenant, s.sessions[t].writes.rules[id].owner)
  }

  /** Behind a held lock the session's own view respects the limit, whatever others commit. */
  ghost predicate LockedViewsWithinLimit(hash: string -> int, s: State, t: SessionId)
    requires t in s.sessions
  {
    forall tenant: Uuid, owner: string :: Holds(hash, s, t, tenant, owner) ==>
      |ActiveSet(View(s, t), tenant, owner)| <= MAX_ACTIVE
  }

  /**
   Inside the trigger: the row is locked and visible, the lock is held, a revision that was read is still there,
   and the count is an upper bound.
   */
  ghost predicate PointFits(hash: string -> int, s: State, t: SessionId)
    requires t in s.sessions
  {
    var x := s.sessions[t];
    var db := View(s, t);
    x.point.Ready? || x.point.Failed? || (
      && x.point.rule in x.rowLocks && x.point.rule in db.rules
      && VisibleRule(x.ctx, db.rules[x.point.rule])
      && (!x.point.WantsLock? && !x.point.HasLock? ==> x.point.revision in db.revisions)
      && (!x.point.WantsLock? ==> Holds(hash, s, t, db.rules[x.point.rule].tenant, db.rules[x.point.rule].owner))
      && (x.point.Counted? ==>
            |ActiveSet(db, db.rules[x.point.rule].tenant, db.rules[x.point.rule].owner) - {x.point.rule}| <= x.point.others)
    )
  }

  ghost predicate SessionFits(hash: string -> int, s: State, t: SessionId)
    requires t in s.sessions
  {
    && WritesFit(s, t)
    && ActivationsLocked(hash, s, t)
    && LockedViewsWithinLimit(hash, s, t)
    && PointFits(hash, s, t)
  }

  /** No two sessions hold the same row or have written a revision with the same identifier. */
  ghost predicate Separate(s: State) {
    forall t, u :: t in s.sessions && u in s.sessions && t != u ==>
      s.sessions[t].rowLocks !! s.sessions[u].rowLocks
      && s.sessions[t].writes.revisions.Keys !! s.sessions[u].writes.revisions.Keys
  }

  ghost predicate Inv(hash: string -> int, s: State) {
    && PointersResolve(s.committed)
    && WithinLimit(s.committed)
    && (forall k :: k in s.locks ==> s.locks[k] in s.sessions)
    && Separate(s)
    && forall t :: t in s.sessions ==> SessionFits(hash, s, t)
  }
}
