/**
 Runs of the activation protocol: rule creation on its own succeeds exactly below the
 limit, the limit is reached, and it is lost when a session activates a revision that
 another session commits in the middle of the statement.
 */
module ActivationRuns {
  import opened Wrappers
  import opened Uuids
  import opened Activation
  import opened ActivationProof

  lemma {:induction false} RunAppend(hash: string -> int, s: State, a: Schedule, b: Schedule)
    ensures Run(hash, s, a + b) ==
            match Run(hash, s, a) { case None => None case Some(s') => Run(hash, s', b) }
    decreases |a|
  {
    if a == [] {
      assert a + b == b;
    } else {
      assert (a + b)[0] == a[0] && (a + b)[1..] == a[1..] + b;
      match Next(hash, s, a[0].0, a[0].1)
      case None =>
      case Some(s') => RunAppend(hash, s', a[1..], b);
    }
  }

  lemma RunOneMore(hash: string -> int, s: State, a: Schedule, t: SessionId, e: Event)
    ensures Run(hash, s, a + [(t, e)]) ==
            match Run(hash, s, a) { case None => None case Some(s') => Next(hash, s', t, e) }
  {
    RunAppend(hash, s, a, [(t, e)]);
    match Run(hash, s, a)
    case None =>
    case Some(s') =>
      match Next(hash, s', t, e)
      case None =>
      case Some(s'') => assert Run(hash, s'', [(t, e)][1..]) == Some(s'');
  }

  lemma {:induction false} TargetsSeenAppend(hash: string -> int, s: State, a: Schedule, b: Schedule)
    requires Run(hash, s, a).Some? && TargetsSeen(hash, s, a) && TargetsSeen(hash, Run(hash, s, a).value, b)
    ensures TargetsSeen(hash, s, a + b)
    decreases |a|
  {
    if a == [] {
      assert a + b == b;
    } else {
      assert (a + b)[0] == a[0] && (a + b)[1..] == a[1..] + b;
      TargetsSeenAppend(hash, Next(hash, s, a[0].0, a[0].1).value, a[1..], b);
    }
  }

  predicate Idle(s: State) {
    s.sessions == map[] && s.locks == map[]
  }

  // ---------------------------------------------------------------- creation alone

  /** One `create_alert_rule` call. */
  datatype Creation = Creation(tenant: Uuid, subject: string, rule: Uuid, revision: Uuid, enabled: bool)

  predicate CanRequest(s: State, c: Creation) {
    c.rule != c.revision && IdUnused(s, c.rule) && IdUnused(s, c.revision) && 1 <= |c.subject| <= 256
  }

  /** Up to and including the trigger's read of the new revision. */
  function Opening(t: SessionId, c: Creation): Schedule {
    [(t, Begin(Context(c.tenant, c.subject, false))), (t, InsertRule(c.rule, c.tenant, c.subject))]
    + [(t, InsertRevision(c.revision, c.tenant, c.rule, c.enabled))]
    + [(t, MovePointer(c.rule, Some(c.revision)))] + [(t, TakeLock)] + [(t, ReadRevision)]
  }

  /** The statements of `create_alert_rule`, with the trigger's steps when it has the database to itself. */
  function CreateScript(t: SessionId, c: Creation): Schedule {
    Opening(t, c) + (if c.enabled then [(t, CountActive)] + [(t, Decide)] else []) + [(t, CheckReference)] + [(t, Commit)]
  }

  function NewRule(c: Creation, active: Option<Uuid>): Rule {
    Rule(c.tenant, c.subject, active)
  }

  /** The session's rows, with the pointer as given. */
  function Rows(c: Creation, active: Option<Uuid>): Tables {
    Tables(map[c.rule := NewRule(c, active)], map[c.revision := Revision(c.tenant, c.rule, c.enabled)])
  }

  function Solo(db: Tables, t: SessionId, c: Creation, active: Option<Uuid>, point: Point, locks: map<int, SessionId>): State {
    State(db, map[t := Session(Context(c.tenant, c.subject, false), Rows(c, active), {c.rule}, point)], locks)
  }

  /** The tables after a creation has committed. */
  function Created(db: Tables, c: Creation): Tables {
    Tables(db.rules[c.rule := NewRule(c, Some(c.revision))], db.revisions[c.revision := Revision(c.tenant, c.rule, c.enabled)])
  }

  lemma SoloInserts(hash: string -> int, s: State, t: SessionId, c: Creation)
    requires Idle(s) && CanRequest(s, c)
    ensures Run(hash, s, [(t, Begin(Context(c.tenant, c.subject, false))), (t, InsertRule(c.rule, c.tenant, c.subject))]
                         + [(t, InsertRevision(c.revision, c.tenant, c.rule, c.enabled))])
            == Some(Solo(s.committed, t, c, None, Ready, map[]))
  {
    var ctx := Context(c.tenant, c.subject, false);
    var s1 := At(s, t, Session(ctx, Tables(map[], map[]), {}, Ready));
    var x2 := Session(ctx, Tables(map[c.rule := NewRule(c, None)], map[]), {c.rule}, Ready);
    assert WithRule(s1.sessions[t], c.rule, NewRule(c, None)) == x2 by {
      assert {} + {c.rule} == {c.rule};
    }
    var s2 := At(s1, t, x2);
    var first := [(t, Begin(ctx)), (t, InsertRule(c.rule, c.tenant, c.subject))];
    assert first == [(t, Begin(ctx))] + [(t, InsertRule(c.rule, c.tenant, c.subject))];
    RunOneMore(hash, s, [], t, Begin(ctx));
    assert [] + [(t, Begin(ctx))] == [(t, Begin(ctx))];
    RunOneMore(hash, s, [(t, Begin(ctx))], t, InsertRule(c.rule, c.tenant, c.subject));
    SoloInsertRevision(hash, s2, t, c);
    RunOneMore(hash, s, first, t, InsertRevision(c.revision, c.tenant, c.rule, c.enabled));
    var done := Solo(s.committed, t, c, None, Ready, map[]);
    assert done == At(s2, t, done.sessions[t]) by {
      assert done.sessions == s2.sessions[t := done.sessions[t]];
    }
  }

  lemma SoloInsertRevision(hash: string -> int, s: State, t: SessionId, c: Creation)
    requires t in s.sessions && s.sessions.Keys == {t}
    requires s.sessions[t] == Session(Context(c.tenant, c.subject, false), Tables(map[c.rule := NewRule(c, None)], map[]), {c.rule}, Ready)
    requires IdUnused(s, c.revision) && 1 <= |c.subject|
    ensures Next(hash, s, t, InsertRevision(c.revision, c.tenant, c.rule, c.enabled))
            == Some(At(s, t, Session(Context(c.tenant, c.subject, false), Rows(c, None), {c.rule}, Ready)))
  {
    assert View(s, t).rules[c.rule] == NewRule(c, None);
    assert WithRevision(s.sessions[t], c.revision, Revision(c.tenant, c.rule, c.enabled))
           == Session(Context(c.tenant, c.subject, false), Rows(c, None), {c.rule}, Ready);
  }

  predicate NewTo(db: Tables, c: Creation) {
    c.rule != c.revision && c.rule !in db.rules && c.revision !in db.revisions && PointersResolve(db) && 1 <= |c.subject|
  }

  lemma SoloView(db: Tables, t: SessionId, c: Creation, active: Option<Uuid>, point: Point, locks: map<int, SessionId>)
    requires NewTo(db, c) && active in {None, Some(c.revision)}
    ensures var v := View(Solo(db, t, c, active, point, locks), t);
            && v == Tables(db.rules[c.rule := NewRule(c, active)], db.revisions[c.revision := Revision(c.tenant, c.rule, c.enabled)])
            && VisibleRule(Context(c.tenant, c.subject, false), v.rules[c.rule])
            && ActiveSet(v, c.tenant, c.subject) - {c.rule} == ActiveSet(db, c.tenant, c.subject)
            && (EnabledActive(v, c.rule) <==> active == Some(c.revision) && c.enabled)
  {
    var v := View(Solo(db, t, c, active, point, locks), t);
    assert v == Tables(db.rules[c.rule := NewRule(c, active)], db.revisions[c.revision := Revision(c.tenant, c.rule, c.enabled)]);
    forall id | id != c.rule && id in db.rules ensures EnabledActive(v, id) <==> EnabledActive(db, id) {
    }
  }

  /** Moving only the point of the one session. */
  lemma SoloAt(db: Tables, t: SessionId, c: Creation, active: Option<Uuid>, p: Point, q: Point, locks: map<int, SessionId>)
    ensures var s := Solo(db, t, c, active, p, locks);
            At(s, t, s.sessions[t].(point := q)) == Solo(db, t, c, active, q, locks)
  {
    var s, s' := Solo(db, t, c, active, p, locks), Solo(db, t, c, active, q, locks);
    assert s'.sessions == s.sessions[t := s'.sessions[t]];
  }

  lemma SoloMoves(hash: string -> int, db: Tables, t: SessionId, c: Creation)
    requires NewTo(db, c)
    ensures Next(hash, Solo(db, t, c, None, Ready, map[]), t, MovePointer(c.rule, Some(c.revision)))
            == Some(Solo(db, t, c, None, WantsLock(c.rule, c.revision), map[]))
  {
    var s := Solo(db, t, c, None, Ready, map[]);
    SoloView(db, t, c, None, Ready, map[]);
    assert {c.rule} + {c.rule} == {c.rule};
    var locked := At(s, t, s.sessions[t].(rowLocks := {c.rule}));
    assert locked == s by {
      assert locked.sessions == s.sessions;
    }
    SoloAt(db, t, c, None, Ready, WantsLock(c.rule, c.revision), map[]);
  }

  lemma SoloLocks(hash: string -> int, db: Tables, t: SessionId, c: Creation)
    requires NewTo(db, c)
    ensures Next(hash, Solo(db, t, c, None, WantsLock(c.rule, c.revision), map[]), t, TakeLock)
            == Some(Solo(db, t, c, None, HasLock(c.rule, c.revision), map[LockKey(hash, c.tenant, c.subject) := t]))
  {
    SoloView(db, t, c, None, WantsLock(c.rule, c.revision), map[]);
    SoloAt(db, t, c, None, WantsLock(c.rule, c.revision), HasLock(c.rule, c.revision), map[LockKey(hash, c.tenant, c.subject) := t]);
  }

  lemma SoloWrites(db: Tables, t: SessionId, c: Creation, point: Point, locks: map<int, SessionId>)
    requires NewTo(db, c)
    ensures WritePointer(Solo(db, t, c, None, point, locks), t, c.rule, Some(c.revision))
            == Solo(db, t, c, Some(c.revision), MustResolve(c.rule, c.revision), locks)
  {
    SoloView(db, t, c, None, point, locks);
    var s := Solo(db, t, c, None, point, locks);
    var s' := Solo(db, t, c, Some(c.revision), MustResolve(c.rule, c.revision), locks);
    assert s'.sessions[t].writes.rules == s.sessions[t].writes.rules[c.rule := NewRule(c, Some(c.revision))];
    assert s'.sessions == s.sessions[t := s'.sessions[t]];
  }

  lemma SoloReads(hash: string -> int, db: Tables, t: SessionId, c: Creation, locks: map<int, SessionId>)
    requires NewTo(db, c)
    ensures Next(hash, Solo(db, t, c, None, HasLock(c.rule, c.revision), locks), t, ReadRevision)
            == Some(if c.enabled then Solo(db, t, c, None, MustCount(c.rule, c.revision), locks)
                    else Solo(db, t, c, Some(c.revision), MustResolve(c.rule, c.revision), locks))
  {
    var s := Solo(db, t, c, None, HasLock(c.rule, c.revision), locks);
    SoloView(db, t, c, None, HasLock(c.rule, c.revision), locks);
    FilteredCountIsTrueCount(s.sessions[t].ctx, View(s, t), c.rule);
    SoloWrites(db, t, c, HasLock(c.rule, c.revision), locks);
    SoloAt(db, t, c, None, HasLock(c.rule, c.revision), MustCount(c.rule, c.revision), locks);
  }

  lemma SoloCounts(hash: string -> int, db: Tables, t: SessionId, c: Creation, locks: map<int, SessionId>)
    requires NewTo(db, c)
    ensures Next(hash, Solo(db, t, c, None, MustCount(c.rule, c.revision), locks), t, CountActive)
            == Some(Solo(db, t, c, None, Counted(c.rule, c.revision, |ActiveSet(db, c.tenant, c.subject)|), locks))
  {
    var s := Solo(db, t, c, None, MustCount(c.rule, c.revision), locks);
    SoloView(db, t, c, None, MustCount(c.rule, c.revision), locks);
    FilteredCountIsTrueCount(s.sessions[t].ctx, View(s, t), c.rule);
    SoloAt(db, t, c, None, MustCount(c.rule, c.revision), Counted(c.rule, c.revision, |ActiveSet(db, c.tenant, c.subject)|), locks);
  }

  lemma SoloDecides(hash: string -> int, db: Tables, t: SessionId, c: Creation, n: nat, locks: map<int, SessionId>)
    requires NewTo(db, c)
    ensures Next(hash, Solo(db, t, c, None, Counted(c.rule, c.revision, n), locks), t, Decide)
            == Some(if n < MAX_ACTIVE then Solo(db, t, c, Some(c.revision), MustResolve(c.rule, c.revision), locks)
                    else Solo(db, t, c, None, Failed, locks))
  {
    SoloView(db, t, c, None, Counted(c.rule, c.revision, n), locks);
    SoloWrites(db, t, c, Counted(c.rule, c.revision, n), locks);
    SoloAt(db, t, c, None, Counted(c.rule, c.revision, n), Failed, locks);
  }

  lemma SoloCommits(hash: string -> int, db: Tables, t: SessionId, c: Creation, locks: map<int, SessionId>)
    requires NewTo(db, c) && forall k :: k in locks ==> locks[k] == t
    ensures Next(hash, Solo(db, t, c, Some(c.revision), MustResolve(c.rule, c.revision), locks), t, CheckReference)
            == Some(Solo(db, t, c, Some(c.revision), Ready, locks))
    ensures Next(hash, Solo(db, t, c, Some(c.revision), Ready, locks), t, Commit)
            == Some(State(Created(db, c), map[], map[]))
  {
    SoloView(db, t, c, Some(c.revision), MustResolve(c.rule, c.revision), locks);
    SoloView(db, t, c, Some(c.revision), Ready, locks);
    SoloAt(db, t, c, Some(c.revision), MustResolve(c.rule, c.revision), Ready, locks);
    var s := Solo(db, t, c, Some(c.revision), Ready, locks);
    assert s.sessions - {t} == map[];
    assert forall k :: k !in End(s, t, View(s, t)).locks;
    assert View(s, t) == Created(db, c);
  }

  lemma OpeningReaches(hash: string -> int, s: State, t: SessionId, c: Creation)
    requires Idle(s) && CanRequest(s, c) && PointersResolve(s.committed)
    ensures var locks := map[LockKey(hash, c.tenant, c.subject) := t];
            Run(hash, s, Opening(t, c)) ==
            Some(if c.enabled then Solo(s.committed, t, c, None, MustCount(c.rule, c.revision), locks)
                 else Solo(s.committed, t, c, Some(c.revision), MustResolve(c.rule, c.revision), locks))
  {
    var a := [(t, Begin(Context(c.tenant, c.subject, false))), (t, InsertRule(c.rule, c.tenant, c.subject))]
             + [(t, InsertRevision(c.revision, c.tenant, c.rule, c.enabled))];
    SoloInserts(hash, s, t, c);
    SoloMoves(hash, s.committed, t, c);
    SoloLocks(hash, s.committed, t, c);
    SoloReads(hash, s.committed, t, c, map[LockKey(hash, c.tenant, c.subject) := t]);
    RunOneMore(hash, s, a, t, MovePointer(c.rule, Some(c.revision)));
    RunOneMore(hash, s, a + [(t, MovePointer(c.rule, Some(c.revision)))], t, TakeLock);
    RunOneMore(hash, s, a + [(t, MovePointer(c.rule, Some(c.revision)))] + [(t, TakeLock)], t, ReadRevision);
  }

  lemma VerdictReaches(hash: string -> int, s: State, t: SessionId, c: Creation)
    requires Idle(s) && CanRequest(s, c) && PointersResolve(s.committed) && c.enabled
    ensures var locks := map[LockKey(hash, c.tenant, c.subject) := t];
            Run(hash, s, Opening(t, c) + ([(t, CountActive)] + [(t, Decide)])) ==
            Some(if |ActiveSet(s.committed, c.tenant, c.subject)| < MAX_ACTIVE
                 then Solo(s.committed, t, c, Some(c.revision), MustResolve(c.rule, c.revision), locks)
                 else Solo(s.committed, t, c, None, Failed, locks))
  {
    var locks := map[LockKey(hash, c.tenant, c.subject) := t];
    var a := Opening(t, c);
    OpeningReaches(hash, s, t, c);
    SoloCounts(hash, s.committed, t, c, locks);
    SoloDecides(hash, s.committed, t, c, |ActiveSet(s.committed, c.tenant, c.subject)|, locks);
    RunOneMore(hash, s, a, t, CountActive);
    RunOneMore(hash, s, a + [(t, CountActive)], t, Decide);
    assert a + ([(t, CountActive)] + [(t, Decide)]) == a + [(t, CountActive)] + [(t, Decide)];
  }

  /** From the trigger's verdict to the end of the transaction. */
  lemma Finish(hash: string -> int, s: State, t: SessionId, c: Creation, a: Schedule, locks: map<int, SessionId>, active: Option<Uuid>, point: Point)
    requires NewTo(s.committed, c) && forall k :: k in locks ==> locks[k] == t
    requires Run(hash, s, a) == Some(Solo(s.committed, t, c, active, point, locks))
    requires (active == Some(c.revision) && point == MustResolve(c.rule, c.revision)) || point == Failed
    ensures Run(hash, s, a + [(t, CheckReference)] + [(t, Commit)]) ==
            if point == Failed then None else Some(State(Created(s.committed, c), map[], map[]))
  {
    SoloCommits(hash, s.committed, t, c, locks);
    RunOneMore(hash, s, a, t, CheckReference);
    RunOneMore(hash, s, a + [(t, CheckReference)], t, Commit);
  }

  /** Creation alone goes through exactly when the rule is disabled or fewer than ten are active. */
  lemma CreationSucceedsBelowLimit(hash: string -> int, s: State, t: SessionId, c: Creation)
    requires Idle(s) && CanRequest(s, c) && PointersResolve(s.committed)
    ensures Run(hash, s, CreateScript(t, c)) ==
            if !c.enabled || |ActiveSet(s.committed, c.tenant, c.subject)| < MAX_ACTIVE
            then Some(State(Created(s.committed, c), map[], map[]))
            else None
  {
    var locks := map[LockKey(hash, c.tenant, c.subject) := t];
    var resolve := MustResolve(c.rule, c.revision);
    if c.enabled {
      VerdictReaches(hash, s, t, c);
      var a := Opening(t, c) + ([(t, CountActive)] + [(t, Decide)]);
      if |ActiveSet(s.committed, c.tenant, c.subject)| < MAX_ACTIVE {
        Finish(hash, s, t, c, a, locks, Some(c.revision), resolve);
      } else {
        Finish(hash, s, t, c, a, locks, None, Failed);
      }
    } else {
      OpeningReaches(hash, s, t, c);
      assert Opening(t, c) + [] == Opening(t, c);
      Finish(hash, s, t, c, Opening(t, c), locks, Some(c.revision), resolve);
    }
  }

  // ---------------------------------------------------------------- the limit is reached, and what it rests on

  /** An owner with `n` enabled active rules on an otherwise empty database, identifiers below `2 * n` used. */
  ghost predicate Holding(s: State, tenant: Uuid, owner: string, n: nat) {
    && Idle(s) && PointersResolve(s.committed)
    && |ActiveSet(s.committed, tenant, owner)| == n
    && (forall id :: id in s.committed.rules || id in s.committed.revisions ==> id < 2 * n)
  }

  lemma CreatedAddsOne(db: Tables, c: Creation)
    requires NewTo(db, c) && c.enabled
    ensures ActiveSet(Created(db, c), c.tenant, c.subject) == ActiveSet(db, c.tenant, c.subject) + {c.rule}
    ensures c.rule !in ActiveSet(db, c.tenant, c.subject) && PointersResolve(Created(db, c))
  {
    SoloView(db, 0, c, Some(c.revision), Ready, map[]);
    assert View(Solo(db, 0, c, Some(c.revision), Ready, map[]), 0) == Created(db, c);
  }

  /** The `n`-th creation of a row of them. */
  function CreationOf(tenant: Uuid, owner: string, n: nat): Creation
    requires n <= MAX_ACTIVE
  {
    Creation(tenant, owner, 2 * n, 2 * n + 1, true)
  }

  /** `n` creations in a row by one owner. */
  function Creations(tenant: Uuid, owner: string, n: nat): Schedule
    requires n <= MAX_ACTIVE
  {
    if n == 0 then [] else Creations(tenant, owner, n - 1) + CreateScript(0, CreationOf(tenant, owner, n - 1))
  }

  lemma {:induction false} CreationsReach(hash: string -> int, tenant: Uuid, owner: string, n: nat)
    requires 1 <= |owner| <= 256 && n <= MAX_ACTIVE
    ensures Run(hash, EMPTY, Creations(tenant, owner, n)).Some?
    ensures Holding(Run(hash, EMPTY, Creations(tenant, owner, n)).value, tenant, owner, n)
  {
    if n == 0 {
      assert ActiveSet(EMPTY.committed, tenant, owner) == {};
    } else {
      CreationsReach(hash, tenant, owner, n - 1);
      var before := Creations(tenant, owner, n - 1);
      var s := Run(hash, EMPTY, before).value;
      var c := CreationOf(tenant, owner, n - 1);
      CreationSucceedsBelowLimit(hash, s, 0, c);
      CreatedAddsOne(s.committed, c);
      RunAppend(hash, EMPTY, before, CreateScript(0, c));
    }
  }

  /** Ten creations in a row all go through: the bound is tight. */
  lemma LimitIsReached(hash: string -> int, tenant: Uuid, owner: string, n: nat) returns (schedule: Schedule)
    requires 1 <= |owner| <= 256 && n <= MAX_ACTIVE
    ensures Run(hash, EMPTY, schedule).Some? && Holding(Run(hash, EMPTY, schedule).value, tenant, owner, n)
  {
    CreationsReach(hash, tenant, owner, n);
    schedule := Creations(tenant, owner, n);
  }

  /** An eleventh creation is refused. */
  lemma EleventhIsRefused(hash: string -> int, s: State, t: SessionId, c: Creation)
    requires Holding(s, c.tenant, c.subject, MAX_ACTIVE) && CanRequest(s, c) && c.enabled
    ensures Run(hash, s, CreateScript(t, c)) == None
  {
    CreationSucceedsBelowLimit(hash, s, t, c);
  }

  /** Two sessions of one owner over the committed tables. */
  function Duo(db: Tables, a: SessionId, x: Session, b: SessionId, y: Session, locks: map<int, SessionId>): State {
    State(db, map[a := x, b := y], locks)
  }

  /** The owner has an inactive rule `c.rule`, and `c.revision` is new. */
  predicate CanRace(db: Tables, c: Creation) {
    && c.rule in db.rules && db.rules[c.rule].tenant == c.tenant && db.rules[c.rule].owner == c.subject
    && !EnabledActive(db, c.rule) && c.subject != "" && c.enabled
    && c.revision !in db.rules && c.revision !in db.revisions && PointersResolve(db)
  }

  function Idler(c: Creation): Session {
    Session(Context(c.tenant, c.subject, false), Tables(map[], map[]), {}, Ready)
  }

  function Inserter(c: Creation): Session {
    WithRevision(Idler(c), c.revision, Revision(c.tenant, c.rule, true))
  }

  function Mover(c: Creation, point: Point): Session {
    Idler(c).(rowLocks := {c.rule}, point := point)
  }

  function Pointed(db: Tables, c: Creation): Rule
    requires c.rule in db.rules
  {
    db.rules[c.rule].(active := Some(c.revision))
  }

  function Writer(db: Tables, c: Creation, point: Point): Session
    requires c.rule in db.rules
  {
    Mover(c, point).(writes := Tables(map[c.rule := Pointed(db, c)], map[]))
  }

  /** `b` inserts the revision; `a` moves the pointer to it, cannot see it, and so does not count; `b` commits first. */
  function RaceScript(a: SessionId, b: SessionId, c: Creation): Schedule {
    var ctx := Context(c.tenant, c.subject, false);
    [] + [(a, Begin(ctx))] + [(b, Begin(ctx))] + [(b, InsertRevision(c.revision, c.tenant, c.rule, true))]
    + [(a, MovePointer(c.rule, Some(c.revision)))] + [(a, TakeLock)] + [(a, ReadRevision)]
    + [(b, Commit)] + [(a, CheckReference)] + [(a, Commit)]
  }

  lemma RaceBegins(hash: string -> int, db: Tables, a: SessionId, b: SessionId, c: Creation)
    requires a != b && CanRace(db, c)
    ensures var ctx := Context(c.tenant, c.subject, false);
            Run(hash, State(db, map[], map[]), [] + [(a, Begin(ctx))] + [(b, Begin(ctx))]
                                               + [(b, InsertRevision(c.revision, c.tenant, c.rule, true))])
            == Some(Duo(db, a, Idler(c), b, Inserter(c), map[]))
  {
    var ctx := Context(c.tenant, c.subject, false);
    var s0 := State(db, map[], map[]);
    var s1 := At(s0, a, Idler(c));
    var s2 := Duo(db, a, Idler(c), b, Idler(c), map[]);
    var s3 := Duo(db, a, Idler(c), b, Inserter(c), map[]);
    RunOneMore(hash, s0, [], a, Begin(ctx));
    RunOneMore(hash, s0, [] + [(a, Begin(ctx))], b, Begin(ctx));
    assert At(s1, b, Idler(c)) == s2 by {
      assert s1.sessions[b := Idler(c)] == s2.sessions;
    }
    assert View(s2, b) == db;
    assert At(s2, b, Inserter(c)) == s3 by {
      assert s2.sessions[b := Inserter(c)] == s3.sessions;
    }
    RunOneMore(hash, s0, [] + [(a, Begin(ctx))] + [(b, Begin(ctx))], b, InsertRevision(c.revision, c.tenant, c.rule, true));
  }

  lemma RaceMoves(hash: string -> int, db: Tables, a: SessionId, b: SessionId, c: Creation)
    requires a != b && CanRace(db, c)
    ensures Next(hash, Duo(db, a, Idler(c), b, Inserter(c), map[]), a, MovePointer(c.rule, Some(c.revision)))
            == Some(Duo(db, a, Mover(c, WantsLock(c.rule, c.revision)), b, Inserter(c), map[]))
    ensures Next(hash, Duo(db, a, Mover(c, WantsLock(c.rule, c.revision)), b, Inserter(c), map[]), a, TakeLock)
            == Some(Duo(db, a, Mover(c, HasLock(c.rule, c.revision)), b, Inserter(c), map[LockKey(hash, c.tenant, c.subject) := a]))
  {
    var s1 := Duo(db, a, Idler(c), b, Inserter(c), map[]);
    var s2 := Duo(db, a, Mover(c, WantsLock(c.rule, c.revision)), b, Inserter(c), map[]);
    var locks := map[LockKey(hash, c.tenant, c.subject) := a];
    var s3 := Duo(db, a, Mover(c, HasLock(c.rule, c.revision)), b, Inserter(c), locks);
    assert View(s1, a) == db && View(s2, a) == db;
    assert {} + {c.rule} == {c.rule};
    assert s1.sessions[a := Mover(c, Ready)][a := s2.sessions[a]] == s2.sessions;
    assert s2.sessions[a := s3.sessions[a]] == s3.sessions;
    assert s2.locks[LockKey(hash, c.tenant, c.subject) := a] == locks;
  }

  lemma RaceReads(hash: string -> int, db: Tables, a: SessionId, b: SessionId, c: Creation, locks: map<int, SessionId>)
    requires a != b && CanRace(db, c)
    ensures Next(hash, Duo(db, a, Mover(c, HasLock(c.rule, c.revision)), b, Inserter(c), locks), a, ReadRevision)
            == Some(Duo(db, a, Writer(db, c, MustResolve(c.rule, c.revision)), b, Inserter(c), locks))
    ensures !SeesTarget(Duo(db, a, Mover(c, HasLock(c.rule, c.revision)), b, Inserter(c), locks), a, ReadRevision)
  {
    var s1 := Duo(db, a, Mover(c, HasLock(c.rule, c.revision)), b, Inserter(c), locks);
    var s2 := Duo(db, a, Writer(db, c, MustResolve(c.rule, c.revision)), b, Inserter(c), locks);
    assert View(s1, a) == db;
    assert map[][c.rule := Pointed(db, c)] == s2.sessions[a].writes.rules;
    assert s1.sessions[a := s2.sessions[a]] == s2.sessions;
  }

  function AfterInsert(db: Tables, c: Creation): Tables {
    Tables(db.rules, db.revisions[c.revision := Revision(c.tenant, c.rule, true)])
  }

  lemma RaceCommits(hash: string -> int, db: Tables, a: SessionId, b: SessionId, c: Creation, key: int)
    requires a != b && CanRace(db, c)
    ensures Next(hash, Duo(db, a, Writer(db, c, MustResolve(c.rule, c.revision)), b, Inserter(c), map[key := a]), b, Commit)
            == Some(State(AfterInsert(db, c), map[a := Writer(db, c, MustResolve(c.rule, c.revision))], map[key := a]))
  {
    var s1 := Duo(db, a, Writer(db, c, MustResolve(c.rule, c.revision)), b, Inserter(c), map[key := a]);
    assert View(s1, b) == AfterInsert(db, c);
    assert s1.sessions - {b} == map[a := Writer(db, c, MustResolve(c.rule, c.revision))];
    assert End(s1, b, AfterInsert(db, c)).locks == map[key := a];
  }

  lemma RaceChecks(hash: string -> int, db: Tables, a: SessionId, c: Creation, key: int)
    requires CanRace(db, c)
    ensures Next(hash, State(AfterInsert(db, c), map[a := Writer(db, c, MustResolve(c.rule, c.revision))], map[key := a]), a, CheckReference)
            == Some(State(AfterInsert(db, c), map[a := Writer(db, c, Ready)], map[key := a]))
  {
    var s2 := State(AfterInsert(db, c), map[a := Writer(db, c, MustResolve(c.rule, c.revision))], map[key := a]);
    var s3 := State(AfterInsert(db, c), map[a := Writer(db, c, Ready)], map[key := a]);
    assert View(s2, a).rules[c.rule] == Pointed(db, c);
    assert s2.sessions[a := s3.sessions[a]] == s3.sessions;
  }

  lemma RaceEnds(hash: string -> int, db: Tables, a: SessionId, c: Creation, key: int)
    requires CanRace(db, c)
    ensures Next(hash, State(AfterInsert(db, c), map[a := Writer(db, c, Ready)], map[key := a]), a, Commit)
            == Some(State(Created(db, c).(rules := db.rules[c.rule := Pointed(db, c)]), map[], map[]))
  {
    var s3 := State(AfterInsert(db, c), map[a := Writer(db, c, Ready)], map[key := a]);
    var after := Created(db, c).(rules := db.rules[c.rule := Pointed(db, c)]);
    assert View(s3, a) == after by {
      assert View(s3, a).rules == after.rules;
      assert View(s3, a).revisions == after.revisions;
    }
    assert s3.sessions - {a} == map[];
    assert forall k :: k !in End(s3, a, after).locks;
  }

  /**
   The condition on targets is needed: from any quiet state, an owner with an inactive rule
   gains one enabled active rule uncounted, ten or not, when the revision is committed by
   another session between the trigger's read and the foreign key check.
   */
  lemma UnseenTargetIsNotCounted(hash: string -> int, s: State, a: SessionId, b: SessionId, c: Creation)
    requires Idle(s) && a != b && CanRace(s.committed, c)
    ensures Run(hash, s, RaceScript(a, b, c)).Some?
    ensures var after := Run(hash, s, RaceScript(a, b, c)).value;
            Idle(after) && c.rule !in ActiveSet(s.committed, c.tenant, c.subject)
            && ActiveSet(after.committed, c.tenant, c.subject) == ActiveSet(s.committed, c.tenant, c.subject) + {c.rule}
  {
    var db := s.committed;
    var ctx := Context(c.tenant, c.subject, false);
    var key := LockKey(hash, c.tenant, c.subject);
    var p3 := [] + [(a, Begin(ctx))] + [(b, Begin(ctx))] + [(b, InsertRevision(c.revision, c.tenant, c.rule, true))];
    var p4 := p3 + [(a, MovePointer(c.rule, Some(c.revision)))];
    var p5 := p4 + [(a, TakeLock)];
    var p6 := p5 + [(a, ReadRevision)];
    var p7 := p6 + [(b, Commit)];
    assert s == State(db, map[], map[]);
    RaceBegins(hash, db, a, b, c);
    RaceMoves(hash, db, a, b, c);
    RaceReads(hash, db, a, b, c, map[key := a]);
    RaceCommits(hash, db, a, b, c, key);
    RaceChecks(hash, db, a, c, key);
    RaceEnds(hash, db, a, c, key);
    RunOneMore(hash, s, p3, a, MovePointer(c.rule, Some(c.revision)));
    RunOneMore(hash, s, p4, a, TakeLock);
    RunOneMore(hash, s, p5, a, ReadRevision);
    RunOneMore(hash, s, p6, b, Commit);
    RunOneMore(hash, s, p7, a, CheckReference);
    RunOneMore(hash, s, p7 + [(a, CheckReference)], a, Commit);
    RaceAddsOne(db, c);
  }

  lemma RaceAddsOne(db: Tables, c: Creation)
    requires CanRace(db, c)
    ensures var after := Created(db, c).(rules := db.rules[c.rule := Pointed(db, c)]);
            ActiveSet(after, c.tenant, c.subject) == ActiveSet(db, c.tenant, c.subject) + {c.rule}
  {
    var after := Created(db, c).(rules := db.rules[c.rule := Pointed(db, c)]);
    forall id | id != c.rule ensures EnabledActive(after, id) <==> EnabledActive(db, id) {
    }
    assert EnabledActive(after, c.rule);
  }

  /** Concretely: a run that starts empty and ends with eleven enabled active rules of one owner. */
  lemma LimitNeedsSeenTargets(hash: string -> int) returns (schedule: Schedule)
    ensures Run(hash, EMPTY, schedule).Some? && !TargetsSeen(hash, EMPTY, schedule)
    ensures |ActiveSet(Run(hash, EMPTY, schedule).value.committed, 0, "owner")| == 11
  {
    var before := LimitIsReached(hash, 0, "owner", MAX_ACTIVE);
    var s := Run(hash, EMPTY, before).value;
    var draft := Creation(0, "owner", 100, 101, false);
    CreationSucceedsBelowLimit(hash, s, 0, draft);
    var s' := State(Created(s.committed, draft), map[], map[]);
    SoloView(s.committed, 0, draft, Some(101), Ready, map[]);
    assert View(Solo(s.committed, 0, draft, Some(101), Ready, map[]), 0) == s'.committed;
    assert ActiveSet(s'.committed, 0, "owner") - {100} == ActiveSet(s'.committed, 0, "owner");
    var c := Creation(0, "owner", 100, 102, true);
    UnseenTargetIsNotCounted(hash, s', 0, 1, c);
    RunAppend(hash, EMPTY, before, CreateScript(0, draft));
    RunAppend(hash, EMPTY, before + CreateScript(0, draft), RaceScript(0, 1, c));
    schedule := before + CreateScript(0, draft) + RaceScript(0, 1, c);
    if TargetsSeen(hash, EMPTY, schedule) {
      ActiveLimit(hash, schedule);
      assert false;
    }
  }
}
