/**
 `create_alert_rule` statement by statement on a shared database, with the steps of other
 sessions let in between any two of its statements.
 */
module Sessions {
  import opened Wrappers
  import opened Uuids
  import opened Activation
  import opened ActivationProof
  import opened ActivationRuns

  datatype CreateResult = Committed | Refused | LimitReached | LockTimeout

  /** Session `t` stands as it stood, with the same locks. */
  ghost predicate Undisturbed(t: SessionId, s: State, s': State) {
    && (t in s.sessions <==> t in s'.sessions)
    && (t in s.sessions ==> s'.sessions[t] == s.sessions[t])
    && (forall k :: (k in s.locks && s.locks[k] == t) <==> (k in s'.locks && s'.locks[k] == t))
  }

  lemma OtherStepsLeaveSession(hash: string -> int, s: State, u: SessionId, e: Event, t: SessionId)
    requires u != t && Next(hash, s, u, e).Some?
    ensures Undisturbed(t, s, Next(hash, s, u, e).value)
  {
  }

  // ---------------------------------------------------------------- what was run

  /** Step `i` of the schedule leads from one state of the path to the next; a trigger sees the revision it reads. */
  predicate StepAt(hash: string -> int, path: seq<State>, ran: Schedule, i: nat)
    requires |path| == |ran| + 1 && i < |ran|
  {
    SeesTarget(path[i], ran[i].0, ran[i].1) && Next(hash, path[i], ran[i].0, ran[i].1) == Some(path[i + 1])
  }

  predicate IsPath(hash: string -> int, s: State, ran: Schedule, s': State, path: seq<State>) {
    && |path| == |ran| + 1 && path[0] == s && path[|ran|] == s'
    && forall i: nat :: i < |ran| ==> StepAt(hash, path, ran, i)
  }

  /** The schedule leads from one state to the other, and every trigger in it saw the revision it read. */
  ghost predicate Ran(hash: string -> int, s: State, ran: Schedule, s': State) {
    exists path :: IsPath(hash, s, ran, s', path)
  }

  /** That is a run of the protocol that meets the condition of the activation limit. */
  lemma RanIsRun(hash: string -> int, s: State, ran: Schedule, s': State)
    requires Ran(hash, s, ran, s')
    ensures Run(hash, s, ran) == Some(s') && TargetsSeen(hash, s, ran)
  {
    var path :| IsPath(hash, s, ran, s', path);
    PathIsRun(hash, s, ran, s', path);
  }

  lemma {:induction false} PathIsRun(hash: string -> int, s: State, ran: Schedule, s': State, path: seq<State>)
    requires IsPath(hash, s, ran, s', path)
    ensures Run(hash, s, ran) == Some(s') && TargetsSeen(hash, s, ran)
    decreases |ran|
  {
    if ran != [] {
      assert StepAt(hash, path, ran, 0);
      forall i: nat | i < |ran| - 1 ensures StepAt(hash, path[1..], ran[1..], i) {
        assert StepAt(hash, path, ran, i + 1);
      }
      PathIsRun(hash, path[1], ran[1..], s', path[1..]);
    }
  }

  lemma RanAppend(hash: string -> int, s: State, a: Schedule, s1: State, b: Schedule, s2: State)
    requires Ran(hash, s, a, s1) && Ran(hash, s1, b, s2)
    ensures Ran(hash, s, a + b, s2)
  {
    var p :| IsPath(hash, s, a, s1, p);
    var q :| IsPath(hash, s1, b, s2, q);
    var path := p + q[1..];
    forall i: nat | i < |a + b| ensures StepAt(hash, path, a + b, i) {
      if i < |a| {
        assert StepAt(hash, p, a, i);
        assert path[i] == p[i] && path[i + 1] == p[i + 1];
      } else {
        assert StepAt(hash, q, b, i - |a|);
        assert path[i] == q[i - |a|] && path[i + 1] == q[i + 1 - |a|];
      }
    }
    assert IsPath(hash, s, a + b, s2, path);
  }

  /** The statements of session `t` in a schedule. */
  function OwnEvents(t: SessionId, ran: Schedule): seq<Event> {
    if ran == [] then [] else OwnEvents(t, ran[..|ran| - 1]) + (if ran[|ran| - 1].0 == t then [ran[|ran| - 1].1] else [])
  }

  /** The schedule leads from one state to the other, and in it session `t` executed exactly the statements `own`. */
  ghost predicate Trace(hash: string -> int, t: SessionId, s: State, ran: Schedule, own: seq<Event>, s': State) {
    Ran(hash, s, ran, s') && OwnEvents(t, ran) == own
  }

  lemma {:induction false} OwnEventsAppend(t: SessionId, a: Schedule, b: Schedule)
    ensures OwnEvents(t, a + b) == OwnEvents(t, a) + OwnEvents(t, b)
    decreases |b|
  {
    if b == [] {
      assert a + b == a;
    } else {
      var n := |b| - 1;
      assert (a + b)[..|a + b| - 1] == a + b[..n];
      OwnEventsAppend(t, a, b[..n]);
    }
  }

  /** One trace after another is a trace. */
  lemma TraceJoin(hash: string -> int, t: SessionId, s: State, a: Schedule, oa: seq<Event>, s1: State, b: Schedule, ob: seq<Event>, s2: State)
    requires Trace(hash, t, s, a, oa, s1) && Trace(hash, t, s1, b, ob, s2)
    ensures Trace(hash, t, s, a + b, oa + ob, s2)
  {
    RanAppend(hash, s, a, s1, b, s2);
    OwnEventsAppend(t, a, b);
  }

  lemma TraceOfStep(hash: string -> int, t: SessionId, s: State, u: SessionId, e: Event)
    requires SeesTarget(s, u, e) && Next(hash, s, u, e).Some?
    ensures Trace(hash, t, s, [(u, e)], if u == t then [e] else [], Next(hash, s, u, e).value)
  {
    var s' := Next(hash, s, u, e).value;
    var step := [(u, e)];
    assert step[..0] == [];
    assert OwnEvents(t, []) == [];
    assert StepAt(hash, [s, s'], step, 0);
    assert IsPath(hash, s, step, s', [s, s']);
  }

  lemma TraceOfNothing(hash: string -> int, t: SessionId, s: State)
    ensures Trace(hash, t, s, [], [], s)
  {
    assert IsPath(hash, s, [], s, [s]);
  }

  function StartEvents(c: Creation): seq<Event> {
    [Begin(Context(c.tenant, c.subject, false))]
  }

  function RuleEvents(c: Creation): seq<Event> {
    StartEvents(c) + [InsertRule(c.rule, c.tenant, c.subject)]
  }

  /** The two inserts of a creation, after the start of its transaction. */
  function RowEvents(c: Creation): seq<Event> {
    RuleEvents(c) + [InsertRevision(c.revision, c.tenant, c.rule, c.enabled)]
  }

  function MovedEvents(c: Creation): seq<Event> {
    RowEvents(c) + [MovePointer(c.rule, Some(c.revision))]
  }

  /** The pointer update and the lock. */
  function LockedEvents(c: Creation): seq<Event> {
    MovedEvents(c) + [TakeLock]
  }

  /** The trigger up to its decision; counting is left out for a disabled revision. */
  function DecidedEvents(c: Creation): seq<Event> {
    LockedEvents(c) + [ReadRevision] + (if c.enabled then [CountActive] + [Decide] else [])
  }

  function ScriptEvents(c: Creation): seq<Event> {
    DecidedEvents(c) + [CheckReference] + [Event.Commit]
  }

  /** The statements of the trigger and the check after those before it, by the trigger's verdict. */
  function JudgedEvents(own: seq<Event>, c: Creation, passed: bool): seq<Event> {
    if c.enabled then VerdictEvents(own + [ReadRevision], passed) else own + [ReadRevision] + [CheckReference]
  }

  function VerdictEvents(own: seq<Event>, passed: bool): seq<Event> {
    if passed then own + [CountActive] + [Decide] + [CheckReference] else own + [CountActive] + [Decide]
  }

  /** The session has executed some first statements of a creation, and the next one is not possible. */
  predicate Stuck(hash: string -> int, s: State, t: SessionId, c: Creation, own: seq<Event>) {
    own < ScriptEvents(c) && Next(hash, s, t, ScriptEvents(c)[|own|]).None?
  }

  /** An insert was refused: an identifier is in use, or the schema rejects the owner. */
  predicate RowsRefused(hash: string -> int, s: State, t: SessionId, c: Creation, own: seq<Event>) {
    Stuck(hash, s, t, c, own) &&
    (|| (own == StartEvents(c) && !IdUnused(s, c.rule))
     || (own == RuleEvents(c) && !(1 <= |c.subject| <= 256))
     || (own == RuleEvents(c) && !IdUnused(s, c.revision)))
  }

  /** Another session holds the owner's lock, and the pointer update waits for it. */
  predicate LockRefused(hash: string -> int, s: State, t: SessionId, c: Creation, own: seq<Event>) {
    var key := LockKey(hash, c.tenant, c.subject);
    Stuck(hash, s, t, c, own) && own == MovedEvents(c) && key in s.locks && s.locks[key] != t
  }

  lemma FirstEvents(c: Creation)
    ensures StartEvents(c) < RuleEvents(c) < RowEvents(c) < MovedEvents(c) < LockedEvents(c) < ScriptEvents(c)
    ensures ScriptEvents(c)[1] == InsertRule(c.rule, c.tenant, c.subject)
    ensures ScriptEvents(c)[2] == InsertRevision(c.revision, c.tenant, c.rule, c.enabled)
    ensures |MovedEvents(c)| == 4 && ScriptEvents(c)[4] == TakeLock
  {
    assert LockedEvents(c) <= ScriptEvents(c);
    assert LockedEvents(c)[4] == TakeLock;
  }

  lemma RuleRefused(hash: string -> int, s: State, t: SessionId, c: Creation)
    requires t in s.sessions && s.sessions[t].point == Ready && Next(hash, s, t, InsertRule(c.rule, c.tenant, c.subject)).None?
    ensures RowsRefused(hash, s, t, c, StartEvents(c))
  {
    FirstEvents(c);
    InsertNeedsId(hash, s, t, InsertRule(c.rule, c.tenant, c.subject), c.rule);
  }

  lemma OwnerRefused(hash: string -> int, s: State, t: SessionId, c: Creation)
    requires t in s.sessions && s.sessions[t].point == Failed && !(1 <= |c.subject| <= 256)
    ensures RowsRefused(hash, s, t, c, RuleEvents(c))
  {
    FirstEvents(c);
  }

  lemma RevisionRefused(hash: string -> int, s: State, t: SessionId, c: Creation)
    requires t in s.sessions && s.sessions[t].point == Ready
    requires Next(hash, s, t, InsertRevision(c.revision, c.tenant, c.rule, c.enabled)).None?
    ensures RowsRefused(hash, s, t, c, RuleEvents(c))
  {
    FirstEvents(c);
    InsertNeedsId(hash, s, t, InsertRevision(c.revision, c.tenant, c.rule, c.enabled), c.revision);
  }

  lemma LockStops(hash: string -> int, s: State, t: SessionId, c: Creation)
    requires t in s.sessions && s.sessions[t] == Mine(c, None, WantsLock(c.rule, c.revision)) && c.subject != ""
    requires Next(hash, s, t, TakeLock).None?
    ensures LockRefused(hash, s, t, c, MovedEvents(c))
  {
    FirstEvents(c);
    LockIsTaken(hash, s, t, c);
  }

  lemma VerdictFollows(c: Creation, own: seq<Event>, passed: bool)
    requires own == JudgedEvents(LockedEvents(c), c, passed) && (passed || c.enabled)
    ensures own < ScriptEvents(c) && (if passed then own + [Event.Commit] == ScriptEvents(c) else ScriptEvents(c)[|own|] == CheckReference)
  {
    assert own <= DecidedEvents(c) + [CheckReference] <= ScriptEvents(c);
  }

  lemma LimitStops(hash: string -> int, s: State, t: SessionId, c: Creation, own: seq<Event>)
    requires own == JudgedEvents(LockedEvents(c), c, false) && c.enabled && t in s.sessions && s.sessions[t].point == Failed
    ensures Stuck(hash, s, t, c, own)
  {
    VerdictFollows(c, own, false);
  }

  /** A creation that has the database to itself executes the same statements. */
  lemma ScriptOwnsEvents(t: SessionId, c: Creation)
    ensures OwnEvents(t, CreateScript(t, c)) == ScriptEvents(c)
  {
    var a := [(t, Begin(Context(c.tenant, c.subject, false))), (t, InsertRule(c.rule, c.tenant, c.subject))];
    assert a == [] + [a[0]] + [a[1]];
    OwnEventsAppend(t, [], [a[0]]);
    OwnEventsAppend(t, [] + [a[0]], [a[1]]);
    OwnEventsAppend(t, a, [(t, InsertRevision(c.revision, c.tenant, c.rule, c.enabled))]);
    var rows := a + [(t, InsertRevision(c.revision, c.tenant, c.rule, c.enabled))];
    OwnEventsAppend(t, rows, [(t, MovePointer(c.rule, Some(c.revision)))]);
    OwnEventsAppend(t, rows + [(t, MovePointer(c.rule, Some(c.revision)))], [(t, TakeLock)]);
    OwnEventsAppend(t, rows + [(t, MovePointer(c.rule, Some(c.revision)))] + [(t, TakeLock)], [(t, ReadRevision)]);
    var counting := if c.enabled then [(t, CountActive)] + [(t, Decide)] else [];
    OwnEventsAppend(t, [(t, CountActive)], [(t, Decide)]);
    OwnEventsAppend(t, Opening(t, c), counting);
    OwnEventsAppend(t, Opening(t, c) + counting, [(t, CheckReference)]);
    OwnEventsAppend(t, Opening(t, c) + counting + [(t, CheckReference)], [(t, Commit)]);
  }

  // ---------------------------------------------------------------- what each own step does to the session

  function Mine(c: Creation, active: Option<Uuid>, point: Point): Session {
    Session(Context(c.tenant, c.subject, false), Rows(c, active), {c.rule}, point)
  }

  function Started(c: Creation): Session {
    Session(Context(c.tenant, c.subject, false), Tables(map[], map[]), {}, Ready)
  }

  function WithNewRule(c: Creation): Session {
    Session(Context(c.tenant, c.subject, false), Tables(map[c.rule := NewRule(c, None)], map[]), {c.rule}, Ready)
  }

  lemma OwnInsertRule(hash: string -> int, s: State, t: SessionId, c: Creation)
    requires t in s.sessions && s.sessions[t] == Started(c)
    requires Next(hash, s, t, InsertRule(c.rule, c.tenant, c.subject)).Some?
    ensures var s' := Next(hash, s, t, InsertRule(c.rule, c.tenant, c.subject)).value;
            t in s'.sessions && if 1 <= |c.subject| <= 256 then s'.sessions[t] == WithNewRule(c) else s'.sessions[t].point == Failed
  {
    assert WithRule(Started(c), c.rule, NewRule(c, None)) == WithNewRule(c) by {
      assert {} + {c.rule} == {c.rule};
    }
  }

  /** An insert of a session between statements is impossible only if the identifier is in use. */
  lemma InsertNeedsId(hash: string -> int, s: State, t: SessionId, e: Event, id: Uuid)
    requires t in s.sessions && s.sessions[t].point == Ready && Next(hash, s, t, e).None?
    requires (e.InsertRule? && e.id == id) || (e.InsertRevision? && e.id == id)
    ensures !IdUnused(s, id)
  {
  }

  lemma OwnInsertRevision(hash: string -> int, s: State, t: SessionId, c: Creation)
    requires t in s.sessions && s.sessions[t] == WithNewRule(c) && c.subject != ""
    requires Next(hash, s, t, InsertRevision(c.revision, c.tenant, c.rule, c.enabled)).Some?
    ensures var s' := Next(hash, s, t, InsertRevision(c.revision, c.tenant, c.rule, c.enabled)).value;
            t in s'.sessions && s'.sessions[t] == Mine(c, None, Ready)
  {
    assert View(s, t).rules[c.rule] == NewRule(c, None);
    assert WithRevision(WithNewRule(c), c.revision, Revision(c.tenant, c.rule, c.enabled)) == Mine(c, None, Ready);
  }

  lemma OwnView(s: State, t: SessionId, c: Creation, active: Option<Uuid>, point: Point)
    requires t in s.sessions && s.sessions[t] == Mine(c, active, point) && c.subject != ""
    ensures var db := View(s, t);
            && c.rule in db.rules && db.rules[c.rule] == NewRule(c, active)
            && c.revision in db.revisions && db.revisions[c.revision] == Revision(c.tenant, c.rule, c.enabled)
            && VisibleRule(s.sessions[t].ctx, db.rules[c.rule])
            && (ReadsEnabled(s.sessions[t].ctx, db, c.rule, c.revision) <==> c.enabled)
  {
  }

  lemma OwnMove(hash: string -> int, s: State, t: SessionId, c: Creation)
    requires t in s.sessions && s.sessions[t] == Mine(c, None, Ready) && c.subject != ""
    requires !RowLockedByOther(s, t, c.rule)
    ensures Next(hash, s, t, MovePointer(c.rule, Some(c.revision)))
            == Some(At(s, t, Mine(c, None, WantsLock(c.rule, c.revision))))
  {
    OwnView(s, t, c, None, Ready);
    assert {c.rule} + {c.rule} == {c.rule};
    assert s.sessions[t := Mine(c, None, Ready)] == s.sessions;
  }

  lemma OwnTakeLock(hash: string -> int, s: State, t: SessionId, c: Creation)
    requires t in s.sessions && s.sessions[t] == Mine(c, None, WantsLock(c.rule, c.revision)) && c.subject != ""
    requires Next(hash, s, t, TakeLock).Some?
    ensures var s' := Next(hash, s, t, TakeLock).value;
            t in s'.sessions && s'.sessions[t] == Mine(c, None, HasLock(c.rule, c.revision))
  {
  }

  lemma LockIsTaken(hash: string -> int, s: State, t: SessionId, c: Creation)
    requires t in s.sessions && s.sessions[t] == Mine(c, None, WantsLock(c.rule, c.revision)) && c.subject != ""
    requires Next(hash, s, t, TakeLock).None?
    ensures var key := LockKey(hash, c.tenant, c.subject); key in s.locks && s.locks[key] != t
  {
    OwnView(s, t, c, None, WantsLock(c.rule, c.revision));
  }

  lemma OwnWrite(s: State, t: SessionId, c: Creation, point: Point)
    requires t in s.sessions && s.sessions[t] == Mine(c, None, point) && c.subject != ""
    requires c.rule in View(s, t).rules
    ensures WritePointer(s, t, c.rule, Some(c.revision)) == At(s, t, Mine(c, Some(c.revision), MustResolve(c.rule, c.revision)))
  {
    OwnView(s, t, c, None, point);
    assert Rows(c, None).rules[c.rule := NewRule(c, Some(c.revision))] == Rows(c, Some(c.revision)).rules;
  }

  lemma OwnRead(hash: string -> int, s: State, t: SessionId, c: Creation)
    requires t in s.sessions && s.sessions[t] == Mine(c, None, HasLock(c.rule, c.revision)) && c.subject != ""
    ensures SeesTarget(s, t, ReadRevision)
    ensures Next(hash, s, t, ReadRevision)
            == Some(At(s, t, if c.enabled then Mine(c, None, MustCount(c.rule, c.revision))
                             else Mine(c, Some(c.revision), MustResolve(c.rule, c.revision))))
  {
    OwnView(s, t, c, None, HasLock(c.rule, c.revision));
    OwnWrite(s, t, c, HasLock(c.rule, c.revision));
  }

  lemma CountStep(hash: string -> int, s: State, t: SessionId)
    requires t in s.sessions && s.sessions[t].point.MustCount? && s.sessions[t].point.rule in View(s, t).rules
    ensures var x := s.sessions[t];
            Next(hash, s, t, CountActive)
            == Some(At(s, t, x.(point := Counted(x.point.rule, x.point.revision, |CountedRules(x.ctx, View(s, t), x.point.rule)|))))
  {
  }

  lemma OwnCount(hash: string -> int, s: State, t: SessionId, c: Creation)
    requires t in s.sessions && s.sessions[t] == Mine(c, None, MustCount(c.rule, c.revision)) && c.subject != ""
    ensures c.rule in View(s, t).rules
    ensures Next(hash, s, t, CountActive)
            == Some(At(s, t, Mine(c, None, Counted(c.rule, c.revision, |ActiveSet(View(s, t), c.tenant, c.subject) - {c.rule}|))))
  {
    OwnView(s, t, c, None, MustCount(c.rule, c.revision));
    CountIsTrue(s.sessions[t].ctx, View(s, t), c);
    CountStep(hash, s, t);
  }

  lemma CountIsTrue(ctx: Context, db: Tables, c: Creation)
    requires c.rule in db.rules && db.rules[c.rule] == NewRule(c, None) && VisibleRule(ctx, db.rules[c.rule])
    ensures |CountedRules(ctx, db, c.rule)| == |ActiveSet(db, c.tenant, c.subject) - {c.rule}|
  {
    FilteredCountIsTrueCount(ctx, db, c.rule);
  }

  lemma OwnDecide(hash: string -> int, s: State, t: SessionId, c: Creation, others: nat)
    requires t in s.sessions && s.sessions[t] == Mine(c, None, Counted(c.rule, c.revision, others)) && c.subject != ""
    ensures Next(hash, s, t, Decide)
            == Some(At(s, t, if others < MAX_ACTIVE then Mine(c, Some(c.revision), MustResolve(c.rule, c.revision))
                             else Mine(c, None, Failed)))
  {
    OwnView(s, t, c, None, Counted(c.rule, c.revision, others));
    OwnWrite(s, t, c, Counted(c.rule, c.revision, others));
  }

  lemma OwnCheck(hash: string -> int, s: State, t: SessionId, c: Creation)
    requires t in s.sessions && s.sessions[t] == Mine(c, Some(c.revision), MustResolve(c.rule, c.revision)) && c.subject != ""
    ensures Next(hash, s, t, CheckReference) == Some(At(s, t, Mine(c, Some(c.revision), Ready)))
  {
    OwnView(s, t, c, Some(c.revision), MustResolve(c.rule, c.revision));
  }

  lemma OwnRowIsFree(hash: string -> int, s: State, t: SessionId, id: Uuid)
    requires Inv(hash, s) && t in s.sessions && id in s.sessions[t].rowLocks
    ensures !RowLockedByOther(s, t, id)
  {
  }

  // ---------------------------------------------------------------- the database

  /** What the trigger counted: `ran[at]` is the count, `seen` the state it ran in. */
  ghost predicate CountedIn(hash: string -> int, s: State, ran: Schedule, at: nat, seen: State, t: SessionId, c: Creation, others: nat) {
    && at < |ran| && ran[at] == (t, CountActive) && Ran(hash, s, ran[..at], seen) && t in seen.sessions
    && others == |ActiveSet(View(seen, t), c.tenant, c.subject) - {c.rule}|
  }

  /** A longer schedule contains the same count. */
  lemma CountedStays(hash: string -> int, s: State, ran: Schedule, ran': Schedule, at: nat, seen: State, t: SessionId, c: Creation, others: nat)
    requires CountedIn(hash, s, ran, at, seen, t, c, others) && ran <= ran'
    ensures CountedIn(hash, s, ran', at, seen, t, c, others)
  {
    assert ran'[..at] == ran[..at];
  }

  class Database {
    const hash: string -> int
    var state: State

    ghost predicate Valid()
      reads this
    {
      Inv(hash, state)
    }

    constructor (hash: string -> int)
      ensures Valid() && this.hash == hash && state == EMPTY
    {
      this.hash := hash;
      state := EMPTY;
      new;
      EmptyFits(hash);
    }

    /** One step of one session, if it is possible now. */
    method Step(t: SessionId, e: Event) returns (done: bool)
      requires Valid() && SeesTarget(state, t, e)
      modifies this`state
      ensures Valid()
      ensures done <==> Next(hash, old(state), t, e).Some?
      ensures state == if done then Next(hash, old(state), t, e).value else old(state)
      ensures done ==> Trace(hash, t, old(state), [(t, e)], [e], state)
    {
      var next := Next(hash, state, t, e);
      done := next.Some?;
      if done {
        NextKeepsInv(hash, state, t, e);
        TraceOfStep(hash, t, state, t, e);
        state := next.value;
      }
    }

    /** Whatever the other sessions get done of a schedule. */
    method Others(t: SessionId, schedule: Schedule) returns (ghost ran: Schedule)
      requires Valid()
      modifies this`state
      ensures Valid() && Undisturbed(t, old(state), state)
      ensures Trace(hash, t, old(state), ran, [], state)
    {
      ran := [];
      TraceOfNothing(hash, t, state);
      for i := 0 to |schedule|
        invariant Valid() && Undisturbed(t, old(state), state)
        invariant Trace(hash, t, old(state), ran, [], state)
      {
        var (u, e) := schedule[i];
        if u != t && SeesTarget(state, u, e) {
          ghost var before := state;
          var done := Step(u, e);
          if done {
            OtherStepsLeaveSession(hash, before, u, e, t);
            TraceOfStep(hash, t, before, u, e);
            TraceJoin(hash, t, old(state), ran, [], before, [(u, e)], [], state);
            ran := ran + [(u, e)];
          }
        }
      }
    }

    /** A step of `t` that extends its trace from `s0`. */
    method Continue(t: SessionId, e: Event, ghost s0: State, ghost ran: Schedule, ghost own: seq<Event>) returns (done: bool)
      requires Valid() && SeesTarget(state, t, e) && Trace(hash, t, s0, ran, own, state)
      modifies this`state
      ensures Valid()
      ensures done <==> Next(hash, old(state), t, e).Some?
      ensures state == if done then Next(hash, old(state), t, e).value else old(state)
      ensures done ==> Trace(hash, t, s0, ran + [(t, e)], own + [e], state)
    {
      ghost var s := state;
      done := Step(t, e);
      if done {
        TraceJoin(hash, t, s0, ran, own, s, [(t, e)], [e], state);
      }
    }

    /** Let other sessions in, and extend the trace of `t` from `s0` by what they do. */
    method Interleave(t: SessionId, slot: Schedule, ghost s0: State, ghost ran: Schedule, ghost own: seq<Event>) returns (ghost ran': Schedule)
      requires Valid() && Trace(hash, t, s0, ran, own, state)
      modifies this`state
      ensures Valid() && Undisturbed(t, old(state), state)
      ensures Trace(hash, t, s0, ran', own, state) && ran <= ran'
    {
      ghost var s := state;
      ghost var others := Others(t, slot);
      TraceJoin(hash, t, s0, ran, own, s, others, [], state);
      assert own + [] == own;
      ran' := ran + others;
    }

    /** Insert the rule in a new transaction. */
    method InsertRuleRow(t: SessionId, c: Creation, slot: Schedule) returns (ok: bool, ghost ran: Schedule, ghost own: seq<Event>)
      requires Valid() && t !in state.sessions
      modifies this`state
      ensures Valid() && t in state.sessions && Trace(hash, t, old(state), ran, own, state)
      ensures if ok then state.sessions[t] == WithNewRule(c) && 1 <= |c.subject| <= 256 && own == RuleEvents(c)
              else RowsRefused(hash, state, t, c, own)
    {
      ok := Step(t, Begin(Context(c.tenant, c.subject, false)));
      ran, own := [(t, Begin(Context(c.tenant, c.subject, false)))], StartEvents(c);
      ran := Interleave(t, slot, old(state), ran, own);
      ghost var s := state;
      ok := Continue(t, InsertRule(c.rule, c.tenant, c.subject), old(state), ran, own);
      if !ok {
        RuleRefused(hash, state, t, c);
        return;
      }
      OwnInsertRule(hash, s, t, c);
      ran, own := ran + [(t, InsertRule(c.rule, c.tenant, c.subject))], own + [InsertRule(c.rule, c.tenant, c.subject)];
      if state.sessions[t].point == Failed {
        OwnerRefused(hash, state, t, c);
        ok := false;
      }
    }

    /** Insert the first revision of the rule. */
    method InsertRevisionRow(t: SessionId, c: Creation, slots: seq<Schedule>, ghost s0: State, ghost ran0: Schedule)
      returns (ok: bool, ghost ran: Schedule, ghost own: seq<Event>)
      requires Valid() && t in state.sessions && state.sessions[t] == WithNewRule(c) && c.subject != "" && |slots| == 2
      requires Trace(hash, t, s0, ran0, RuleEvents(c), state)
      modifies this`state
      ensures Valid() && t in state.sessions && Trace(hash, t, s0, ran, own, state)
      ensures if ok then state.sessions[t] == Mine(c, None, Ready) && own == RowEvents(c) else RowsRefused(hash, state, t, c, own)
    {
      ghost var e := InsertRevision(c.revision, c.tenant, c.rule, c.enabled);
      own := RuleEvents(c);
      ran := Interleave(t, slots[0], s0, ran0, own);
      ghost var s := state;
      ok := Continue(t, InsertRevision(c.revision, c.tenant, c.rule, c.enabled), s0, ran, own);
      if !ok {
        RevisionRefused(hash, state, t, c);
        return;
      }
      OwnInsertRevision(hash, s, t, c);
      ran, own := ran + [(t, e)], own + [e];
      ran := Interleave(t, slots[1], s0, ran, own);
    }

    /** Insert the rule and its first revision in a new transaction. */
    method InsertRows(t: SessionId, c: Creation, slots: seq<Schedule>) returns (ok: bool, ghost ran: Schedule, ghost own: seq<Event>)
      requires Valid() && t !in state.sessions && |slots| == 3
      modifies this`state
      ensures Valid() && t in state.sessions && Trace(hash, t, old(state), ran, own, state)
      ensures if ok then state.sessions[t] == Mine(c, None, Ready) && 1 <= |c.subject| <= 256 && own == RowEvents(c)
              else RowsRefused(hash, state, t, c, own)
    {
      ok, ran, own := InsertRuleRow(t, c, slots[0]);
      if ok {
        ok, ran, own := InsertRevisionRow(t, c, slots[1..], old(state), ran);
      }
    }

    /** One attempt at the advisory lock. */
    method TryLock(t: SessionId, c: Creation, ghost s0: State, ghost ran0: Schedule, ghost own0: seq<Event>) returns (ok: bool, ghost ran: Schedule)
      requires Valid() && t in state.sessions && c.subject != ""
      requires state.sessions[t] == Mine(c, None, WantsLock(c.rule, c.revision)) && Trace(hash, t, s0, ran0, own0, state)
      modifies this`state
      ensures Valid() && t in state.sessions && ran0 <= ran
      ensures ok ==> state.sessions[t] == Mine(c, None, HasLock(c.rule, c.revision)) && Trace(hash, t, s0, ran, own0 + [TakeLock], state)
      ensures !ok ==> state == old(state) && ran == ran0 && Next(hash, state, t, TakeLock).None?
    {
      ghost var s := state;
      ok := Continue(t, TakeLock, s0, ran0, own0);
      ran := ran0;
      if ok {
        OwnTakeLock(hash, s, t, c);
        ran := ran0 + [(t, TakeLock)];
      }
    }

    /** Trying the lock, and again after each chance for the others. */
    method WaitForLock(t: SessionId, c: Creation, waits: seq<Schedule>, ghost s0: State, ghost ran0: Schedule, ghost own: seq<Event>)
      returns (ok: bool, ghost ran: Schedule)
      requires Valid() && t in state.sessions && c.subject != ""
      requires state.sessions[t] == Mine(c, None, WantsLock(c.rule, c.revision)) && Trace(hash, t, s0, ran0, own, state)
      modifies this`state
      ensures Valid() && t in state.sessions && ran0 <= ran
      ensures ok ==> state.sessions[t] == Mine(c, None, HasLock(c.rule, c.revision)) && Trace(hash, t, s0, ran, own + [TakeLock], state)
      ensures !ok ==> Trace(hash, t, s0, ran, own, state) && Next(hash, state, t, TakeLock).None?
      ensures !ok ==> state.sessions[t] == Mine(c, None, WantsLock(c.rule, c.revision))
    {
      ok, ran := TryLock(t, c, s0, ran0, own);
      for i := 0 to |waits|
        invariant Valid() && t in state.sessions && ran0 <= ran
        invariant ok ==> state.sessions[t] == Mine(c, None, HasLock(c.rule, c.revision)) && Trace(hash, t, s0, ran, own + [TakeLock], state)
        invariant !ok ==> Trace(hash, t, s0, ran, own, state) && Next(hash, state, t, TakeLock).None?
        invariant !ok ==> state.sessions[t] == Mine(c, None, WantsLock(c.rule, c.revision))
      {
        if ok {
          return;
        }
        ran := Interleave(t, waits[i], s0, ran, own);
        ok, ran := TryLock(t, c, s0, ran, own);
      }
    }

    /** The pointer update up to the lock. */
    method MoveAndLock(t: SessionId, c: Creation, waits: seq<Schedule>, ghost s0: State, ghost ran0: Schedule, ghost own0: seq<Event>)
      returns (ok: bool, ghost ran: Schedule, ghost own: seq<Event>)
      requires Valid() && t in state.sessions && c.subject != "" && state.sessions[t] == Mine(c, None, Ready)
      requires Trace(hash, t, s0, ran0, own0, state)
      modifies this`state
      ensures Valid() && t in state.sessions
      ensures Trace(hash, t, s0, ran, own, state) && ran0 <= ran
      ensures own == own0 + [MovePointer(c.rule, Some(c.revision))] + (if ok then [TakeLock] else [])
      ensures ok ==> state.sessions[t] == Mine(c, None, HasLock(c.rule, c.revision))
      ensures !ok ==> state.sessions[t] == Mine(c, None, WantsLock(c.rule, c.revision)) && Next(hash, state, t, TakeLock).None?
    {
      OwnRowIsFree(hash, state, t, c.rule);
      OwnMove(hash, state, t, c);
      ok := Continue(t, MovePointer(c.rule, Some(c.revision)), s0, ran0, own0);
      own := own0 + [MovePointer(c.rule, Some(c.revision))];
      ok, ran := WaitForLock(t, c, waits, s0, ran0 + [(t, MovePointer(c.rule, Some(c.revision)))], own);
      own := own + if ok then [TakeLock] else [];
    }

    /** The trigger's count and its decision, with a chance for others in between. */
    method CountAndDecide(t: SessionId, c: Creation, slot: Schedule, ghost s0: State, ghost ran0: Schedule, ghost own0: seq<Event>)
      returns (ok: bool, ghost ran: Schedule, ghost seen: State, ghost others: nat)
      requires Valid() && t in state.sessions && c.subject != "" && state.sessions[t] == Mine(c, None, MustCount(c.rule, c.revision))
      requires Trace(hash, t, s0, ran0, own0, state)
      modifies this`state
      ensures Valid() && t in state.sessions
      ensures Trace(hash, t, s0, ran, own0 + [CountActive] + [Decide], state) && ran0 <= ran
      ensures CountedIn(hash, s0, ran, |ran0|, seen, t, c, others)
      ensures ok <==> others < MAX_ACTIVE
      ensures if ok then state.sessions[t] == Mine(c, Some(c.revision), MustResolve(c.rule, c.revision))
              else state.sessions[t].point == Failed
    {
      OwnCount(hash, state, t, c);
      seen, others := state, |ActiveSet(View(state, t), c.tenant, c.subject) - {c.rule}|;
      ok := Continue(t, CountActive, s0, ran0, own0);
      ran := ran0 + [(t, CountActive)];
      assert ran[..|ran0|] == ran0;
      ghost var counted := ran;
      ran := Interleave(t, slot, s0, ran, own0 + [CountActive]);
      OwnDecide(hash, state, t, c, others);
      ok := Continue(t, Decide, s0, ran, own0 + [CountActive]);
      ran := ran + [(t, Decide)];
      CountedStays(hash, s0, counted, ran, |ran0|, seen, t, c, others);
      ok := state.sessions[t].point != Failed;
    }

    /** The foreign key check, after a chance for others. */
    method Resolve(t: SessionId, c: Creation, slot: Schedule, ghost s0: State, ghost ran0: Schedule, ghost own0: seq<Event>)
      returns (ghost ran: Schedule)
      requires Valid() && t in state.sessions && c.subject != "" && Trace(hash, t, s0, ran0, own0, state)
      requires state.sessions[t] == Mine(c, Some(c.revision), MustResolve(c.rule, c.revision))
      modifies this`state
      ensures Valid() && t in state.sessions && state.sessions[t] == Mine(c, Some(c.revision), Ready)
      ensures Trace(hash, t, s0, ran, own0 + [CheckReference], state) && ran0 <= ran
    {
      ran := Interleave(t, slot, s0, ran0, own0);
      OwnCheck(hash, state, t, c);
      var done := Continue(t, CheckReference, s0, ran, own0);
      ran := ran + [(t, CheckReference)];
    }

    /** The trigger's read of the new revision, then a chance for others. */
    method ReadTarget(t: SessionId, c: Creation, slot: Schedule, ghost s0: State, ghost ran0: Schedule, ghost own0: seq<Event>)
      returns (ghost ran: Schedule)
      requires Valid() && t in state.sessions && c.subject != ""
      requires state.sessions[t] == Mine(c, None, HasLock(c.rule, c.revision)) && Trace(hash, t, s0, ran0, own0, state)
      modifies this`state
      ensures Valid() && t in state.sessions && ran0 <= ran && Trace(hash, t, s0, ran, own0 + [ReadRevision], state)
      ensures state.sessions[t] == if c.enabled then Mine(c, None, MustCount(c.rule, c.revision))
                                   else Mine(c, Some(c.revision), MustResolve(c.rule, c.revision))
    {
      OwnRead(hash, state, t, c);
      var done := Continue(t, ReadRevision, s0, ran0, own0);
      ran := Interleave(t, slot, s0, ran0 + [(t, ReadRevision)], own0 + [ReadRevision]);
    }

    /** Count, decide and resolve, for an enabled revision. */
    method JudgeEnabled(t: SessionId, c: Creation, slots: seq<Schedule>, ghost s0: State, ghost ran0: Schedule, ghost own0: seq<Event>)
      returns (ok: bool, ghost ran: Schedule, ghost seen: State, ghost others: nat)
      requires Valid() && t in state.sessions && c.subject != "" && |slots| == 2
      requires state.sessions[t] == Mine(c, None, MustCount(c.rule, c.revision)) && Trace(hash, t, s0, ran0, own0, state)
      modifies this`state
      ensures Valid() && t in state.sessions && ran0 <= ran
      ensures Trace(hash, t, s0, ran, VerdictEvents(own0, ok), state)
      ensures CountedIn(hash, s0, ran, |ran0|, seen, t, c, others) && (ok <==> others < MAX_ACTIVE)
      ensures if ok then state.sessions[t] == Mine(c, Some(c.revision), Ready) else state.sessions[t].point == Failed
    {
      ok, ran, seen, others := CountAndDecide(t, c, slots[0], s0, ran0, own0);
      if ok {
        ghost var decided := ran;
        ran := Resolve(t, c, slots[1], s0, ran, own0 + [CountActive] + [Decide]);
        CountedStays(hash, s0, decided, ran, |ran0|, seen, t, c, others);
      }
    }

    /**
     The trigger's verdict and the foreign key check, other sessions committing in between: an enabled
     revision passes exactly when the count, in the state the count ran in, was below ten.
     */
    method Judge(t: SessionId, c: Creation, slots: seq<Schedule>, ghost s0: State, ghost ran0: Schedule, ghost own0: seq<Event>)
      returns (ok: bool, ghost ran: Schedule, ghost own: seq<Event>, ghost at: nat, ghost seen: State, ghost others: nat)
      requires Valid() && t in state.sessions && c.subject != "" && |slots| == 3
      requires state.sessions[t] == Mine(c, None, HasLock(c.rule, c.revision)) && Trace(hash, t, s0, ran0, own0, state)
      modifies this`state
      ensures Valid() && t in state.sessions
      ensures Trace(hash, t, s0, ran, own, state) && ran0 <= ran
      ensures own == JudgedEvents(own0, c, ok)
      ensures c.enabled ==> |ran0| <= at && CountedIn(hash, s0, ran, at, seen, t, c, others)
      ensures ok <==> !c.enabled || others < MAX_ACTIVE
      ensures if ok then state.sessions[t] == Mine(c, Some(c.revision), Ready) else state.sessions[t].point == Failed
    {
      ran := ReadTarget(t, c, slots[0], s0, ran0, own0);
      own, at := own0 + [ReadRevision], |ran|;
      if c.enabled {
        ok, ran, seen, others := JudgeEnabled(t, c, slots[1..], s0, ran, own);
        own := VerdictEvents(own, ok);
      } else {
        ok, seen, others := true, state, 0;
        ran := Resolve(t, c, slots[2], s0, ran, own);
        own := own + [CheckReference];
      }
    }

    /** Move the pointer of the new rule: the lock, the trigger's verdict and the foreign key check. */
    method Activate(t: SessionId, c: Creation, waits: seq<Schedule>, within: seq<Schedule>, ghost s0: State, ghost ran0: Schedule)
      returns (r: CreateResult, ghost ran: Schedule, ghost own: seq<Event>, ghost at: nat, ghost seen: State, ghost others: nat)
      requires Valid() && t in state.sessions && c.subject != "" && state.sessions[t] == Mine(c, None, Ready) && |within| == 3
      requires Trace(hash, t, s0, ran0, RowEvents(c), state)
      modifies this`state
      ensures Valid() && t in state.sessions && !r.Refused? && Trace(hash, t, s0, ran, own, state)
      ensures r.Committed? ==> state.sessions[t] == Mine(c, Some(c.revision), Ready) && own + [Event.Commit] == ScriptEvents(c)
      ensures !r.Committed? ==> Stuck(hash, state, t, c, own)
      ensures r.LockTimeout? ==> LockRefused(hash, state, t, c, own)
      ensures (r.Committed? && c.enabled) || r.LimitReached? ==>
                c.enabled && CountedIn(hash, s0, ran, at, seen, t, c, others) && (r.Committed? <==> others < MAX_ACTIVE)
    {
      var ok;
      at, seen, others := 0, state, 0;
      ok, ran, own := MoveAndLock(t, c, waits, s0, ran0, RowEvents(c));
      if !ok {
        assert own == MovedEvents(c);
        LockStops(hash, state, t, c);
        r := LockTimeout;
      } else {
        assert own == LockedEvents(c);
        ok, ran, own, at, seen, others := Judge(t, c, within, s0, ran, own);
        r := if ok then Committed else LimitReached;
        VerdictFollows(c, own, ok);
        if !ok {
          LimitStops(hash, state, t, c, own);
        }
      }
    }

    /** All statements of a creation up to the end of its transaction. */
    method Attempt(t: SessionId, c: Creation, before: seq<Schedule>, waits: seq<Schedule>, within: seq<Schedule>)
      returns (r: CreateResult, ghost ran: Schedule, ghost own: seq<Event>, ghost at: nat, ghost seen: State, ghost others: nat)
      requires Valid() && t !in state.sessions && |before| == 3 && |within| == 3
      modifies this`state
      ensures Valid() && t in state.sessions && Trace(hash, t, old(state), ran, own, state)
      ensures r.Committed? ==> state.sessions[t] == Mine(c, Some(c.revision), Ready) && own + [Event.Commit] == ScriptEvents(c)
      ensures !r.Committed? ==> Stuck(hash, state, t, c, own)
      ensures if r.Refused? then RowsRefused(hash, state, t, c, own) else 1 <= |c.subject| <= 256
      ensures r.LockTimeout? ==> LockRefused(hash, state, t, c, own)
      ensures (r.Committed? && c.enabled) || r.LimitReached? ==>
                c.enabled && CountedIn(hash, old(state), ran, at, seen, t, c, others) && (r.Committed? <==> others < MAX_ACTIVE)
    {
      var ok;
      at, seen, others := 0, state, 0;
      ok, ran, own := InsertRows(t, c, before);
      r := Refused;
      if ok {
        r, ran, own, at, seen, others := Activate(t, c, waits, within, old(state), ran);
      }
    }

    /**
     `create_alert_rule`. The state is what a schedule leads to in which this session executed the
     statements of a creation and committed its rule with the revision active, or executed some first
     statements of it, could not execute the next one and rolled back; everything else in the committed
     tables is the work of others. It is refused for its owner or an identifier in use, times out only while
     another session holds the owner's lock, and reports the limit only if ten others were counted.
     */
    method CreateAlertRule(t: SessionId, c: Creation, before: seq<Schedule>, waits: seq<Schedule>, within: seq<Schedule>)
      returns (r: CreateResult, ghost ran: Schedule, ghost own: seq<Event>, ghost last: State, ghost at: nat, ghost seen: State, ghost others: nat)
      requires Valid() && t !in state.sessions && |before| == 3 && |within| == 3
      modifies this`state
      ensures Valid() && WithinLimit(state.committed) && Evolves(old(state).committed, state.committed)
      ensures Trace(hash, t, old(state), ran, own, last) && t in last.sessions && t !in state.sessions
      ensures r.Committed? ==>
                && own + [Event.Commit] == ScriptEvents(c) && Next(hash, last, t, Event.Commit) == Some(state)
                && state.committed == Overlay(last.committed, Rows(c, Some(c.revision)))
      ensures !r.Committed? ==>
                && Stuck(hash, last, t, c, own) && Next(hash, last, t, Event.Rollback) == Some(state)
                && state.committed == last.committed
      ensures if r.Refused? then RowsRefused(hash, last, t, c, own) else 1 <= |c.subject| <= 256
      ensures r.LockTimeout? ==> LockRefused(hash, last, t, c, own)
      ensures (r.Committed? && c.enabled) || r.LimitReached? ==>
                c.enabled && CountedIn(hash, old(state), ran, at, seen, t, c, others) && (r.Committed? <==> others < MAX_ACTIVE)
      ensures Idle(old(state)) && CanRequest(old(state), c) && Alone(t, ran) ==>
                && (r.Committed? <==> !c.enabled || |ActiveSet(old(state).committed, c.tenant, c.subject)| < MAX_ACTIVE)
                && state == if r.Committed? then State(Created(old(state).committed, c), map[], map[]) else old(state)
    {
      r, ran, own, at, seen, others := Attempt(t, c, before, waits, within);
      last := state;
      End(t, r.Committed?);
      EndEvolves(hash, t, old(state), ran, own, last, r.Committed?, state);
      if Idle(old(state)) && CanRequest(old(state), c) && Alone(t, ran) {
        AloneSucceedsIff(hash, old(state), t, c, ran, own, last, r.Committed?, state);
      }
    }

    /** Commit or roll back, and forget the session. */
    method End(t: SessionId, publish: bool)
      requires Valid() && t in state.sessions && (publish ==> state.sessions[t].point == Ready)
      modifies this`state
      ensures Valid() && WithinLimit(state.committed) && t !in state.sessions
      ensures Next(hash, old(state), t, if publish then Event.Commit else Event.Rollback) == Some(state)
      ensures state.committed == if publish then View(old(state), t) else old(state).committed
    {
      EndStep(hash, state, t, publish);
      var done := Step(t, if publish then Event.Commit else Event.Rollback);
    }
  }

  /** A transaction that stands between statements can commit, and any can roll back; either forgets the session. */
  lemma EndStep(hash: string -> int, s: State, t: SessionId, publish: bool)
    requires t in s.sessions && (publish ==> s.sessions[t].point == Ready)
    ensures Next(hash, s, t, if publish then Event.Commit else Event.Rollback)
            == Some(Activation.End(s, t, if publish then View(s, t) else s.committed))
  {
  }

  // ---------------------------------------------------------------- a creation without others

  /** No other session executed anything. */
  predicate Alone(t: SessionId, ran: Schedule) {
    forall x :: x in ran ==> x.0 == t
  }

  lemma {:induction false} OwnIsAll(t: SessionId, ran: Schedule)
    requires Alone(t, ran)
    ensures |OwnEvents(t, ran)| == |ran| && forall i :: 0 <= i < |ran| ==> ran[i] == (t, OwnEvents(t, ran)[i])
  {
    if ran != [] {
      var n := |ran| - 1;
      OwnIsAll(t, ran[..n]);
      assert ran[n] in ran;
      forall i | 0 <= i < n ensures ran[i] == (t, OwnEvents(t, ran)[i]) {
        assert ran[..n][i] == ran[i];
      }
    }
  }

  /** A session alone that has executed some first statements of a creation has run the start of the script. */
  lemma AloneFollowsScript(t: SessionId, c: Creation, ran: Schedule)
    requires Alone(t, ran) && OwnEvents(t, ran) < ScriptEvents(c)
    ensures ran < CreateScript(t, c) && CreateScript(t, c)[|ran|] == (t, ScriptEvents(c)[|ran|])
  {
    var script := CreateScript(t, c);
    ScriptOwnsEvents(t, c);
    assert Alone(t, script);
    OwnIsAll(t, ran);
    OwnIsAll(t, script);
    assert forall i :: 0 <= i < |ran| ==> ran[i] == (t, ScriptEvents(c)[i]) == script[i];
  }

  /** What one session alone leaves on an idle database until it commits. */
  predicate OnlyMine(base: Tables, t: SessionId, s: State) {
    s.committed == base && s.sessions.Keys <= {t} && forall k :: k in s.locks ==> s.locks[k] == t
  }

  lemma {:induction false} AloneLeavesTables(hash: string -> int, base: Tables, t: SessionId, s: State, ran: Schedule)
    requires OnlyMine(base, t, s) && Run(hash, s, ran).Some? && forall x :: x in ran ==> x.0 == t && !x.1.Commit?
    ensures OnlyMine(base, t, Run(hash, s, ran).value)
    decreases |ran|
  {
    if ran != [] {
      assert ran[0] in ran;
      OneLeavesTables(hash, base, t, s, ran[0].1);
      AloneLeavesTables(hash, base, t, Next(hash, s, t, ran[0].1).value, ran[1..]);
    }
  }

  lemma OneLeavesTables(hash: string -> int, base: Tables, t: SessionId, s: State, e: Event)
    requires OnlyMine(base, t, s) && Next(hash, s, t, e).Some? && !e.Commit?
    ensures OnlyMine(base, t, Next(hash, s, t, e).value)
  {
  }

  lemma ScriptCommitsLast(c: Creation, own: seq<Event>)
    requires own < ScriptEvents(c)
    ensures forall e :: e in own ==> !e.Commit?
  {
    assert forall i :: 0 <= i < |ScriptEvents(c)| - 1 ==> !ScriptEvents(c)[i].Commit?;
  }

  lemma AloneRollsBack(hash: string -> int, s: State, t: SessionId, c: Creation, ran: Schedule, last: State)
    requires Idle(s) && Run(hash, s, ran) == Some(last) && Alone(t, ran) && OwnEvents(t, ran) < ScriptEvents(c)
    ensures Activation.End(last, t, last.committed) == s
  {
    OwnIsAll(t, ran);
    ScriptCommitsLast(c, OwnEvents(t, ran));
    AloneLeavesTables(hash, s.committed, t, s, ran);
    OnlyMineEnds(s.committed, t, last);
  }

  lemma OnlyMineEnds(base: Tables, t: SessionId, s: State)
    requires OnlyMine(base, t, s)
    ensures Activation.End(s, t, s.committed) == State(base, map[], map[])
  {
    var after := Activation.End(s, t, s.committed);
    assert after.sessions == map[];
    forall k ensures k !in after.locks {
    }
    assert after.locks == map[];
  }

  /** No script gets past a statement that is not possible. */
  lemma StuckScriptFails(hash: string -> int, s: State, ran: Schedule, last: State, rest: Schedule)
    requires Run(hash, s, ran) == Some(last) && rest != [] && Next(hash, last, rest[0].0, rest[0].1).None?
    ensures Run(hash, s, ran + rest).None?
  {
    RunAppend(hash, s, ran, rest);
  }

  lemma SplitAt<T>(a: seq<T>, b: seq<T>)
    requires a < b
    ensures b == a + b[|a|..] && b[|a|..] != [] && b[|a|..][0] == b[|a|]
  {
  }

  /**
   A creation that meets no other session on an idle database commits its rows exactly when its revision is disabled
   or its owner is below ten, and otherwise leaves the database as it was.
   */
  lemma AloneSucceedsIff(hash: string -> int, s: State, t: SessionId, c: Creation, ran: Schedule, own: seq<Event>, last: State,
                         committed: bool, s': State)
    requires Idle(s) && CanRequest(s, c) && PointersResolve(s.committed)
    requires Trace(hash, t, s, ran, own, last) && Alone(t, ran)
    requires if committed then own + [Event.Commit] == ScriptEvents(c) else Stuck(hash, last, t, c, own)
    requires Next(hash, last, t, if committed then Event.Commit else Event.Rollback) == Some(s')
    ensures committed <==> !c.enabled || |ActiveSet(s.committed, c.tenant, c.subject)| < MAX_ACTIVE
    ensures s' == if committed then State(Created(s.committed, c), map[], map[]) else s
  {
    RanIsRun(hash, s, ran, last);
    CreationSucceedsBelowLimit(hash, s, t, c);
    if committed {
      assert own < ScriptEvents(c);
    }
    AloneFollowsScript(t, c, ran);
    OwnIsAll(t, ran);
    if committed {
      CommitEndsScript(hash, s, t, c, ran, last);
    } else {
      SplitAt(ran, CreateScript(t, c));
      StuckScriptFails(hash, s, ran, last, CreateScript(t, c)[|ran|..]);
      AloneRollsBack(hash, s, t, c, ran, last);
    }
  }

  lemma CommitEndsScript(hash: string -> int, s: State, t: SessionId, c: Creation, ran: Schedule, last: State)
    requires Run(hash, s, ran) == Some(last) && ran < CreateScript(t, c)
    requires |ran| + 1 == |ScriptEvents(c)| && CreateScript(t, c)[|ran|] == (t, Event.Commit)
    ensures Run(hash, s, CreateScript(t, c)) == Next(hash, last, t, Event.Commit)
  {
    ScriptOwnsEvents(t, c);
    assert Alone(t, CreateScript(t, c));
    OwnIsAll(t, CreateScript(t, c));
    assert CreateScript(t, c) == ran + [(t, Event.Commit)];
    RunOneMore(hash, s, ran, t, Event.Commit);
  }

  /** Committed revisions and rule identities outlive a trace and its end. */
  lemma EndEvolves(hash: string -> int, t: SessionId, s: State, ran: Schedule, own: seq<Event>, last: State, publish: bool, s': State)
    requires Inv(hash, s) && Trace(hash, t, s, ran, own, last)
    requires Next(hash, last, t, if publish then Event.Commit else Event.Rollback) == Some(s')
    ensures Evolves(s.committed, s'.committed)
  {
    RanIsRun(hash, s, ran, last);
    RunKeepsInv(hash, s, ran);
    InvHasRows(hash, s);
    InvHasRows(hash, last);
    RunEvolves(hash, s, ran);
    NextEvolves(hash, last, t, if publish then Event.Commit else Event.Rollback);
  }
}
