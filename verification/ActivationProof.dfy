/**
 The activation limit is an invariant of every interleaving: one lemma per kind of step,
 then runs of any length with any abort pattern and any lock hash.
 */
module ActivationProof {
  import opened Wrappers
  import opened Uuids
  import opened Activation

  lemma SubsetSize<T>(a: set<T>, b: set<T>)
    requires a <= b
    ensures |a| <= |b|
  {
    if a == {} {
    } else {
      var x :| x in a;
      SubsetSize(a - {x}, b - {x});
    }
  }

  // ---------------------------------------------------------------- what a held or missing lock means

  /** Without the lock a session has activated nothing for the owner, so it sees no more than what is committed. */
  lemma UnlockedViewAddsNothing(hash: string -> int, s: State, t: SessionId, tenant: Uuid, owner: string)
    requires Inv(hash, s) && t in s.sessions && !Holds(hash, s, t, tenant, owner)
    ensures ActiveSet(View(s, t), tenant, owner) <= ActiveSet(s.committed, tenant, owner)
  {
    var db := View(s, t);
    forall id | id in ActiveSet(db, tenant, owner) ensures id in ActiveSet(s.committed, tenant, owner) {
      assert id !in s.sessions[t].writes.rules;
      assert db.rules[id] == s.committed.rules[id];
    }
  }

  /** Every owner is within the limit in every session's view, locked or not. */
  lemma ViewWithinLimit(hash: string -> int, s: State, t: SessionId)
    requires Inv(hash, s) && t in s.sessions
    ensures WithinLimit(View(s, t))
  {
    forall tenant: Uuid, owner: string ensures |ActiveSet(View(s, t), tenant, owner)| <= MAX_ACTIVE {
      if !Holds(hash, s, t, tenant, owner) {
        UnlockedViewAddsNothing(hash, s, t, tenant, owner);
        SubsetSize(ActiveSet(View(s, t), tenant, owner), ActiveSet(s.committed, tenant, owner));
      }
    }
  }

  // ---------------------------------------------------------------- steps that touch one session only

  /** The session would share no row and no new revision with any other session. */
  ghost predicate Apart(s: State, t: SessionId, x: Session) {
    forall u :: u in s.sessions && u != t ==>
      x.rowLocks !! s.sessions[u].rowLocks && x.writes.revisions.Keys !! s.sessions[u].writes.revisions.Keys
  }

  predicate AddsLocksFor(s: State, locks: map<int, SessionId>, t: SessionId) {
    && (forall k :: k in s.locks ==> k in locks && locks[k] == s.locks[k])
    && (forall k :: k in locks && k !in s.locks ==> locks[k] == t)
  }

  lemma OtherSessionFits(hash: string -> int, s: State, s': State, u: SessionId)
    requires u in s.sessions && u in s'.sessions && s'.sessions[u] == s.sessions[u]
    requires s'.committed == s.committed && SessionFits(hash, s, u)
    requires forall k :: (k in s'.locks && s'.locks[k] == u) <==> (k in s.locks && s.locks[k] == u)
    ensures SessionFits(hash, s', u)
  {
    assert View(s', u) == View(s, u);
    assert forall tenant: Uuid, owner: string :: Holds(hash, s', u, tenant, owner) <==> Holds(hash, s, u, tenant, owner);
  }

  /** A step that replaces one session and adds locks for it keeps the invariant if the session fits. */
  lemma LocalStep(hash: string -> int, s: State, t: SessionId, x: Session, locks: map<int, SessionId>)
    requires Inv(hash, s) && AddsLocksFor(s, locks, t) && Apart(s, t, x)
    requires SessionFits(hash, At(s.(locks := locks), t, x), t)
    ensures Inv(hash, At(s.(locks := locks), t, x))
  {
    var s' := At(s.(locks := locks), t, x);
    forall u | u in s'.sessions ensures SessionFits(hash, s', u) {
      if u != t {
        OtherSessionFits(hash, s, s', u);
      }
    }
    assert Separate(s') by {
      forall v, u | v in s'.sessions && u in s'.sessions && v != u
        ensures s'.sessions[v].rowLocks !! s'.sessions[u].rowLocks
        ensures s'.sessions[v].writes.revisions.Keys !! s'.sessions[u].writes.revisions.Keys
      {
        if v != t && u != t {
          assert s'.sessions[v] == s.sessions[v] && s'.sessions[u] == s.sessions[u];
        }
      }
    }
  }

  lemma BeginKeepsInv(hash: string -> int, s: State, t: SessionId, ctx: Context)
    requires Inv(hash, s) && t !in s.sessions
    ensures Inv(hash, At(s, t, Session(ctx, Tables(map[], map[]), {}, Ready)))
  {
    var x := Session(ctx, Tables(map[], map[]), {}, Ready);
    var s' := At(s, t, x);
    assert View(s', t) == s.committed;
    assert forall tenant: Uuid, owner: string :: !Holds(hash, s', t, tenant, owner);
    LocalStep(hash, s, t, x, s.locks);
  }

  /** Changing only where a session stands: what must be checked is that the new point fits. */
  lemma PointChange(hash: string -> int, s: State, t: SessionId, point: Point)
    requires Inv(hash, s) && t in s.sessions
    requires PointFits(hash, At(s, t, s.sessions[t].(point := point)), t)
    ensures Inv(hash, At(s, t, s.sessions[t].(point := point)))
  {
    var x := s.sessions[t].(point := point);
    assert SessionFits(hash, s, t);
    ViewWithinLimit(hash, s, t);
    SameViewFits(hash, s, At(s, t, x), t);
    LocalStep(hash, s, t, x, s.locks);
  }

  /** A step that keeps a session's rows and view, and loses no lock, keeps all but the point. */
  lemma SameViewFits(hash: string -> int, s: State, s': State, t: SessionId)
    requires t in s.sessions && t in s'.sessions
    requires WritesFit(s, t) && ActivationsLocked(hash, s, t) && WithinLimit(View(s, t))
    requires s'.committed == s.committed && s'.sessions[t].writes == s.sessions[t].writes
    requires s.sessions[t].rowLocks <= s'.sessions[t].rowLocks <= View(s, t).rules.Keys
    requires forall k :: k in s.locks && s.locks[k] == t ==> k in s'.locks && s'.locks[k] == t
    ensures WritesFit(s', t) && ActivationsLocked(hash, s', t) && LockedViewsWithinLimit(hash, s', t)
  {
    assert View(s', t) == View(s, t);
  }

  lemma NewRuleChangesNoActivity(db: Tables, db': Tables, id: Uuid, row: Rule)
    requires id !in db.rules && row.active.None?
    requires db'.rules == db.rules[id := row] && db'.revisions == db.revisions
    ensures forall other :: EnabledActive(db', other) <==> EnabledActive(db, other)
    ensures forall tenant: Uuid, owner: string :: ActiveSet(db', tenant, owner) == ActiveSet(db, tenant, owner)
  {
  }

  lemma NewRevisionChangesNoActivity(db: Tables, db': Tables, id: Uuid, row: Revision)
    requires id !in db.revisions && PointersResolve(db)
    requires db'.rules == db.rules && db'.revisions == db.revisions[id := row]
    ensures forall other :: EnabledActive(db', other) <==> EnabledActive(db, other)
    ensures forall tenant: Uuid, owner: string :: ActiveSet(db', tenant, owner) == ActiveSet(db, tenant, owner)
  {
    assert forall other :: other in db.rules && db.rules[other].active.Some? ==> db.rules[other].active.value != id;
    assert forall other :: EnabledActive(db', other) <==> EnabledActive(db, other);
  }

  /** New rows that change no activity leave the session fitting, outside the trigger. */
  lemma SameActivityFits(hash: string -> int, s: State, s': State, t: SessionId)
    requires t in s.sessions && t in s'.sessions && s'.locks == s.locks && s'.sessions[t].point == Ready
    requires ActivationsLocked(hash, s, t) && LockedViewsWithinLimit(hash, s, t) && WritesFit(s', t)
    requires forall other :: EnabledActive(View(s', t), other) <==> EnabledActive(View(s, t), other)
    requires forall tenant: Uuid, owner: string :: ActiveSet(View(s', t), tenant, owner) == ActiveSet(View(s, t), tenant, owner)
    requires forall other :: other in s'.sessions[t].writes.rules && EnabledActive(View(s', t), other) ==>
               other in s.sessions[t].writes.rules && s'.sessions[t].writes.rules[other] == s.sessions[t].writes.rules[other]
    ensures SessionFits(hash, s', t)
  {
    forall tenant: Uuid, owner: string | Holds(hash, s', t, tenant, owner)
      ensures |ActiveSet(View(s', t), tenant, owner)| <= MAX_ACTIVE
    {
      assert Holds(hash, s, t, tenant, owner);
    }
    forall other | other in s'.sessions[t].writes.rules && EnabledActive(View(s', t), other)
      ensures Holds(hash, s', t, s'.sessions[t].writes.rules[other].tenant, s'.sessions[t].writes.rules[other].owner)
    {
      assert EnabledActive(View(s, t), other);
      assert Holds(hash, s, t, s.sessions[t].writes.rules[other].tenant, s.sessions[t].writes.rules[other].owner);
    }
  }

  lemma FreshRowIsApart(hash: string -> int, s: State, t: SessionId, id: Uuid)
    requires Inv(hash, s) && t in s.sessions && IdUnused(s, id)
    ensures forall u :: u in s.sessions && u != t ==>
              id !in s.sessions[u].rowLocks && id !in s.sessions[u].writes.revisions
  {
    forall u | u in s.sessions && u != t ensures id !in s.sessions[u].rowLocks {
      assert SessionFits(hash, s, u);
      assert id !in View(s, u).rules;
    }
  }

  lemma InsertRuleFits(hash: string -> int, s: State, t: SessionId, id: Uuid, row: Rule)
    requires t in s.sessions && SessionFits(hash, s, t) && s.sessions[t].point == Ready
    requires IdUnused(s, id) && row.active.None?
    ensures SessionFits(hash, At(s, t, WithRule(s.sessions[t], id, row)), t)
  {
    var s' := At(s, t, WithRule(s.sessions[t], id, row));
    var db, db' := View(s, t), View(s', t);
    assert db'.rules == db.rules[id := row] && db'.revisions == db.revisions;
    NewRuleChangesNoActivity(db, db', id, row);
    assert WritesFit(s', t);
    assert !EnabledActive(db', id);
    SameActivityFits(hash, s, s', t);
  }

  lemma InsertRuleKeepsInv(hash: string -> int, s: State, t: SessionId, id: Uuid, row: Rule)
    requires Inv(hash, s) && t in s.sessions && s.sessions[t].point == Ready
    requires IdUnused(s, id) && row.active.None?
    ensures Inv(hash, At(s, t, WithRule(s.sessions[t], id, row)))
  {
    InsertRuleFits(hash, s, t, id, row);
    FreshRowIsApart(hash, s, t, id);
    LocalStep(hash, s, t, WithRule(s.sessions[t], id, row), s.locks);
  }

  lemma InsertRevisionFits(hash: string -> int, s: State, t: SessionId, id: Uuid, row: Revision)
    requires t in s.sessions && SessionFits(hash, s, t) && s.sessions[t].point == Ready
    requires IdUnused(s, id)
    ensures SessionFits(hash, At(s, t, WithRevision(s.sessions[t], id, row)), t)
  {
    var s' := At(s, t, WithRevision(s.sessions[t], id, row));
    var db, db' := View(s, t), View(s', t);
    assert db'.rules == db.rules && db'.revisions == db.revisions[id := row];
    NewRevisionChangesNoActivity(db, db', id, row);
    assert WritesFit(s', t);
    SameActivityFits(hash, s, s', t);
  }

  lemma InsertRevisionKeepsInv(hash: string -> int, s: State, t: SessionId, id: Uuid, row: Revision)
    requires Inv(hash, s) && t in s.sessions && s.sessions[t].point == Ready
    requires IdUnused(s, id)
    ensures Inv(hash, At(s, t, WithRevision(s.sessions[t], id, row)))
  {
    InsertRevisionFits(hash, s, t, id, row);
    FreshRowIsApart(hash, s, t, id);
    LocalStep(hash, s, t, WithRevision(s.sessions[t], id, row), s.locks);
  }

  lemma RowLockFits(hash: string -> int, s: State, t: SessionId, id: Uuid)
    requires t in s.sessions && SessionFits(hash, s, t) && s.sessions[t].point == Ready
    requires id in View(s, t).rules && WithinLimit(View(s, t))
    ensures SessionFits(hash, At(s, t, s.sessions[t].(rowLocks := s.sessions[t].rowLocks + {id})), t)
  {
    SameViewFits(hash, s, At(s, t, s.sessions[t].(rowLocks := s.sessions[t].rowLocks + {id})), t);
  }

  lemma RowLockKeepsInv(hash: string -> int, s: State, t: SessionId, id: Uuid)
    requires Inv(hash, s) && t in s.sessions && s.sessions[t].point == Ready
    requires id in View(s, t).rules && !RowLockedByOther(s, t, id)
    ensures Inv(hash, At(s, t, s.sessions[t].(rowLocks := s.sessions[t].rowLocks + {id})))
  {
    var x := s.sessions[t].(rowLocks := s.sessions[t].rowLocks + {id});
    ViewWithinLimit(hash, s, t);
    RowLockFits(hash, s, t, id);
    assert Apart(s, t, x);
    LocalStep(hash, s, t, x, s.locks);
  }

  lemma TakeLockFits(hash: string -> int, s: State, t: SessionId)
    requires t in s.sessions && SessionFits(hash, s, t) && WithinLimit(View(s, t))
    requires Next(hash, s, t, TakeLock).Some?
    ensures SessionFits(hash, Next(hash, s, t, TakeLock).value, t)
  {
    var s' := Next(hash, s, t, TakeLock).value;
    SameViewFits(hash, s, s', t);
    assert View(s', t) == View(s, t);
  }

  lemma TakeLockKeepsInv(hash: string -> int, s: State, t: SessionId)
    requires Inv(hash, s) && t in s.sessions
    requires Next(hash, s, t, TakeLock).Some?
    ensures Inv(hash, Next(hash, s, t, TakeLock).value)
  {
    var s' := Next(hash, s, t, TakeLock).value;
    ViewWithinLimit(hash, s, t);
    TakeLockFits(hash, s, t);
    assert s' == At(s.(locks := s'.locks), t, s'.sessions[t]);
    LocalStep(hash, s, t, s'.sessions[t], s'.locks);
  }

  // ---------------------------------------------------------------- writing the pointer

  /** A pointer write changes the activity of one rule only. */
  lemma PointerWriteEffect(s: State, t: SessionId, id: Uuid, target: Option<Uuid>, tenant: Uuid, owner: string)
    requires t in s.sessions && id in View(s, t).rules
    ensures var db, db' := View(s, t), View(WritePointer(s, t, id, target), t);
            && ActiveSet(db', tenant, owner) - {id} == ActiveSet(db, tenant, owner) - {id}
            && (!EnabledActive(db', id) ==> id !in ActiveSet(db', tenant, owner))
            && (!(db.rules[id].tenant == tenant && db.rules[id].owner == owner) ==> id !in ActiveSet(db', tenant, owner))
  {
    var db, db' := View(s, t), View(WritePointer(s, t, id, target), t);
    assert db'.rules == db.rules[id := db.rules[id].(active := target)];
    assert db'.revisions == db.revisions;
    assert forall other :: other != id ==> (EnabledActive(db', other) <==> EnabledActive(db, other));
  }

  /** The size of an owner's active set after a pointer write, from the size without the rule. */
  lemma PointerWriteSize(s: State, t: SessionId, id: Uuid, target: Option<Uuid>, tenant: Uuid, owner: string)
    requires t in s.sessions && id in View(s, t).rules
    requires |ActiveSet(View(s, t), tenant, owner)| <= MAX_ACTIVE
    requires EnabledActive(View(WritePointer(s, t, id, target), t), id)
             && View(s, t).rules[id].tenant == tenant && View(s, t).rules[id].owner == owner
             ==> |ActiveSet(View(s, t), tenant, owner) - {id}| < MAX_ACTIVE
    ensures |ActiveSet(View(WritePointer(s, t, id, target), t), tenant, owner)| <= MAX_ACTIVE
  {
    var before, after := ActiveSet(View(s, t), tenant, owner), ActiveSet(View(WritePointer(s, t, id, target), t), tenant, owner);
    PointerWriteEffect(s, t, id, target, tenant, owner);
    if id in after {
      assert after == (before - {id}) + {id};
    } else {
      assert after == before - {id};
      SubsetSize(before - {id}, before);
    }
  }

  /** When a pointer write may leave the rule enabled: the owner's lock is held and nine or fewer others are active. */
  predicate MayActivate(hash: string -> int, s: State, t: SessionId, id: Uuid)
    requires t in s.sessions && id in View(s, t).rules
  {
    var row := View(s, t).rules[id];
    Holds(hash, s, t, row.tenant, row.owner) && |ActiveSet(View(s, t), row.tenant, row.owner) - {id}| < MAX_ACTIVE
  }

  lemma PointerWriteLocked(hash: string -> int, s: State, t: SessionId, id: Uuid, target: Option<Uuid>)
    requires t in s.sessions && id in View(s, t).rules && ActivationsLocked(hash, s, t)
    requires EnabledActive(View(WritePointer(s, t, id, target), t), id) ==> MayActivate(hash, s, t, id)
    ensures ActivationsLocked(hash, WritePointer(s, t, id, target), t)
  {
    var s' := WritePointer(s, t, id, target);
    var db, db' := View(s, t), View(s', t);
    assert db'.rules == db.rules[id := db.rules[id].(active := target)];
    forall other | other in s'.sessions[t].writes.rules && EnabledActive(db', other)
      ensures Holds(hash, s', t, s'.sessions[t].writes.rules[other].tenant, s'.sessions[t].writes.rules[other].owner)
    {
      if other == id {
        assert s'.sessions[t].writes.rules[other] == db.rules[id].(active := target);
      } else {
        assert EnabledActive(db, other);
      }
    }
  }

  lemma PointerWriteLimit(hash: string -> int, s: State, t: SessionId, id: Uuid, target: Option<Uuid>)
    requires t in s.sessions && id in View(s, t).rules && LockedViewsWithinLimit(hash, s, t)
    requires EnabledActive(View(WritePointer(s, t, id, target), t), id) ==> MayActivate(hash, s, t, id)
    ensures LockedViewsWithinLimit(hash, WritePointer(s, t, id, target), t)
  {
    var s' := WritePointer(s, t, id, target);
    forall tenant: Uuid, owner: string | Holds(hash, s', t, tenant, owner)
      ensures |ActiveSet(View(s', t), tenant, owner)| <= MAX_ACTIVE
    {
      assert Holds(hash, s, t, tenant, owner);
      PointerWriteSize(s, t, id, target, tenant, owner);
    }
  }

  lemma PointerWriteFits(hash: string -> int, s: State, t: SessionId, id: Uuid, target: Option<Uuid>)
    requires t in s.sessions && WritesFit(s, t)
    requires id in s.sessions[t].rowLocks && id in View(s, t).rules
    requires target.Some? ==> target.value in View(s, t).revisions
    ensures WritesFit(WritePointer(s, t, id, target), t)
  {
    var s' := WritePointer(s, t, id, target);
    var db, db' := View(s, t), View(s', t);
    assert db'.rules == db.rules[id := db.rules[id].(active := target)];
    assert db'.revisions == db.revisions;
  }

  lemma WritePointerFits(hash: string -> int, s: State, t: SessionId, id: Uuid, target: Option<Uuid>)
    requires t in s.sessions && SessionFits(hash, s, t) && PointerReady(hash, s, t, id, target)
    ensures SessionFits(hash, WritePointer(s, t, id, target), t)
  {
    var s' := WritePointer(s, t, id, target);
    PointerWriteFits(hash, s, t, id, target);
    PointerWriteLocked(hash, s, t, id, target);
    PointerWriteLimit(hash, s, t, id, target);
    assert View(s', t).revisions == View(s, t).revisions;
    assert View(s', t).rules[id] == View(s, t).rules[id].(active := target);
  }

  predicate PointerReady(hash: string -> int, s: State, t: SessionId, id: Uuid, target: Option<Uuid>)
    requires t in s.sessions
  {
    var db := View(s, t);
    && id in s.sessions[t].rowLocks && id in db.rules
    && (target.Some? ==> target.value in db.revisions && VisibleRule(s.sessions[t].ctx, db.rules[id])
                         && Holds(hash, s, t, db.rules[id].tenant, db.rules[id].owner))
    && (EnabledActive(View(WritePointer(s, t, id, target), t), id) ==> MayActivate(hash, s, t, id))
  }

  lemma WritePointerKeepsInv(hash: string -> int, s: State, t: SessionId, id: Uuid, target: Option<Uuid>)
    requires Inv(hash, s) && t in s.sessions && PointerReady(hash, s, t, id, target)
    ensures Inv(hash, WritePointer(s, t, id, target))
  {
    WritePointerFits(hash, s, t, id, target);
    LocalStep(hash, s, t, WritePointer(s, t, id, target).sessions[t], s.locks);
  }

  /** When the trigger reads the revision the pointer moves to, the session sees it. */
  predicate SeesTarget(s: State, t: SessionId, e: Event) {
    e.ReadRevision? && t in s.sessions && s.sessions[t].point.HasLock? ==> s.sessions[t].point.revision in View(s, t).revisions
  }

  lemma MovePointerKeepsInv(hash: string -> int, s: State, t: SessionId, id: Uuid, target: Option<Uuid>)
    requires Inv(hash, s) && t in s.sessions
    requires Next(hash, s, t, MovePointer(id, target)).Some?
    ensures Inv(hash, Next(hash, s, t, MovePointer(id, target)).value)
  {
    var x := s.sessions[t];
    var db := View(s, t);
    if id in db.rules && VisibleRule(x.ctx, db.rules[id]) {
      RowLockKeepsInv(hash, s, t, id);
      var locked := At(s, t, x.(rowLocks := x.rowLocks + {id}));
      assert View(locked, t) == db;
      if target.None? {
        WritePointerKeepsInv(hash, locked, t, id, None);
      } else {
        PointChange(hash, locked, t, WantsLock(id, target.value));
      }
    }
  }

  /** A revision the trigger does not read as enabled cannot make its rule active. */
  lemma DisabledIsReady(hash: string -> int, s: State, t: SessionId)
    requires t in s.sessions && SessionFits(hash, s, t) && s.sessions[t].point.HasLock?
    requires s.sessions[t].point.rule in View(s, t).rules && s.sessions[t].point.revision in View(s, t).revisions
    requires !ReadsEnabled(s.sessions[t].ctx, View(s, t), s.sessions[t].point.rule, s.sessions[t].point.revision)
    ensures PointerReady(hash, s, t, s.sessions[t].point.rule, Some(s.sessions[t].point.revision))
  {
    var id, v := s.sessions[t].point.rule, s.sessions[t].point.revision;
    FilteredCountIsTrueCount(s.sessions[t].ctx, View(s, t), id);
    var db' := View(WritePointer(s, t, id, Some(v)), t);
    assert db'.rules[id] == View(s, t).rules[id].(active := Some(v));
    assert db'.revisions == View(s, t).revisions;
  }

  lemma ReadRevisionKeepsInv(hash: string -> int, s: State, t: SessionId)
    requires Inv(hash, s) && t in s.sessions && SeesTarget(s, t, ReadRevision)
    requires Next(hash, s, t, ReadRevision).Some?
    ensures Inv(hash, Next(hash, s, t, ReadRevision).value)
  {
    var x := s.sessions[t];
    if ReadsEnabled(x.ctx, View(s, t), x.point.rule, x.point.revision) {
      PointChange(hash, s, t, MustCount(x.point.rule, x.point.revision));
    } else {
      DisabledIsReady(hash, s, t);
      WritePointerKeepsInv(hash, s, t, x.point.rule, Some(x.point.revision));
    }
  }

  lemma CountActiveKeepsInv(hash: string -> int, s: State, t: SessionId)
    requires Inv(hash, s) && t in s.sessions
    requires Next(hash, s, t, CountActive).Some?
    ensures Inv(hash, Next(hash, s, t, CountActive).value)
  {
    var x := s.sessions[t];
    assert SessionFits(hash, s, t);
    FilteredCountIsTrueCount(x.ctx, View(s, t), x.point.rule);
    PointChange(hash, s, t, Counted(x.point.rule, x.point.revision, |CountedRules(x.ctx, View(s, t), x.point.rule)|));
  }

  lemma DecideKeepsInv(hash: string -> int, s: State, t: SessionId)
    requires Inv(hash, s) && t in s.sessions
    requires Next(hash, s, t, Decide).Some?
    ensures Inv(hash, Next(hash, s, t, Decide).value)
  {
    var x := s.sessions[t];
    assert SessionFits(hash, s, t);
    if x.point.others >= MAX_ACTIVE {
      PointChange(hash, s, t, Failed);
    } else {
      WritePointerKeepsInv(hash, s, t, x.point.rule, Some(x.point.revision));
    }
  }

  lemma CheckReferenceKeepsInv(hash: string -> int, s: State, t: SessionId)
    requires Inv(hash, s) && t in s.sessions
    requires Next(hash, s, t, CheckReference).Some?
    ensures Inv(hash, Next(hash, s, t, CheckReference).value)
  {
    var x := s.sessions[t];
    assert SessionFits(hash, s, t);
    if x.point.revision in View(s, t).revisions && View(s, t).revisions[x.point.revision].tenant == View(s, t).rules[x.point.rule].tenant {
      PointChange(hash, s, t, Ready);
    } else {
      PointChange(hash, s, t, Failed);
    }
  }

  // ---------------------------------------------------------------- ending a transaction

  /** After `t` commits, another session sees its own rows, then those of `t`, then the old committed ones. */
  lemma ViewAfterCommit(s: State, t: SessionId, u: SessionId)
    requires t in s.sessions && u in s.sessions && t != u
    ensures var s' := End(s, t, View(s, t));
            u in s'.sessions && s'.sessions[u] == s.sessions[u]
            && View(s', u) == Overlay(View(s, t), s.sessions[u].writes)
  {
  }

  /** A rule that `t` leaves alone and that a lock of `u` covers looks to `u` as before. */
  lemma LockedRuleUntouched(hash: string -> int, s: State, t: SessionId, u: SessionId, id: Uuid)
    requires Inv(hash, s) && t in s.sessions && u in s.sessions && t != u
    requires var db' := Overlay(View(s, t), s.sessions[u].writes);
             EnabledActive(db', id) && Holds(hash, s, u, db'.rules[id].tenant, db'.rules[id].owner)
    ensures EnabledActive(View(s, u), id) && View(s, u).rules[id] == Overlay(View(s, t), s.sessions[u].writes).rules[id]
  {
    var db' := Overlay(View(s, t), s.sessions[u].writes);
    var v := db'.rules[id].active.value;
    assert SessionFits(hash, s, t) && SessionFits(hash, s, u);
    if id in s.sessions[u].writes.rules {
      assert v in View(s, u).revisions;
      assert v !in s.sessions[t].writes.revisions;
    } else {
      assert id in View(s, t).rules && v in View(s, t).revisions;
      assert v !in s.sessions[u].writes.revisions by {
        assert v in s.committed.revisions || v in s.sessions[t].writes.revisions;
      }
      assert EnabledActive(View(s, t), id);
      assert id !in s.sessions[t].writes.rules;
      assert v in s.committed.revisions;
    }
  }

  /** What another session sees of an owner it holds the lock for can only shrink when `t` commits. */
  lemma CommitShrinksLockedViews(hash: string -> int, s: State, t: SessionId, u: SessionId, tenant: Uuid, owner: string)
    requires Inv(hash, s) && t in s.sessions && u in s.sessions && t != u
    requires Holds(hash, s, u, tenant, owner)
    ensures var s' := End(s, t, View(s, t));
            ActiveSet(View(s', u), tenant, owner) <= ActiveSet(View(s, u), tenant, owner)
  {
    ViewAfterCommit(s, t, u);
    var db' := Overlay(View(s, t), s.sessions[u].writes);
    forall id | id in ActiveSet(db', tenant, owner) ensures id in ActiveSet(View(s, u), tenant, owner) {
      LockedRuleUntouched(hash, s, t, u, id);
    }
  }

  lemma CommitKeepsLimits(hash: string -> int, s: State, t: SessionId, u: SessionId)
    requires Inv(hash, s) && t in s.sessions && u in s.sessions && t != u
    ensures LockedViewsWithinLimit(hash, End(s, t, View(s, t)), u)
  {
    var s' := End(s, t, View(s, t));
    assert SessionFits(hash, s, u);
    forall tenant: Uuid, owner: string | Holds(hash, s', u, tenant, owner)
      ensures |ActiveSet(View(s', u), tenant, owner)| <= MAX_ACTIVE
    {
      assert Holds(hash, s, u, tenant, owner);
      CommitShrinksLockedViews(hash, s, t, u, tenant, owner);
      SubsetSize(ActiveSet(View(s', u), tenant, owner), ActiveSet(View(s, u), tenant, owner));
    }
  }

  lemma CommitKeepsPoint(hash: string -> int, s: State, t: SessionId, u: SessionId)
    requires Inv(hash, s) && t in s.sessions && u in s.sessions && t != u
    ensures PointFits(hash, End(s, t, View(s, t)), u)
  {
    var s' := End(s, t, View(s, t));
    var point := s.sessions[u].point;
    assert SessionFits(hash, s, t) && SessionFits(hash, s, u);
    ViewAfterCommit(s, t, u);
    if !point.Ready? && !point.Failed? {
      var row := View(s, u).rules[point.rule];
      assert View(s', u).rules[point.rule] == row;
      assert Holds(hash, s, u, row.tenant, row.owner) ==> Holds(hash, s', u, row.tenant, row.owner);
      if point.Counted? {
        CommitShrinksLockedViews(hash, s, t, u, row.tenant, row.owner);
        SubsetSize(ActiveSet(View(s', u), row.tenant, row.owner) - {point.rule}, ActiveSet(View(s, u), row.tenant, row.owner) - {point.rule});
      }
    }
  }

  lemma CommitKeepsWritesFit(hash: string -> int, s: State, t: SessionId, u: SessionId)
    requires Inv(hash, s) && t in s.sessions && u in s.sessions && t != u
    ensures var s' := End(s, t, View(s, t)); WritesFit(s', u)
  {
    var s' := End(s, t, View(s, t));
    var db' := View(s', u);
    assert SessionFits(hash, s, t) && SessionFits(hash, s, u);
    assert s'.sessions[u] == s.sessions[u];
    forall id | id in db'.rules && db'.rules[id].active.Some? ensures db'.rules[id].active.value in db'.revisions {
      if id in s.sessions[u].writes.rules {
        assert db'.rules[id] == View(s, u).rules[id];
      } else {
        assert db'.rules[id] == View(s, t).rules[id];
      }
    }
  }

  lemma CommitKeepsActivations(hash: string -> int, s: State, t: SessionId, u: SessionId)
    requires Inv(hash, s) && t in s.sessions && u in s.sessions && t != u
    ensures var s' := End(s, t, View(s, t)); ActivationsLocked(hash, s', u)
  {
    var s' := End(s, t, View(s, t));
    assert SessionFits(hash, s, t) && SessionFits(hash, s, u);
    forall id | id in s'.sessions[u].writes.rules && EnabledActive(View(s', u), id)
      ensures Holds(hash, s', u, s'.sessions[u].writes.rules[id].tenant, s'.sessions[u].writes.rules[id].owner)
    {
      var v := View(s', u).rules[id].active.value;
      assert View(s, u).rules[id] == View(s', u).rules[id];
      assert v in View(s, u).revisions && v !in s.sessions[t].writes.revisions;
      assert EnabledActive(View(s, u), id);
    }
  }

  lemma CommitKeepsInv(hash: string -> int, s: State, t: SessionId)
    requires Inv(hash, s) && t in s.sessions
    ensures Inv(hash, End(s, t, View(s, t)))
  {
    var s' := End(s, t, View(s, t));
    assert SessionFits(hash, s, t);
    ViewWithinLimit(hash, s, t);
    forall u | u in s'.sessions ensures SessionFits(hash, s', u) {
      CommitKeepsWritesFit(hash, s, t, u);
      CommitKeepsActivations(hash, s, t, u);
      CommitKeepsLimits(hash, s, t, u);
      CommitKeepsPoint(hash, s, t, u);
    }
  }

  lemma RollbackKeepsInv(hash: string -> int, s: State, t: SessionId)
    requires Inv(hash, s) && t in s.sessions
    ensures Inv(hash, End(s, t, s.committed))
  {
    var s' := End(s, t, s.committed);
    forall u | u in s'.sessions ensures SessionFits(hash, s', u) {
      assert SessionFits(hash, s, u);
      assert View(s', u) == View(s, u);
      assert forall tenant: Uuid, owner: string :: Holds(hash, s', u, tenant, owner) <==> Holds(hash, s, u, tenant, owner);
    }
  }

  // ---------------------------------------------------------------- every step, every run

  lemma NextKeepsInv(hash: string -> int, s: State, t: SessionId, e: Event)
    requires Inv(hash, s) && SeesTarget(s, t, e) && Next(hash, s, t, e).Some?
    ensures Inv(hash, Next(hash, s, t, e).value)
  {
    match e
    case Begin(ctx) => BeginKeepsInv(hash, s, t, ctx);
    case InsertRule(id, tenant, owner) =>
      var row := Rule(tenant, owner, None);
      if !VisibleRule(s.sessions[t].ctx, row) || !(1 <= |owner| <= 256) {
        PointChange(hash, s, t, Failed);
      } else {
        InsertRuleKeepsInv(hash, s, t, id, row);
      }
    case InsertRevision(id, tenant, rule, enabled) =>
      var db := View(s, t);
      if tenant == s.sessions[t].ctx.tenant && rule in db.rules && db.rules[rule].tenant == tenant && VisibleRule(s.sessions[t].ctx, db.rules[rule]) {
        InsertRevisionKeepsInv(hash, s, t, id, Revision(tenant, rule, enabled));
      } else {
        PointChange(hash, s, t, Failed);
      }
    case MovePointer(id, target) => MovePointerKeepsInv(hash, s, t, id, target);
    case TakeLock => TakeLockKeepsInv(hash, s, t);
    case Commit => CommitKeepsInv(hash, s, t);
    case Rollback => RollbackKeepsInv(hash, s, t);
    case ReadRevision => ReadRevisionKeepsInv(hash, s, t);
    case CountActive => CountActiveKeepsInv(hash, s, t);
    case Decide => DecideKeepsInv(hash, s, t);
    case CheckReference => CheckReferenceKeepsInv(hash, s, t);
  }

  type Schedule = seq<(SessionId, Event)>

  /** A schedule interleaves the sessions in any order; an impossible step ends it. */
  function Run(hash: string -> int, s: State, schedule: Schedule): Option<State>
    decreases |schedule|
  {
    if schedule == [] then Some(s)
    else match Next(hash, s, schedule[0].0, schedule[0].1)
      case None => None
      case Some(s') => Run(hash, s', schedule[1..])
  }

  const EMPTY := State(Tables(map[], map[]), map[], map[])

  /** Every trigger of the run reads a revision that its session sees by then. */
  predicate TargetsSeen(hash: string -> int, s: State, schedule: Schedule)
    decreases |schedule|
  {
    schedule == [] ||
    (SeesTarget(s, schedule[0].0, schedule[0].1) &&
     match Next(hash, s, schedule[0].0, schedule[0].1)
     case None => true
     case Some(s') => TargetsSeen(hash, s', schedule[1..]))
  }

  lemma {:induction false} RunKeepsInv(hash: string -> int, s: State, schedule: Schedule)
    requires Inv(hash, s) && TargetsSeen(hash, s, schedule) && Run(hash, s, schedule).Some?
    ensures Inv(hash, Run(hash, s, schedule).value)
    decreases |schedule|
  {
    if schedule != [] {
      NextKeepsInv(hash, s, schedule[0].0, schedule[0].1);
      RunKeepsInv(hash, Next(hash, s, schedule[0].0, schedule[0].1).value, schedule[1..]);
    }
  }

  lemma EmptyFits(hash: string -> int)
    ensures Inv(hash, EMPTY)
  {
    forall tenant: Uuid, owner: string ensures ActiveSet(EMPTY.committed, tenant, owner) == {} {
    }
  }

  /** No interleaving, abort pattern or lock hash lets an owner exceed ten enabled active rules. */
  lemma ActiveLimit(hash: string -> int, schedule: Schedule)
    requires Run(hash, EMPTY, schedule).Some? && TargetsSeen(hash, EMPTY, schedule)
    ensures WithinLimit(Run(hash, EMPTY, schedule).value.committed)
  {
    EmptyFits(hash);
    RunKeepsInv(hash, EMPTY, schedule);
  }

  /** Committed revisions are immutable, and a committed rule keeps its tenant and owner. */
  predicate Evolves(db: Tables, db': Tables) {
    && (forall v :: v in db.revisions ==> v in db'.revisions && db'.revisions[v] == db.revisions[v])
    && (forall id :: id in db.rules ==>
          id in db'.rules && db'.rules[id].tenant == db.rules[id].tenant && db'.rules[id].owner == db.rules[id].owner)
  }

  /** Inside the trigger the session holds the row it updates. */
  predicate PointHeld(x: Session) {
    x.point.Ready? || x.point.Failed? || x.point.rule in x.rowLocks
  }

  /** What publication rests on, with or without the limit: rows are held, and no two sessions hold one. */
  ghost predicate RowsInv(s: State) {
    Separate(s) && forall t :: t in s.sessions ==> RowsFit(s, t) && PointHeld(s.sessions[t])
  }

  lemma InvHasRows(hash: string -> int, s: State)
    requires Inv(hash, s)
    ensures RowsInv(s)
  {
    forall t | t in s.sessions ensures RowsFit(s, t) && PointHeld(s.sessions[t]) {
      assert SessionFits(hash, s, t);
    }
  }

  /** A statement that publishes nothing touches one session. */
  lemma StatementFrame(hash: string -> int, s: State, t: SessionId, e: Event)
    requires !e.Commit? && !e.Rollback? && Next(hash, s, t, e).Some?
    ensures var s' := Next(hash, s, t, e).value;
            && s'.committed == s.committed && s'.sessions.Keys == s.sessions.Keys + {t}
            && forall u :: u in s.sessions && u != t ==> s'.sessions[u] == s.sessions[u]
  {
  }

  lemma PointerRowsFit(s: State, t: SessionId, id: Uuid, target: Option<Uuid>)
    requires t in s.sessions && id in View(s, t).rules && RowsFit(s, t) && id in s.sessions[t].rowLocks
    ensures RowsFit(WritePointer(s, t, id, target), t) && PointHeld(WritePointer(s, t, id, target).sessions[t])
  {
  }

  /** The two steps that write the pointer from inside the trigger. */
  lemma DecisionRowsFit(hash: string -> int, s: State, t: SessionId, e: Event)
    requires e.ReadRevision? || e.Decide?
    requires t in s.sessions && RowsFit(s, t) && PointHeld(s.sessions[t]) && Next(hash, s, t, e).Some?
    ensures var s' := Next(hash, s, t, e).value;
            t in s'.sessions && RowsFit(s', t) && PointHeld(s'.sessions[t])
  {
    var x := s.sessions[t];
    var s' := Next(hash, s, t, e).value;
    if s' == WritePointer(s, t, x.point.rule, Some(x.point.revision)) {
      PointerRowsFit(s, t, x.point.rule, Some(x.point.revision));
    } else {
      assert View(s', t) == View(s, t);
    }
  }

  lemma MoveRowsFit(hash: string -> int, s: State, t: SessionId, id: Uuid, target: Option<Uuid>)
    requires t in s.sessions && RowsFit(s, t) && PointHeld(s.sessions[t]) && Next(hash, s, t, MovePointer(id, target)).Some?
    ensures var s' := Next(hash, s, t, MovePointer(id, target)).value;
            t in s'.sessions && RowsFit(s', t) && PointHeld(s'.sessions[t])
  {
    var x := s.sessions[t];
    var locked := At(s, t, x.(rowLocks := x.rowLocks + {id}));
    assert View(locked, t) == View(s, t);
    if Next(hash, s, t, MovePointer(id, target)).value != s && target.None? {
      PointerRowsFit(locked, t, id, None);
    }
  }

  lemma StatementRowsFit(hash: string -> int, s: State, t: SessionId, e: Event)
    requires !e.Commit? && !e.Rollback? && Next(hash, s, t, e).Some?
    requires t in s.sessions ==> RowsFit(s, t) && PointHeld(s.sessions[t])
    ensures var s' := Next(hash, s, t, e).value;
            t in s'.sessions && RowsFit(s', t) && PointHeld(s'.sessions[t])
  {
    match e
    case ReadRevision => DecisionRowsFit(hash, s, t, e);
    case Decide => DecisionRowsFit(hash, s, t, e);
    case MovePointer(id, target) => MoveRowsFit(hash, s, t, id, target);
    case _ =>
  }

  /** A row a statement newly holds was held by nobody, and a revision it inserts is new. */
  lemma StatementTakesFree(hash: string -> int, s: State, t: SessionId, e: Event, u: SessionId)
    requires !e.Commit? && !e.Rollback? && Next(hash, s, t, e).Some?
    requires u in s.sessions && u != t && RowsFit(s, u)
    requires t in s.sessions ==> s.sessions[t].rowLocks !! s.sessions[u].rowLocks
                                 && s.sessions[t].writes.revisions.Keys !! s.sessions[u].writes.revisions.Keys
    ensures t in Next(hash, s, t, e).value.sessions
    ensures Next(hash, s, t, e).value.sessions[t].rowLocks !! s.sessions[u].rowLocks
    ensures Next(hash, s, t, e).value.sessions[t].writes.revisions.Keys !! s.sessions[u].writes.revisions.Keys
  {
  }

  lemma StatementKeepsRows(hash: string -> int, s: State, t: SessionId, e: Event)
    requires RowsInv(s) && !e.Commit? && !e.Rollback? && Next(hash, s, t, e).Some?
    ensures RowsInv(Next(hash, s, t, e).value)
  {
    var s' := Next(hash, s, t, e).value;
    StatementFrame(hash, s, t, e);
    StatementRowsFit(hash, s, t, e);
    forall u | u in s.sessions && u != t
      ensures s'.sessions[t].rowLocks !! s.sessions[u].rowLocks
      ensures s'.sessions[t].writes.revisions.Keys !! s.sessions[u].writes.revisions.Keys
    {
      StatementTakesFree(hash, s, t, e, u);
    }
    OneSessionKeepsRows(s, s', t);
  }

  lemma OneSessionKeepsRows(s: State, s': State, t: SessionId)
    requires RowsInv(s) && s'.committed == s.committed && s'.sessions.Keys == s.sessions.Keys + {t}
    requires forall u :: u in s.sessions && u != t ==> s'.sessions[u] == s.sessions[u]
    requires RowsFit(s', t) && PointHeld(s'.sessions[t])
    requires forall u :: u in s.sessions && u != t ==>
               s'.sessions[t].rowLocks !! s.sessions[u].rowLocks
               && s'.sessions[t].writes.revisions.Keys !! s.sessions[u].writes.revisions.Keys
    ensures RowsInv(s')
  {
    forall u | u in s'.sessions ensures RowsFit(s', u) && PointHeld(s'.sessions[u]) {
      if u != t {
        assert RowsFit(s, u) && View(s', u) == View(s, u);
      }
    }
  }

  lemma CommitKeepsRows(s: State, t: SessionId)
    requires RowsInv(s) && t in s.sessions
    ensures RowsInv(End(s, t, View(s, t)))
  {
    var s' := End(s, t, View(s, t));
    assert RowsFit(s, t);
    forall u | u in s'.sessions ensures RowsFit(s', u) && PointHeld(s'.sessions[u]) {
      assert RowsFit(s, u) && s'.sessions[u] == s.sessions[u];
    }
  }

  lemma RollbackKeepsRows(s: State, t: SessionId)
    requires RowsInv(s) && t in s.sessions
    ensures RowsInv(End(s, t, s.committed))
  {
    var s' := End(s, t, s.committed);
    forall u | u in s'.sessions ensures RowsFit(s', u) && PointHeld(s'.sessions[u]) {
      assert RowsFit(s, u) && View(s', u) == View(s, u);
    }
  }

  lemma NextKeepsRows(hash: string -> int, s: State, t: SessionId, e: Event)
    requires RowsInv(s) && Next(hash, s, t, e).Some?
    ensures RowsInv(Next(hash, s, t, e).value)
  {
    match e
    case Commit => CommitKeepsRows(s, t);
    case Rollback => RollbackKeepsRows(s, t);
    case _ => StatementKeepsRows(hash, s, t, e);
  }

  /** Over every run, whatever its pointer updates see, committed rows persist. */
  lemma {:induction false} RunEvolves(hash: string -> int, s: State, schedule: Schedule)
    requires RowsInv(s) && Run(hash, s, schedule).Some?
    ensures Evolves(s.committed, Run(hash, s, schedule).value.committed)
    decreases |schedule|
  {
    if schedule != [] {
      var (t, e) := schedule[0];
      NextEvolves(hash, s, t, e);
      NextKeepsRows(hash, s, t, e);
      RunEvolves(hash, Next(hash, s, t, e).value, schedule[1..]);
    }
  }

  lemma NextEvolves(hash: string -> int, s: State, t: SessionId, e: Event)
    requires RowsInv(s) && Next(hash, s, t, e).Some?
    ensures Evolves(s.committed, Next(hash, s, t, e).value.committed)
  {
    if e.Commit? {
      assert RowsFit(s, t);
      CommitEvolves(s, t);
    } else {
      OnlyCommitPublishes(hash, s, t, e);
    }
  }

  lemma OnlyCommitPublishes(hash: string -> int, s: State, t: SessionId, e: Event)
    requires !e.Commit? && Next(hash, s, t, e).Some?
    ensures Next(hash, s, t, e).value.committed == s.committed
  {
  }

  lemma CommitEvolves(s: State, t: SessionId)
    requires t in s.sessions && RowsFit(s, t)
    ensures Evolves(s.committed, View(s, t))
  {
  }

  // ---------------------------------------------------------------- transactions that activate their own revisions

  /** The revisions each open transaction has inserted, read off the schedule alone. */
  type Inserted = map<SessionId, set<Uuid>>

  function Record(own: Inserted, t: SessionId, e: Event): Inserted {
    match e
    case Begin(_) => own[t := {}]
    case InsertRevision(id, _, _, _) => if t in own then own[t := own[t] + {id}] else own
    case _ => own
  }

  /** `create_alert_rule` inserts the revision it activates in the same transaction; so does every session here. */
  predicate ActivatesOwn(own: Inserted, schedule: Schedule)
    decreases |schedule|
  {
    schedule == [] ||
    (var (t, e) := schedule[0];
     MovesToOwn(own, t, e) && ActivatesOwn(Record(own, t, e), schedule[1..]))
  }

  /**
   What the schedule says was inserted is in the session's rows, and a pointer that waits to be judged is on one
   of them, unless the session is lost to a failure.
   */
  predicate RecordFits(own: Inserted, s: State) {
    forall t :: t in s.sessions ==> t in own && OwnRecord(own[t], s.sessions[t])
  }

  predicate OwnRecord(inserted: set<Uuid>, x: Session) {
    x.point != Failed ==>
      && (forall id :: id in inserted ==> id in x.writes.revisions)
      && (x.point.WantsLock? || x.point.HasLock? ==> x.point.revision in inserted)
  }

  /** A pointer move names a revision that the session has inserted itself. */
  predicate MovesToOwn(own: Inserted, t: SessionId, e: Event) {
    e.MovePointer? && e.target.Some? ==> t in own && e.target.value in own[t]
  }

  /** A step of one session leaves every other session as it is. */
  lemma NextFrame(hash: string -> int, s: State, t: SessionId, e: Event)
    requires Next(hash, s, t, e).Some?
    ensures var s' := Next(hash, s, t, e).value;
            forall u :: u in s'.sessions && u != t ==> u in s.sessions && s'.sessions[u] == s.sessions[u]
  {
  }

  /** What the session's own statement does to its rows, and to what is known of them. */
  lemma OwnRecordFits(hash: string -> int, own: Inserted, s: State, t: SessionId, e: Event)
    requires t in s.sessions ==> t in own && OwnRecord(own[t], s.sessions[t])
    requires MovesToOwn(own, t, e) && Next(hash, s, t, e).Some? && t in Next(hash, s, t, e).value.sessions
    ensures t in Record(own, t, e) && OwnRecord(Record(own, t, e)[t], Next(hash, s, t, e).value.sessions[t])
  {
  }

  lemma RecordStaysFit(hash: string -> int, own: Inserted, s: State, t: SessionId, e: Event)
    requires RecordFits(own, s) && MovesToOwn(own, t, e) && Next(hash, s, t, e).Some?
    ensures RecordFits(Record(own, t, e), Next(hash, s, t, e).value)
  {
    NextFrame(hash, s, t, e);
    if t in Next(hash, s, t, e).value.sessions {
      OwnRecordFits(hash, own, s, t, e);
    }
    assert forall u :: u != t && u in own ==> u in Record(own, t, e) && Record(own, t, e)[u] == own[u];
  }

  lemma {:induction false} OwnTargetsAreSeen(hash: string -> int, own: Inserted, s: State, schedule: Schedule)
    requires RecordFits(own, s) && ActivatesOwn(own, schedule)
    requires Run(hash, s, schedule).Some?
    ensures TargetsSeen(hash, s, schedule)
    decreases |schedule|
  {
    if schedule != [] {
      var (t, e) := schedule[0];
      RecordStaysFit(hash, own, s, t, e);
      OwnTargetsAreSeen(hash, Record(own, t, e), Next(hash, s, t, e).value, schedule[1..]);
    }
  }

  /** Rule creation, in any number of interleaved transactions, never exceeds the limit. */
  lemma CreationLimit(hash: string -> int, schedule: Schedule)
    requires Run(hash, EMPTY, schedule).Some? && ActivatesOwn(map[], schedule)
    ensures WithinLimit(Run(hash, EMPTY, schedule).value.committed)
  {
    OwnTargetsAreSeen(hash, map[], EMPTY, schedule);
    ActiveLimit(hash, schedule);
  }
}
