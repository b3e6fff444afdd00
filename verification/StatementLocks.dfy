/**
 * One lock per catalogue statement (`queries/rows.py`): a statement object is shared by every
 * thread and carries the session of whoever runs it, so `rows_of` runs it under its own lock.
 * Threads interleave step by step; nothing is assumed about who goes next.
 */
module StatementLocks {
  import opened Facts

  type Thread = nat

  type Statement = nat

  type Session = nat

  type Lock = nat

  /** Where a thread stands in `rows_of`. */
  datatype Phase =
    | Idle
    | Wants(statement: Statement, session: Session)
    | Waiting(statement: Statement, session: Session, lock: Lock)
    | Holding(statement: Statement, session: Session, lock: Lock)
    | Saved(statement: Statement, session: Session, lock: Lock, saved: Option<Session>)
    | Bound(statement: Statement, session: Session, lock: Lock, saved: Option<Session>)
    | Decoded(statement: Statement, session: Session, lock: Lock, saved: Option<Session>, seen: Option<Session>)
    | Restored(statement: Statement, session: Session, lock: Lock)

  predicate Inside(phase: Phase) {
    phase.Holding? || phase.Saved? || phase.Bound? || phase.Decoded? || phase.Restored?
  }

  /** What all threads share, and where each of them is. */
  datatype State = State(
    phases: map<Thread, Phase>,
    registry: map<Statement, Lock>,
    owners: map<Lock, Option<Thread>>,
    bound: map<Statement, Option<Session>>)

  /** `_IN_USE.get(statement)`, or a new lock, under the registry's guard. */
  function LockOf(s: State, statement: Statement): Lock {
    if statement in s.registry then s.registry[statement] else |s.owners|
  }

  function WithLock(s: State, statement: Statement): State {
    if statement in s.registry then s
    else s.(registry := s.registry[statement := |s.owners|], owners := s.owners[|s.owners| := None])
  }

  function At(s: State, t: Thread, phase: Phase): State {
    s.(phases := s.phases[t := phase])
  }

  // ----- The steps

  predicate Starts(s: State, s': State, t: Thread)
    requires t in s.phases
  {
    && s.phases[t].Idle? && s'.phases.Keys == s.phases.Keys && s'.phases[t].Wants?
    && s'.phases[t].statement in s.bound
    && s' == At(s, t, s'.phases[t])
  }

  predicate FindsLock(s: State, s': State, t: Thread)
    requires t in s.phases
  {
    && s.phases[t].Wants?
    && var p := s.phases[t];
       s' == At(WithLock(s, p.statement), t, Waiting(p.statement, p.session, LockOf(s, p.statement)))
  }

  /** `with lock:`; without the lock everybody walks in. */
  predicate Enters(s: State, s': State, t: Thread, locked: bool)
    requires t in s.phases
  {
    && s.phases[t].Waiting? && s.phases[t].lock in s.owners
    && (locked ==> s.owners[s.phases[t].lock].None?)
    && var p := s.phases[t];
       s' == At(s, t, Holding(p.statement, p.session, p.lock)).(owners := s.owners[p.lock := Some(t)])
  }

  /** `_bound_to` reads the value it will put back … */
  predicate Saves(s: State, s': State, t: Thread)
    requires t in s.phases
  {
    && s.phases[t].Holding? && s.phases[t].statement in s.bound
    && var p := s.phases[t];
       s' == At(s, t, Saved(p.statement, p.session, p.lock, s.bound[p.statement]))
  }

  /** … and binds its own session. */
  predicate Binds(s: State, s': State, t: Thread)
    requires t in s.phases
  {
    && s.phases[t].Saved?
    && var p := s.phases[t];
       s' == At(s, t, Bound(p.statement, p.session, p.lock, p.saved)).(bound := s.bound[p.statement := Some(p.session)])
  }

  /** The result is decoded against whatever the statement is bound to now. */
  predicate Decodes(s: State, s': State, t: Thread)
    requires t in s.phases
  {
    && s.phases[t].Bound? && s.phases[t].statement in s.bound
    && var p := s.phases[t];
       s' == At(s, t, Decoded(p.statement, p.session, p.lock, p.saved, s.bound[p.statement]))
  }

  /** The `finally`, also after the execution raised. */
  predicate Restores(s: State, s': State, t: Thread)
    requires t in s.phases
  {
    && (s.phases[t].Bound? || s.phases[t].Decoded?)
    && var p := s.phases[t];
       s' == At(s, t, Restored(p.statement, p.session, p.lock)).(bound := s.bound[p.statement := p.saved])
  }

  predicate Leaves(s: State, s': State, t: Thread)
    requires t in s.phases
  {
    && s.phases[t].Restored?
    && s' == At(s, t, Idle).(owners := s.owners[s.phases[t].lock := None])
  }

  predicate Step(s: State, s': State, t: Thread, locked: bool) {
    t in s.phases
    && (Starts(s, s', t) || FindsLock(s, s', t) || Enters(s, s', t, locked) || Saves(s, s', t) || Binds(s, s', t)
        || Decodes(s, s', t) || Restores(s, s', t) || Leaves(s, s', t))
  }

  /** Before anything ran: every statement as it was declared. */
  ghost predicate Init(s: State, original: map<Statement, Option<Session>>) {
    && (forall t | t in s.phases :: s.phases[t].Idle?)
    && s.registry == map[] && s.owners == map[] && s.bound == original
  }

  ghost predicate Run(states: seq<State>, who: seq<Thread>, locked: bool) {
    && |states| == |who| + 1
    && forall i | 0 <= i < |who| :: Step(states[i], states[i + 1], who[i], locked)
  }

  // ----- What every state of a locked run satisfies

  ghost predicate Numbered(owners: map<Lock, Option<Thread>>) {
    forall lock: Lock :: lock in owners <==> lock < |owners|
  }

  lemma NoneNumbered(owners: map<Lock, Option<Thread>>)
    requires owners == map[]
    ensures Numbered(owners)
  {
    forall lock: Lock ensures lock in owners <==> lock < |owners| {
      assert lock !in owners;
    }
  }

  lemma OneMoreKey(owners: map<Lock, Option<Thread>>, n: Lock)
    requires n !in owners
    ensures |owners[n := None]| == |owners| + 1
  {
    assert owners[n := None].Keys == owners.Keys + {n};
  }

  lemma NumberedGrows(owners: map<Lock, Option<Thread>>)
    requires Numbered(owners)
    ensures |owners| !in owners && Numbered(owners[|owners| := None])
  {
    var n := |owners|;
    assert n !in owners;
    OneMoreKey(owners, n);
  }

  lemma NumberedStays(owners: map<Lock, Option<Thread>>, lock: Lock, owner: Option<Thread>)
    requires Numbered(owners) && lock in owners
    ensures Numbered(owners[lock := owner])
  {
    assert owners[lock := owner].Keys == owners.Keys;
    assert |owners[lock := owner].Keys| == |owners.Keys|;
  }

  /** Locks are numbered in the order they were made, one for each statement. */
  ghost predicate OneLockEach(s: State) {
    && Numbered(s.owners)
    && (forall statement | statement in s.registry :: s.registry[statement] in s.owners)
    && (forall a, b | a in s.registry && b in s.registry && s.registry[a] == s.registry[b] :: a == b)
  }

  /** A thread inside holds its statement's lock, and nobody else does. */
  ghost predicate Held(s: State, t: Thread)
    requires t in s.phases
  {
    var p := s.phases[t];
    && (p.Waiting? || Inside(p) ==>
          p.statement in s.registry && s.registry[p.statement] == p.lock && p.lock in s.owners)
    && (Inside(p) ==> p.lock in s.owners && s.owners[p.lock] == Some(t))
    && (!p.Idle? ==> p.statement in s.bound)
  }

  ghost predicate Owned(s: State, lock: Lock)
    requires lock in s.owners
  {
    s.owners[lock].Some? ==>
      var t := s.owners[lock].value;
      t in s.phases && Inside(s.phases[t]) && s.phases[t].lock == lock
  }

  /** The statement carries its own value, or the session of the one thread inside. */
  ghost predicate Carries(s: State, original: map<Statement, Option<Session>>, t: Thread)
    requires t in s.phases
  {
    var p := s.phases[t];
    && (p.Saved? || p.Bound? || p.Decoded? ==> p.statement in original && p.saved == original[p.statement])
    && (p.Bound? || p.Decoded? ==> p.statement in s.bound && s.bound[p.statement] == Some(p.session))
    && (p.Decoded? ==> p.seen == Some(p.session))
    && (p.Holding? || p.Saved? || p.Restored? ==>
          p.statement in s.bound && p.statement in original && s.bound[p.statement] == original[p.statement])
  }

  /** With its lock free a statement is bound to what it was declared with. */
  ghost predicate AtRest(s: State, original: map<Statement, Option<Session>>, statement: Statement) {
    && statement in s.bound && statement in original
    && ((statement in s.registry ==> s.registry[statement] in s.owners && s.owners[s.registry[statement]].None?) ==>
          s.bound[statement] == original[statement])
  }

  ghost predicate Inv(s: State, original: map<Statement, Option<Session>>) {
    && OneLockEach(s) && s.bound.Keys == original.Keys
    && (forall t {:trigger Held(s, t)} {:trigger s.phases[t]} | t in s.phases :: Held(s, t) && Carries(s, original, t))
    && (forall lock {:trigger Owned(s, lock)} {:trigger s.owners[lock]} | lock in s.owners :: Owned(s, lock))
    && (forall statement {:trigger AtRest(s, original, statement)} {:trigger s.bound[statement]} |
          statement in s.bound :: AtRest(s, original, statement))
  }

  lemma InitIsInv(s: State, original: map<Statement, Option<Session>>)
    requires Init(s, original)
    ensures Inv(s, original)
  {
    NoneNumbered(s.owners);
    forall statement | statement in s.bound ensures AtRest(s, original, statement) {}
    forall t | t in s.phases ensures Held(s, t) && Carries(s, original, t) {}
  }

  lemma StartsKeepsInv(s: State, s': State, t: Thread, original: map<Statement, Option<Session>>)
    requires Inv(s, original) && t in s.phases && Starts(s, s', t)
    ensures Inv(s', original)
  {
    forall u | u in s'.phases ensures Held(s', u) && Carries(s', original, u) {
      assert Held(s, u) && Carries(s, original, u) && Held(s, t) && Carries(s, original, t);
    }
    forall lock | lock in s'.owners ensures Owned(s', lock) {
      assert lock in s.owners ==> Owned(s, lock);
    }
    forall statement | statement in s'.bound ensures AtRest(s', original, statement) {
      assert AtRest(s, original, statement) && Held(s, t) && Carries(s, original, t);
    }
  }

  lemma WithLockIsFair(s: State, statement: Statement)
    requires OneLockEach(s)
    ensures OneLockEach(WithLock(s, statement))
    ensures statement in WithLock(s, statement).registry
          && WithLock(s, statement).registry[statement] == LockOf(s, statement)
    ensures statement !in s.registry ==> LockOf(s, statement) !in s.owners
  {
    NumberedGrows(s.owners);
    var after := WithLock(s, statement);
    assert statement !in s.registry ==> after.owners == s.owners[|s.owners| := None];
    assert Numbered(after.owners);
    forall a, b | a in after.registry && b in after.registry && after.registry[a] == after.registry[b] ensures a == b {
      assert a in s.registry ==> s.registry[a] in s.owners;
      assert b in s.registry ==> s.registry[b] in s.owners;
    }
  }

  lemma FindsLockHeld(s: State, s': State, t: Thread, original: map<Statement, Option<Session>>, u: Thread)
    requires t in s.phases && u in s.phases && FindsLock(s, s', t)
    requires OneLockEach(s) && OneLockEach(s')
    requires Held(s, u) && Carries(s, original, u)
    ensures Held(s', u) && Carries(s', original, u)
  {
    WithLockIsFair(s, s.phases[t].statement);
  }

  lemma FindsLockOwned(s: State, s': State, t: Thread, lock: Lock)
    requires t in s.phases && FindsLock(s, s', t) && OneLockEach(s) && lock in s'.owners
    requires lock in s.owners ==> Owned(s, lock)
    ensures Owned(s', lock)
  {
    WithLockIsFair(s, s.phases[t].statement);
  }

  lemma FindsLockKeepsInv(s: State, s': State, t: Thread, original: map<Statement, Option<Session>>)
    requires Inv(s, original) && t in s.phases && FindsLock(s, s', t)
    ensures Inv(s', original)
  {
    WithLockIsFair(s, s.phases[t].statement);
    assert OneLockEach(s');
    forall u | u in s'.phases ensures Held(s', u) && Carries(s', original, u) {
      assert Held(s, u) && Carries(s, original, u);
      FindsLockHeld(s, s', t, original, u);
    }
    forall lock | lock in s'.owners ensures Owned(s', lock) {
      assert lock in s.owners ==> Owned(s, lock);
      FindsLockOwned(s, s', t, lock);
    }
    forall statement | statement in s'.bound ensures AtRest(s', original, statement) {
      assert AtRest(s, original, statement);
    }
  }

  lemma EntersKeepsInv(s: State, s': State, t: Thread, original: map<Statement, Option<Session>>)
    requires Inv(s, original) && t in s.phases && Enters(s, s', t, true)
    ensures Inv(s', original)
  {
    assert Held(s, t);
    NumberedStays(s.owners, s.phases[t].lock, s'.owners[s.phases[t].lock]);
    forall u | u in s'.phases ensures Held(s', u) && Carries(s', original, u) {
      assert Held(s, u) && Carries(s, original, u) && Held(s, t) && Carries(s, original, t);
    }
    forall lock | lock in s'.owners ensures Owned(s', lock) {
      assert lock in s.owners ==> Owned(s, lock);
    }
    forall statement | statement in s'.bound ensures AtRest(s', original, statement) {
      assert AtRest(s, original, statement) && Held(s, t) && Carries(s, original, t);
    }
  }

  lemma SavesKeepsInv(s: State, s': State, t: Thread, original: map<Statement, Option<Session>>)
    requires Inv(s, original) && t in s.phases && Saves(s, s', t)
    ensures Inv(s', original)
  {
    forall u | u in s'.phases ensures Held(s', u) && Carries(s', original, u) {
      assert Held(s, u) && Carries(s, original, u) && Held(s, t) && Carries(s, original, t);
    }
    forall lock | lock in s'.owners ensures Owned(s', lock) {
      assert lock in s.owners ==> Owned(s, lock);
    }
    forall statement | statement in s'.bound ensures AtRest(s', original, statement) {
      assert AtRest(s, original, statement) && Held(s, t) && Carries(s, original, t);
    }
  }

  lemma BindsKeepsInv(s: State, s': State, t: Thread, original: map<Statement, Option<Session>>)
    requires Inv(s, original) && t in s.phases && Binds(s, s', t)
    ensures Inv(s', original)
  {
    forall u | u in s'.phases ensures Held(s', u) && Carries(s', original, u) {
      assert Held(s, u) && Carries(s, original, u) && Held(s, t) && Carries(s, original, t);
    }
    forall lock | lock in s'.owners ensures Owned(s', lock) {
      assert lock in s.owners ==> Owned(s, lock);
    }
    forall statement | statement in s'.bound ensures AtRest(s', original, statement) {
      assert AtRest(s, original, statement) && Held(s, t) && Carries(s, original, t);
    }
  }

  lemma DecodesKeepsInv(s: State, s': State, t: Thread, original: map<Statement, Option<Session>>)
    requires Inv(s, original) && t in s.phases && Decodes(s, s', t)
    ensures Inv(s', original)
  {
    forall u | u in s'.phases ensures Held(s', u) && Carries(s', original, u) {
      assert Held(s, u) && Carries(s, original, u) && Held(s, t) && Carries(s, original, t);
    }
    forall lock | lock in s'.owners ensures Owned(s', lock) {
      assert lock in s.owners ==> Owned(s, lock);
    }
    forall statement | statement in s'.bound ensures AtRest(s', original, statement) {
      assert AtRest(s, original, statement) && Held(s, t) && Carries(s, original, t);
    }
  }

  lemma RestoresKeepsInv(s: State, s': State, t: Thread, original: map<Statement, Option<Session>>)
    requires Inv(s, original) && t in s.phases && Restores(s, s', t)
    ensures Inv(s', original)
  {
    forall u | u in s'.phases ensures Held(s', u) && Carries(s', original, u) {
      assert Held(s, u) && Carries(s, original, u) && Held(s, t) && Carries(s, original, t);
    }
    forall lock | lock in s'.owners ensures Owned(s', lock) {
      assert lock in s.owners ==> Owned(s, lock);
    }
    forall statement | statement in s'.bound ensures AtRest(s', original, statement) {
      assert AtRest(s, original, statement) && Held(s, t) && Carries(s, original, t);
    }
  }

  lemma LeavesKeepsInv(s: State, s': State, t: Thread, original: map<Statement, Option<Session>>)
    requires Inv(s, original) && t in s.phases && Leaves(s, s', t)
    ensures Inv(s', original)
  {
    assert Held(s, t);
    NumberedStays(s.owners, s.phases[t].lock, s'.owners[s.phases[t].lock]);
    forall u | u in s'.phases ensures Held(s', u) && Carries(s', original, u) {
      assert Held(s, u) && Carries(s, original, u) && Held(s, t) && Carries(s, original, t);
    }
    forall lock | lock in s'.owners ensures Owned(s', lock) {
      assert lock in s.owners ==> Owned(s, lock);
    }
    forall statement | statement in s'.bound ensures AtRest(s', original, statement) {
      assert AtRest(s, original, statement) && Held(s, t) && Carries(s, original, t);
    }
  }

  lemma StepKeepsInv(s: State, s': State, t: Thread, original: map<Statement, Option<Session>>)
    requires Inv(s, original) && Step(s, s', t, true)
    ensures Inv(s', original)
  {
    if Starts(s, s', t) { StartsKeepsInv(s, s', t, original); }
    else if FindsLock(s, s', t) { FindsLockKeepsInv(s, s', t, original); }
    else if Enters(s, s', t, true) { EntersKeepsInv(s, s', t, original); }
    else if Saves(s, s', t) { SavesKeepsInv(s, s', t, original); }
    else if Binds(s, s', t) { BindsKeepsInv(s, s', t, original); }
    else if Decodes(s, s', t) { DecodesKeepsInv(s, s', t, original); }
    else if Restores(s, s', t) { RestoresKeepsInv(s, s', t, original); }
    else { LeavesKeepsInv(s, s', t, original); }
  }

  lemma {:induction false} RunKeepsInv(states: seq<State>, who: seq<Thread>, original: map<Statement,
        Option<Session>>, i: nat)
    requires Run(states, who, true) && Init(states[0], original) && i < |states|
    ensures Inv(states[i], original)
    decreases i
  {
    if i == 0 {
      InitIsInv(states[0], original);
    } else {
      RunKeepsInv(states, who, original, i - 1);
      StepKeepsInv(states[i - 1], states[i], who[i - 1], original);
    }
  }

  /**
   * Any threads, any statements, any interleaving: a thread decodes against its own session, no
   * two are inside one statement, and a statement whose lock is free is as it was declared.
   */
  lemma LockedRunsAreSafe(states: seq<State>, who: seq<Thread>, original: map<Statement, Option<Session>>, i: nat)
    requires Run(states, who, true) && Init(states[0], original) && i < |states|
    ensures forall t | t in states[i].phases && states[i].phases[t].Decoded? ::
              states[i].phases[t].seen == Some(states[i].phases[t].session)
    ensures forall t, u | t in states[i].phases && u in states[i].phases
                          && Inside(states[i].phases[t]) && Inside(states[i].phases[u])
                          && states[i].phases[t].statement == states[i].phases[u].statement :: t == u
    ensures forall statement | statement in original ::
              (statement in states[i].registry ==> states[i].registry[statement] in states[i].owners
                                                   && states[i].owners[states[i].registry[statement]].None?) ==>
                statement in states[i].bound && states[i].bound[statement] == original[statement]
  {
    RunKeepsInv(states, who, original, i);
    var s := states[i];
    forall t | t in s.phases && s.phases[t].Decoded? ensures s.phases[t].seen == Some(s.phases[t].session) {
      assert Carries(s, original, t);
    }
    forall t, u | t in s.phases && u in s.phases && Inside(s.phases[t]) && Inside(s.phases[u])
                  && s.phases[t].statement == s.phases[u].statement
      ensures t == u
    {
      assert Held(s, t) && Held(s, u);
    }
    forall statement | statement in original ensures AtRest(s, original, statement) {
      assert s.bound[statement] == s.bound[statement];
    }
  }

  /** A lock once handed out for a statement is its lock in every later state. */
  lemma {:induction false} LockStays(states: seq<State>, who: seq<Thread>, i: nat, j: nat, statement: Statement)
    requires Run(states, who, true) && i <= j < |states| && statement in states[i].registry
    ensures statement in states[j].registry && states[j].registry[statement] == states[i].registry[statement]
    decreases j
  {
    if i < j {
      LockStays(states, who, i, j - 1, statement);
      assert Step(states[j - 1], states[j], who[j - 1], true);
    }
  }

  /** Somebody inside can always go on; somebody waiting waits for one who can. */
  lemma NobodyIsStuck(s: State, original: map<Statement, Option<Session>>, t: Thread) returns (s': State, mover: Thread)
    requires Inv(s, original) && t in s.phases && !s.phases[t].Idle?
    ensures Step(s, s', mover, true)
    ensures mover == t || (s.phases[t].Waiting? && mover in s.phases && Inside(s.phases[mover])
                           && s.phases[mover].lock == s.phases[t].lock)
  {
    assert Held(s, t);
    mover := t;
    if s.phases[t].Waiting? && s.owners[s.phases[t].lock].Some? {
      mover := s.owners[s.phases[t].lock].value;
      assert Owned(s, s.phases[t].lock);
    }
    assert Held(s, mover);
    var p := s.phases[mover];
    match p
    case Wants(statement, session) => s' := At(WithLock(s, statement), mover, Waiting(statement, session, LockOf(s,
          statement)));
    case Waiting(statement, session, lock) =>
      s' := At(s, mover, Holding(statement, session, lock)).(owners := s.owners[lock := Some(mover)]);
    case Holding(statement, session, lock) => s' := At(s, mover, Saved(statement, session, lock, s.bound[statement]));
    case Saved(statement, session, lock, saved) =>
      s' := At(s, mover, Bound(statement, session, lock, saved)).(bound := s.bound[statement := Some(session)]);
    case Bound(statement, session, lock, saved) =>
      s' := At(s, mover, Decoded(statement, session, lock, saved, s.bound[statement]));
    case Decoded(statement, session, lock, saved, _) =>
      s' := At(s, mover, Restored(statement, session, lock)).(bound := s.bound[statement := saved]);
    case Restored(statement, session, lock) => s' := At(s, mover, Idle).(owners := s.owners[lock := None]);
  }

  /** An execution that raises leaves as it found: binding restored, lock free, the next one may enter. */
  lemma RaisingRestores(s: State, original: map<Statement, Option<Session>>, t: Thread)
    returns (restored: State, left: State)
    requires Inv(s, original) && t in s.phases && s.phases[t].Bound?
    ensures Step(s, restored, t, true) && Step(restored, left, t, true)
    ensures left.phases == s.phases[t := Idle] && left.registry == s.registry
    ensures s.phases[t].lock in left.owners && left.owners[s.phases[t].lock] == None
    ensures s.phases[t].statement in original
    ensures left.bound == s.bound[s.phases[t].statement := original[s.phases[t].statement]]
  {
    assert Held(s, t) && Carries(s, original, t);
    var p := s.phases[t];
    restored := At(s, t, Restored(p.statement, p.session, p.lock)).(bound := s.bound[p.statement := p.saved]);
    left := At(restored, t, Idle).(owners := restored.owners[p.lock := None]);
    assert Restores(s, restored, t) && Leaves(restored, left, t);
  }

  // ----- Without the lock

  /** The states of one bad run: thread 1 with session 11 and thread 2 with session 22, on statement 7. */
  function Bad(one: Phase, two: Phase, bound: Option<Session>, made: bool, owner: Option<Thread>): State {
    State(map[1 := one, 2 := two], if made then map[7 := 0] else map[], if made then map[0 := owner] else map[],
          map[7 := bound])
  }

  function BadAt(i: nat): State {
    if i == 0 then Bad(Idle, Idle, None, false, None)
    else if i == 1 then Bad(Wants(7, 11), Idle, None, false, None)
    else if i == 2 then Bad(Waiting(7, 11, 0), Idle, None, true, None)
    else if i == 3 then Bad(Waiting(7, 11, 0), Wants(7, 22), None, true, None)
    else if i == 4 then Bad(Waiting(7, 11, 0), Waiting(7, 22, 0), None, true, None)
    else if i == 5 then Bad(Holding(7, 11, 0), Waiting(7, 22, 0), None, true, Some(1))
    else if i == 6 then Bad(Saved(7, 11, 0, None), Waiting(7, 22, 0), None, true, Some(1))
    else if i == 7 then Bad(Bound(7, 11, 0, None), Waiting(7, 22, 0), Some(11), true, Some(1))
    else if i == 8 then Bad(Bound(7, 11, 0, None), Holding(7, 22, 0), Some(11), true, Some(2))
    else if i == 9 then Bad(Bound(7, 11, 0, None), Saved(7, 22, 0, Some(11)), Some(11), true, Some(2))
    else if i == 10 then Bad(Bound(7, 11, 0, None), Bound(7, 22, 0, Some(11)), Some(22), true, Some(2))
    else if i == 11 then Bad(Restored(7, 11, 0), Bound(7, 22, 0, Some(11)), None, true, Some(2))
    else Bad(Restored(7, 11, 0), Decoded(7, 22, 0, Some(11), None), None, true, Some(2))
  }

  const BAD_ORDER: seq<Thread> := [1, 1, 2, 2, 1, 1, 1, 2, 2, 2, 1, 2]

  lemma BadStart(i: nat)
    requires i < 3
    ensures Step(BadAt(i), BadAt(i + 1), BAD_ORDER[i], false)
  {
    if i == 0 { assert Starts(BadAt(0), BadAt(1), 1); }
    else if i == 1 { assert FindsLock(BadAt(1), BadAt(2), 1); }
    else { assert Starts(BadAt(2), BadAt(3), 2); }
  }

  lemma BadEntry(i: nat)
    requires 3 <= i < 6
    ensures Step(BadAt(i), BadAt(i + 1), BAD_ORDER[i], false)
  {
    if i == 3 { assert FindsLock(BadAt(3), BadAt(4), 2); }
    else if i == 4 { assert Enters(BadAt(4), BadAt(5), 1, false); }
    else { assert Saves(BadAt(5), BadAt(6), 1); }
  }

  lemma BadMiddle(i: nat)
    requires 6 <= i < 9
    ensures Step(BadAt(i), BadAt(i + 1), BAD_ORDER[i], false)
  {
    if i == 6 { assert Binds(BadAt(6), BadAt(7), 1); }
    else if i == 7 { assert Enters(BadAt(7), BadAt(8), 2, false); }
    else { assert Saves(BadAt(8), BadAt(9), 2); }
  }

  lemma BadEnd(i: nat)
    requires 9 <= i < 12
    ensures Step(BadAt(i), BadAt(i + 1), BAD_ORDER[i], false)
  {
    if i == 9 { assert Binds(BadAt(9), BadAt(10), 2); }
    else if i == 10 { assert Restores(BadAt(10), BadAt(11), 1); }
    else { assert Decodes(BadAt(11), BadAt(12), 2); }
  }

  /** Without the lock the second thread decodes against no session at all, and will put back the first one's. */
  lemma UnlockedRunGoesWrong() returns (states: seq<State>)
    ensures Run(states, BAD_ORDER, false) && Init(states[0], map[7 := None])
    ensures 2 in states[12].phases
    ensures var last := states[12].phases[2];
            last.Decoded? && last.session == 22 && last.seen == None && last.saved == Some(11)
  {
    states := seq(13, (i: nat) => BadAt(i));
    forall i: nat | i < 12 ensures Step(states[i], states[i + 1], BAD_ORDER[i], false) {
      if i < 3 { BadStart(i); } else if i < 6 { BadEntry(i); } else if i < 9 { BadMiddle(i); } else { BadEnd(i); }
    }
  }
}
