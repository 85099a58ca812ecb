/** What every run of the HTTP session manager does to one runtime: nothing is lost, deletion is final, and
    expiry and eviction go by the last use. */
module SessionRuns {
  import opened Prelude
  import opened HttpSessions

  // ----- nothing is lost -----

  ghost predicate Holds(s: System, t: Thread, rt: Runtime) {
    t in s.creators && s.creators[t].Held() == Some(rt)
  }

  /** A runtime that the factory made is stored, with a creator, waiting for its close, or closed. */
  ghost predicate Somewhere(s: System, rt: Runtime) {
    rt in s.ids ==>
      || IsStored(s, rt) || rt in s.doomed || rt in s.shut || rt in s.closes
      || exists t :: Holds(s, t, rt)
  }

  ghost predicate NothingLost(s: System) {
    forall rt {:trigger Somewhere(s, rt)} :: Somewhere(s, rt)
  }

  lemma NothingLostKept(s: System, step: Step)
    requires Inv(s) && NothingLost(s) && Enabled(s, step)
    ensures NothingLost(After(s, step))
  {
    hide Capacity, OldestIdle, NothingLost, Sound;
    var s' := After(s, step);
    forall rt ensures Somewhere(s', rt) {
      Present(s, rt);
      if step.Build? && rt == step.rt {
        assert Holds(s', step.t, rt);
      } else if rt in s.ids && IsStored(s, rt) {
        StoredMoves(s, step, rt);
      } else if exists t :: Holds(s, t, rt) {
        var t :| Holds(s, t, rt);
        HeldMoves(s, step, t, rt);
      }
    }
    Everywhere(s');
  }

  lemma Present(s: System, rt: Runtime)
    requires NothingLost(s)
    ensures Somewhere(s, rt)
  {}

  lemma Everywhere(s: System)
    requires forall rt :: Somewhere(s, rt)
    ensures NothingLost(s)
  {}

  lemma StoredMoves(s: System, step: Step, rt: Runtime)
    requires Inv(s) && Enabled(s, step) && IsStored(s, rt)
    ensures Somewhere(After(s, step), rt)
  {
    hide After, Enabled, Inv;
    match step
    case Reserve(_, _, _) => StoredByReserve(s, step, rt);
    case Leave(_, _) => StoredByLeave(s, step, rt);
    case Delete(_) => StoredByDelete(s, step, rt);
    case Prune(_, _) => StoredByPrune(s, step, rt);
    case Shut => StoredByPrune(s, step, rt);
    case Install(_, _) => StoredByInstall(s, step, rt);
    case _ => StoredStays(s, step, rt);
  }

  lemma StoredByReserve(s: System, step: Step, rt: Runtime)
    requires Enabled(s, step) && step.Reserve? && IsStored(s, rt)
    ensures Somewhere(After(s, step), rt)
  {
    hide OldestIdle;
    if step.victim == Some(s.ids[rt]) { assert Holds(After(s, step), step.t, rt); }
  }

  lemma StoredByLeave(s: System, step: Step, rt: Runtime)
    requires Inv(s) && Enabled(s, step) && step.Leave? && IsStored(s, rt)
    ensures Somewhere(After(s, step), rt)
  {
    hide Capacity;
    assert OnePlace(s, step.rt);
  }

  lemma StoredByDelete(s: System, step: Step, rt: Runtime)
    requires Enabled(s, step) && step.Delete? && IsStored(s, rt)
    ensures Somewhere(After(s, step), rt)
  {}

  lemma StoredByPrune(s: System, step: Step, rt: Runtime)
    requires Enabled(s, step) && (step.Prune? || step.Shut?) && IsStored(s, rt)
    ensures Somewhere(After(s, step), rt)
  {
    if step.Shut? {
      assert rt in After(s, step).shut;
    } else if s.ids[rt] in s.m.Expired(step.evictable, step.cutoff) {
      assert rt in After(s, step).doomed;
    }
  }

  lemma StoredByInstall(s: System, step: Step, rt: Runtime)
    requires Enabled(s, step) && step.Install? && IsStored(s, rt)
    ensures Somewhere(After(s, step), rt)
  {}

  lemma StoredStays(s: System, step: Step, rt: Runtime)
    requires Enabled(s, step) && IsStored(s, rt)
    requires !step.Reserve? && !step.Leave? && !step.Delete? && !step.Prune? && !step.Shut? && !step.Install?
    ensures Somewhere(After(s, step), rt)
  {}

  lemma HeldMoves(s: System, step: Step, t: Thread, rt: Runtime)
    requires Enabled(s, step) && Holds(s, t, rt)
    ensures Somewhere(After(s, step), rt)
  {
    hide After, Enabled, Holds;
    if Creator(step) != Some(t) {
      HeldAside(s, step, t, rt);
      assert Holds(After(s, step), t, rt);
    } else {
      HeldByOwner(s, step, t, rt);
    }
  }

  lemma HeldAside(s: System, step: Step, t: Thread, rt: Runtime)
    requires Enabled(s, step) && Holds(s, t, rt) && Creator(step) != Some(t)
    ensures Holds(After(s, step), t, rt)
  {
    hide OldestIdle;
  }

  lemma HeldByOwner(s: System, step: Step, t: Thread, rt: Runtime)
    requires Enabled(s, step) && Holds(s, t, rt) && Creator(step) == Some(t)
    ensures Somewhere(After(s, step), rt)
  {
    hide OldestIdle;
    var s' := After(s, step);
    if step.Settle? || (step.Install? && !s.m.Accepts(s.ids[rt])) { assert Holds(s', t, rt); }
  }

  /** In every run: what the factory made is never lost. */
  lemma {:induction false} NothingLostAlways(s: System, steps: seq<Step>, s': System)
    requires Inv(s) && NothingLost(s) && Run(s, steps, s')
    ensures NothingLost(s')
    decreases |steps|
  {
    hide Inv, NothingLost;
    if steps != [] {
      InvKept(s, steps[0]);
      NothingLostKept(s, steps[0]);
      NothingLostAlways(After(s, steps[0]), steps[1..], s');
    }
  }

  // ----- deletion is final -----

  /** Nothing can enter `rt` any more: nobody is about to store it, and a stored record is marked. */
  ghost predicate Barred(s: System, rt: Runtime) {
    && rt in s.ids
    && (IsStored(s, rt) ==> s.m.sessions[s.ids[rt]].closing)
    && forall t :: !Holds(s, t, rt)
  }

  /** A deleted identifier is not served, whoever uses it. */
  lemma DeletedIsNotServed(m: Manager, id: SessionId)
    ensures !m.Delete(id).0.Serves(id)
    ensures forall other :: other != id ==> (m.Delete(id).0.Serves(other) <==> m.Serves(other))
  {}

  lemma DeleteBars(s: System, id: SessionId)
    requires Inv(s) && id in s.m.sessions
    ensures Enabled(s, Step.Delete(id)) && Barred(After(s, Step.Delete(id)), s.m.sessions[id].runtime)
    ensures After(s, Step.Delete(id)).requests == s.requests
  {
    var rt := s.m.sessions[id].runtime;
    assert GoodRecord(s, id);
    forall t ensures !Holds(s, t, rt) { assert HeldAlone(s, t); }
    var s' := After(s, Step.Delete(id));
    forall t ensures !Holds(s', t, rt) { assert !Holds(s, t, rt); }
  }

  lemma BarredKept(s: System, step: Step, rt: Runtime)
    requires Inv(s) && Enabled(s, step) && Barred(s, rt)
    ensures Barred(After(s, step), rt)
    ensures After(s, step).requests[rt] <= s.requests[rt]
  {
    hide Inv;
    NotPickedUp(s, step, rt);
    StaysMarked(s, step, rt);
    NotEntered(s, step, rt);
  }

  lemma NotPickedUp(s: System, step: Step, rt: Runtime)
    requires Inv(s) && Enabled(s, step) && Barred(s, rt)
    ensures forall t :: !Holds(After(s, step), t, rt)
  {
    hide Capacity;
    var s' := After(s, step);
    forall t ensures !Holds(s', t, rt) {
      assert !Holds(s, t, rt);
      if step.Reserve? && step.victim.Some? { assert GoodRecord(s, step.victim.value); }
    }
  }

  lemma StaysMarked(s: System, step: Step, rt: Runtime)
    requires Inv(s) && Enabled(s, step) && Barred(s, rt)
    ensures rt in After(s, step).ids
    ensures IsStored(After(s, step), rt) ==> After(s, step).m.sessions[s.ids[rt]].closing
  {
    hide After, Enabled, Inv;
    match step
    case Leave(_, _) => MarkedByLeave(s, step, rt);
    case Install(_, _) => MarkedByInstall(s, step, rt);
    case Enter(_, _) => MarkedByEntry(s, step, rt);
    case Delete(_) => MarkedByEntry(s, step, rt);
    case _ => MarkedAside(s, step, rt);
  }

  lemma MarkedByLeave(s: System, step: Step, rt: Runtime)
    requires Inv(s) && Enabled(s, step) && Barred(s, rt) && step.Leave?
    ensures rt in After(s, step).ids
    ensures IsStored(After(s, step), rt) ==> After(s, step).m.sessions[s.ids[rt]].closing
  {
    hide Capacity;
    assert OnePlace(s, step.rt) && OnePlace(s, rt);
  }

  lemma MarkedByInstall(s: System, step: Step, rt: Runtime)
    requires Inv(s) && Enabled(s, step) && Barred(s, rt) && step.Install?
    ensures rt in After(s, step).ids
    ensures IsStored(After(s, step), rt) ==> After(s, step).m.sessions[s.ids[rt]].closing
  {
    hide Inv;
    assert !Holds(s, step.t, rt);
  }

  lemma MarkedByEntry(s: System, step: Step, rt: Runtime)
    requires Enabled(s, step) && Barred(s, rt) && (step.Enter? || step.Delete?)
    ensures rt in After(s, step).ids
    ensures IsStored(After(s, step), rt) ==> After(s, step).m.sessions[s.ids[rt]].closing
  {}

  lemma MarkedAside(s: System, step: Step, rt: Runtime)
    requires Inv(s) && Enabled(s, step) && Barred(s, rt) && !step.Leave? && !step.Install? && !step.Enter? && !step.Delete?
    ensures rt in After(s, step).ids
    ensures IsStored(After(s, step), rt) ==> After(s, step).m.sessions[s.ids[rt]].closing
  {
    hide Inv, OldestIdle, Idle;
  }

  lemma NotEntered(s: System, step: Step, rt: Runtime)
    requires Inv(s) && Enabled(s, step) && Barred(s, rt)
    ensures After(s, step).requests[rt] <= s.requests[rt]
  {
    hide Capacity, OldestIdle;
    if step.Install? {
      assert !Holds(s, step.t, rt);
    } else if step.Enter? {
      assert GoodRecord(s, step.id);
    }
  }

  lemma {:induction false} BarredAlways(s: System, steps: seq<Step>, s': System, rt: Runtime)
    requires Inv(s) && Run(s, steps, s') && Barred(s, rt)
    ensures Barred(s', rt) && s'.requests[rt] <= s.requests[rt]
    decreases |steps|
  {
    hide Inv, Barred;
    if steps != [] {
      InvKept(s, steps[0]);
      BarredKept(s, steps[0], rt);
      BarredAlways(After(s, steps[0]), steps[1..], s', rt);
    }
  }

  /** No request enters `rt`; it is stored while one is inside, and after the last has left it waits to be closed or is closed. */
  ghost predicate OnItsWayOut(s: System, rt: Runtime) {
    && (forall id, now :: Enabled(s, Step.Enter(id, now)) ==> s.m.sessions[id].runtime != rt)
    && (IsStored(s, rt) <==> s.requests[rt] > 0 && !s.m.closed)
    && (!IsStored(s, rt) ==> rt in s.doomed || rt in s.shut || rt in s.closes)
    && (forall now :: IsStored(s, rt) && s.requests[rt] == 1 && Enabled(s, Step.Leave(rt, now)) ==>
                        rt in After(s, Step.Leave(rt, now)).doomed)
  }

  lemma BarredMeans(s: System, rt: Runtime)
    requires Inv(s) && NothingLost(s) && Barred(s, rt)
    ensures OnItsWayOut(s, rt)
    ensures IsStored(s, rt) ==> forall now :: Enabled(s, Step.Leave(rt, now))
  {
    assert OnePlace(s, rt) && Somewhere(s, rt) && GoodRecord(s, s.ids[rt]);
    forall id, now | Enabled(s, Step.Enter(id, now)) ensures s.m.sessions[id].runtime != rt { assert GoodRecord(s, id); }
  }

  /**
   Deletion is final.  In every run after the delete of a stored runtime its identifier may name another
   runtime, but no step enters this one; it stays stored only while requests are inside, the step that
   ends the last of them dooms it, and otherwise it waits for its close or is closed.
   */
  lemma DeletedForGood(before: seq<Step>, s: System, id: SessionId, steps: seq<Step>, s': System)
    requires Run(INITIAL, before, s) && id in s.m.sessions
    requires Enabled(s, Step.Delete(id)) && Run(After(s, Step.Delete(id)), steps, s')
    ensures var rt := s.m.sessions[id].runtime;
            && OnItsWayOut(s', rt) && s'.requests[rt] <= s.requests[rt]
            && (IsStored(s', rt) ==> forall now :: Enabled(s', Step.Leave(rt, now)))
  {
    hide *;
    var rt, step := s.m.sessions[id].runtime, Step.Delete(id);
    InitialIsSound();
    NothingLostInitially();
    InvAlways(INITIAL, before, s);
    NothingLostAlways(INITIAL, before, s);
    DeleteBars(s, id);
    InvKept(s, step);
    NothingLostKept(s, step);
    BarredAlways(After(s, step), steps, s', rt);
    InvAlways(After(s, step), steps, s');
    NothingLostAlways(After(s, step), steps, s');
    BarredMeans(s', rt);
  }

  lemma NothingLostInitially()
    ensures NothingLost(INITIAL)
  {}

  // ----- expiry and eviction go by the last use -----

  /** The time at which a step uses `rt`: its session is stored, entered or left. */
  ghost function Use(s: System, step: Step, rt: Runtime): Option<int>
    requires Enabled(s, step)
  {
    match step
    case Install(t, now) => if s.creators[t].runtime == rt && s.m.Accepts(s.ids[rt]) then Some(now) else None
    case Enter(id, now) => if s.m.sessions[id].runtime == rt then Some(now) else None
    case Leave(other, now) => if other == rt then Some(now) else None
    case _ => None
  }

  ghost function LastUse(s: System, steps: seq<Step>, s': System, rt: Runtime): Option<int>
    requires Run(s, steps, s')
    decreases |steps|
  {
    if steps == [] then None
    else
      var later := LastUse(After(s, steps[0]), steps[1..], s', rt);
      if later.Some? then later else Use(s, steps[0], rt)
  }

  ghost function Seen(s: System, rt: Runtime): int
    requires IsStored(s, rt)
  {
    s.m.sessions[s.ids[rt]].lastSeen
  }

  lemma UseIsSeen(s: System, step: Step, rt: Runtime)
    requires Inv(s) && Enabled(s, step) && IsStored(After(s, step), rt)
    ensures var used := Use(s, step, rt);
            if used.Some? then Seen(After(s, step), rt) == used.value
            else IsStored(s, rt) && Seen(After(s, step), rt) == Seen(s, rt)
  {
    hide Capacity, OldestIdle;
    match step
    case Build(_, made, _) => Unmade(s, made);
    case Install(t, _) => InstallIsSeen(s, step, rt);
    case Enter(id, _) => EnterIsSeen(s, step, rt);
    case Leave(other, _) => LeaveIsSeen(s, step, rt);
    case _ =>
  }

  lemma InstallIsSeen(s: System, step: Step, rt: Runtime)
    requires Inv(s) && Enabled(s, step) && step.Install? && IsStored(After(s, step), rt)
    ensures var used := Use(s, step, rt);
            if used.Some? then Seen(After(s, step), rt) == used.value
            else IsStored(s, rt) && Seen(After(s, step), rt) == Seen(s, rt)
  {
    hide Capacity, OldestIdle;
    assert HeldAlone(s, step.t);
  }

  lemma EnterIsSeen(s: System, step: Step, rt: Runtime)
    requires Inv(s) && Enabled(s, step) && step.Enter? && IsStored(After(s, step), rt)
    ensures var used := Use(s, step, rt);
            if used.Some? then Seen(After(s, step), rt) == used.value
            else IsStored(s, rt) && Seen(After(s, step), rt) == Seen(s, rt)
  {
    hide Capacity, OldestIdle;
    assert GoodRecord(s, step.id);
  }

  lemma LeaveIsSeen(s: System, step: Step, rt: Runtime)
    requires Inv(s) && Enabled(s, step) && step.Leave? && IsStored(After(s, step), rt)
    ensures var used := Use(s, step, rt);
            if used.Some? then Seen(After(s, step), rt) == used.value
            else IsStored(s, rt) && Seen(After(s, step), rt) == Seen(s, rt)
  {
    hide Capacity, OldestIdle;
    assert OnePlace(s, step.rt);
  }

  lemma {:induction false} LastUseIsSeen(s: System, steps: seq<Step>, s': System, rt: Runtime)
    requires Inv(s) && Run(s, steps, s') && IsStored(s', rt)
    ensures var used := LastUse(s, steps, s', rt);
            if used.Some? then Seen(s', rt) == used.value else IsStored(s, rt) && Seen(s', rt) == Seen(s, rt)
    decreases |steps|
  {
    hide Inv, IsStored, Seen, Use, Enabled, After;
    if steps != [] {
      InvKept(s, steps[0]);
      LastUseIsSeen(After(s, steps[0]), steps[1..], s', rt);
      if LastUse(After(s, steps[0]), steps[1..], s', rt).None? { UseIsSeen(s, steps[0], rt); }
    }
  }

  /** Idle, in terms of what happened: no request is inside, and the runtime lets itself be taken. */
  ghost predicate Takeable(s: System, rt: Runtime, evictable: set<Runtime>) {
    IsStored(s, rt) && rt !in s.requests && rt in evictable
  }

  lemma TakeableIsIdle(s: System, rt: Runtime, evictable: set<Runtime>)
    requires Inv(s) && IsStored(s, rt)
    ensures Takeable(s, rt, evictable) <==> Idle(s.m.sessions[s.ids[rt]], evictable)
  {
    assert OnePlace(s, rt) && GoodRecord(s, s.ids[rt]);
  }

  /** In every run a prune takes exactly the idle runtimes last used before the cutoff. */
  lemma ExpiryIsByLastUse(steps: seq<Step>, s: System, rt: Runtime, evictable: set<Runtime>, cutoff: int)
    requires Run(INITIAL, steps, s) && IsStored(s, rt)
    ensures var used, s' := LastUse(INITIAL, steps, s, rt), After(s, Step.Prune(evictable, cutoff));
            && used.Some?
            && (Takeable(s, rt, evictable) && used.value < cutoff <==> !IsStored(s', rt))
            && (!IsStored(s', rt) <==> rt in s'.doomed)
  {
    hide Inv, LastUse, Run, Takeable, OldestIdle;
    InitialIsSound();
    InvAlways(INITIAL, steps, s);
    LastUseIsSeen(INITIAL, steps, s, rt);
    PruneTakes(s, rt, evictable, cutoff);
  }

  lemma PruneTakes(s: System, rt: Runtime, evictable: set<Runtime>, cutoff: int)
    requires Inv(s) && IsStored(s, rt)
    ensures var s' := After(s, Step.Prune(evictable, cutoff));
            && (Takeable(s, rt, evictable) && Seen(s, rt) < cutoff <==> !IsStored(s', rt))
            && (!IsStored(s', rt) <==> rt in s'.doomed)
  {
    hide Capacity, OldestIdle, Takeable;
    TakeableIsIdle(s, rt, evictable);
    assert OnePlace(s, rt);
    PrunedOnes(s, evictable, cutoff, rt);
    if s.ids[rt] in s.m.Expired(evictable, cutoff) {
      assert rt in s.m.Prune(evictable, cutoff).1;
    }
  }

  /** In every run the session that makes room for another is the idle one used longest ago. */
  lemma EvictionIsByLastUse(steps: seq<Step>, s: System, step: Step, other: Runtime)
    requires Run(INITIAL, steps, s) && Enabled(s, step) && step.Reserve?
    ensures step.victim.Some? <==> |s.m.sessions| + |Counted(s.creators)| >= MAX_HTTP_SESSIONS
    ensures step.victim.Some? && Takeable(s, other, step.evictable) ==>
              var rt := s.m.sessions[step.victim.value].runtime;
              var used, otherUsed := LastUse(INITIAL, steps, s, rt), LastUse(INITIAL, steps, s, other);
              && Takeable(s, rt, step.evictable) && used.Some? && otherUsed.Some? && used.value <= otherUsed.value
              && After(s, step).creators[step.t] == Evicting(rt)
  {
    InitialIsSound();
    InvAlways(INITIAL, steps, s);
    if step.victim.Some? && Takeable(s, other, step.evictable) {
      var id := step.victim.value;
      var rt := s.m.sessions[id].runtime;
      assert GoodRecord(s, id);
      TakeableIsIdle(s, rt, step.evictable);
      TakeableIsIdle(s, other, step.evictable);
      LastUseIsSeen(INITIAL, steps, s, rt);
      LastUseIsSeen(INITIAL, steps, s, other);
    }
  }
}
