/**
 Every interleaving of tool calls, job registration and workspace claims over the two
 registries.  Each step is one lock region; a thread between two regions is represented by
 what it still has to do.

 A call holds the lock of its context, but not of the Runtime that serves it: several contexts
 may be applied on one Runtime at a time, and whoever saves writes what the Runtime shows.
 */
module ContextRuns {
  import opened Prelude
  import opened Contexts

  datatype System = System(
    contexts: Registry,
    jobs: Jobs,
    used: set<ContextId>,              // identifiers issued or asked for so far
    calls: multiset<ContextId>,        // tool calls between `retain` and `release`
    opening: Jobs,                     // jobs recorded whose context was not retained yet
    closing: multiset<ContextId>,      // jobs taken out whose context was not released yet
    isolating: set<ContextId>,         // between a contended claim and its bind or rollback
    stranded: set<ContextId>,          // a contended claim that was neither bound nor rolled back
    resuming: map<ContextId, Resume>,  // between `claim_existing_workspace` and the end of the resume
    runtimes: map<Runtime, Shown>,     // what each Runtime's fields hold
    serving: map<ContextId, Runtime>,  // contexts locked by a call, and the Runtime it runs on
    stale: set<ContextId>)             // bound to another root since they were last applied
  {
    // -- calls --
    function BeginCall(id: ContextId, now: int): System {
      this.(contexts := Retain(contexts, id, now), calls := calls + multiset{id}, used := used + {id})
    }

    function EndCall(id: ContextId, now: int): System {
      this.(contexts := Release(contexts, id, now), calls := calls - multiset{id})
    }

    // -- jobs --
    function OpenJob(h: Handle, owner: ContextId): System {
      this.(jobs := jobs[h := owner], opening := opening[h := owner])
    }

    /** Second region of `register`: the context is retained, or the record goes again. */
    function RetainJob(h: Handle, now: int): System
      requires h in opening
    {
      var owner := opening[h];
      this.(contexts := Retain(contexts, owner, now), opening := opening - {h},
      jobs := if owner in contexts then jobs else jobs - {h})
    }

    /** `remove`, `prune` and `close` take a record out in one region... */
    function TakeJob(h: Handle): System
      requires h in jobs
    {
      this.(jobs := jobs - {h}, closing := closing + multiset{jobs[h]})
    }

    /** ...and release its context in another. */
    function ReleaseJob(owner: ContextId, now: int): System {
      this.(contexts := Release(contexts, owner, now), closing := closing - multiset{owner})
    }

    // -- lifetime --
    function NewContext(id: ContextId, victim: Option<ContextId>, r: Runtime, cwd: Root, now: int): System
      requires r in runtimes
    {
      this.(contexts := Create(contexts, victim, id, runtimes[r].canonical, runtimes[r].effective, cwd, now), used := used + {id})
    }

    // -- Runtimes --
    /** The fields of `r` are set from the context, whose lock the call has taken. */
    function Apply(id: ContextId, r: Runtime): System
      requires id in contexts
    {
      this.(runtimes := runtimes[r := Shown(contexts[id].canonical, contexts[id].effective, Some(id))],
      serving := serving[id := r], stale := stale - {id})
    }

    /** `select_project` sets the Runtime's fields only. */
    function Select(id: ContextId, root: Root): System
      requires id in serving
    {
      this.(runtimes := runtimes[serving[id] := Shown(root, root, Some(id))])
    }

    /** The context is overwritten with what the Runtime shows, and its lock is released. */
    function Save(id: ContextId, cwd: Root, now: int): System
      requires id in serving && serving[id] in runtimes
    {
      var shown := runtimes[serving[id]];
      this.(contexts := Update(contexts, id, shown.canonical, shown.effective, cwd, now),
      stranded := if id in contexts && contexts[id].canonical != shown.canonical then stranded - {id} else stranded,
      serving := serving - {id})
    }

    function Leave(id: ContextId): System {
      this.(serving := serving - {id}, stale := stale - {id})
    }

    // -- workspaces --
    function Claimed(id: ContextId, now: int): System
      requires id in contexts
    {
      this.(contexts := Claim(contexts, id, now),
      isolating := if MustIsolate(contexts, id) && contexts[id].effective == contexts[id].canonical
      then isolating + {id} else isolating)
    }

    function Bind(id: ContextId, worktree: Root, cwd: Root, now: int): System
      requires id in contexts
    {
      this.(contexts := Update(contexts, id, contexts[id].canonical, worktree, cwd, now), isolating := isolating - {id},
      stale := stale + {id})
    }

    function Unclaim(id: ContextId, now: int): System {
      this.(contexts := RollbackClaim(contexts, id, now), isolating := isolating - {id})
    }

    function Strand(id: ContextId): System {
      this.(isolating := isolating - {id}, stranded := stranded + {id})
    }

    function BeginResume(id: ContextId, target: Root, cwd: Root, now: int): System
      requires id in contexts
    {
      this.(contexts := ClaimExisting(contexts, id, target, cwd, now),
      resuming := resuming[id := Resume(target, BindingOf(contexts[id]))], stale := stale + {id})
    }

    function FailResume(id: ContextId, now: int): System
      requires id in resuming
    {
      this.(contexts := RollbackExisting(contexts, id, resuming[id].target, resuming[id].previous, now),
      resuming := resuming - {id}, stale := stale + {id})
    }

    /** A call has applied the context and is not in the middle of a claim or resume. */
    predicate Ready(id: ContextId) {
      id in serving && serving[id] in runtimes && id !in isolating && id !in resuming && id !in stale
    }
  }

  type Runtime = string

  /** The roots a Runtime shows, and the context whose call put them there. */
  datatype Shown = Shown(canonical: Root, effective: Root, setBy: Option<ContextId>)

  datatype Resume = Resume(target: Root, previous: Binding)

  datatype Step =
    | BeginCall(id: ContextId, now: int)
    | EndCall(id: ContextId, now: int)
    | OpenJob(h: Handle, owner: ContextId)
    | RetainJob(h: Handle, now: int)
    | TakeJob(h: Handle)
    | ReleaseJob(owner: ContextId, now: int)
    | NewRuntime(r: Runtime, root: Root)
    | NewContext(id: ContextId, victim: Option<ContextId>, r: Runtime, cwd: Root, now: int)
    | PruneContexts(cutoff: int)
    | CloseContexts
    | ClaimWorkspace(id: ContextId, now: int)
    | BindWorktree(id: ContextId, worktree: Root, cwd: Root, now: int)
    | UndoClaim(id: ContextId, now: int)
    | StrandClaim(id: ContextId)
    | ApplyContext(id: ContextId, r: Runtime)
    | ReapplyContext(id: ContextId)
    | SelectProject(id: ContextId, root: Root)
    | SaveContext(id: ContextId, cwd: Root, now: int)
    | LeaveContext(id: ContextId)            // the handler raised: nothing is saved
    | BeginResume(id: ContextId, target: Root, cwd: Root, now: int)
    | FinishResume(id: ContextId)
    | FailResume(id: ContextId, now: int)

  const INITIAL := System(map[], map[], {}, multiset{}, map[], multiset{}, {}, {}, map[], map[], map[], {})

  function JobsOf(jobs: Jobs, id: ContextId): set<Handle> {
    set h | h in jobs && jobs[h] == id
  }

  ghost predicate Fresh(s: System, worktree: Root) {
    forall id :: id in s.contexts ==> s.contexts[id].effective != worktree && s.contexts[id].canonical != worktree
  }

  predicate RoomFor(jobs: Jobs) {
    |jobs| < MAX_SHARED_JOBS
  }

  ghost predicate Enabled(s: System, step: Step) {
    match step
    case BeginCall(_, _) => true
    case EndCall(id, _) => |JobsOf(s.opening, id)| < s.calls[id]
    case OpenJob(h, owner) =>
      RoomFor(s.jobs) && h !in s.jobs && h !in s.opening && |JobsOf(s.opening, owner)| < s.calls[owner]
    case RetainJob(h, _) => h in s.opening
    case TakeJob(h) => h in s.jobs
    case ReleaseJob(owner, _) => owner in s.closing
    case NewRuntime(r, _) => r !in s.runtimes
    case NewContext(id, victim, r, _, _) => id !in s.used && Displaces(s.contexts, victim) && r in s.runtimes
    case PruneContexts(_) => true
    case CloseContexts => true
    case ClaimWorkspace(id, _) => id in s.contexts && s.Ready(id)
    case BindWorktree(id, worktree, _, _) => id in s.contexts && id in s.isolating && Fresh(s, worktree)
    case UndoClaim(id, _) => id in s.isolating
    case StrandClaim(id) => id in s.isolating
    case ApplyContext(id, r) => id in s.contexts && id !in s.serving && r in s.runtimes
    case ReapplyContext(id) => id in s.contexts && id in s.serving
    case SelectProject(id, root) =>
      && s.Ready(id) && id in s.contexts && s.runtimes[s.serving[id]].canonical != root
      && (s.runtimes[s.serving[id]].setBy == Some(id) ==> s.runtimes[s.serving[id]].canonical == s.contexts[id].canonical)
    case SaveContext(id, _, _) => s.Ready(id)
    case LeaveContext(id) => id in s.serving && id !in s.isolating && id !in s.resuming
    case BeginResume(id, target, _, _) =>
      id in s.contexts && s.Ready(id) && ClaimVerdict(s.contexts, id, target).Bound?
    case FinishResume(id) => id in s.resuming && id !in s.stale
    case FailResume(id, _) => id in s.resuming
  }

  ghost function After(s: System, step: Step): System
    requires Enabled(s, step)
  {
    match step
    case BeginCall(id, now) => s.BeginCall(id, now)
    case EndCall(id, now) => s.EndCall(id, now)
    case OpenJob(h, owner) => s.OpenJob(h, owner)
    case RetainJob(h, now) => s.RetainJob(h, now)
    case TakeJob(h) => s.TakeJob(h)
    case ReleaseJob(owner, now) => s.ReleaseJob(owner, now)
    case NewRuntime(r, root) => s.(runtimes := s.runtimes[r := Shown(root, root, None)])
    case NewContext(id, victim, r, cwd, now) => s.NewContext(id, victim, r, cwd, now)
    case PruneContexts(cutoff) => s.(contexts := Prune(s.contexts, cutoff))
    case CloseContexts => s.(contexts := map[])
    case ClaimWorkspace(id, now) => s.Claimed(id, now)
    case BindWorktree(id, worktree, cwd, now) => s.Bind(id, worktree, cwd, now)
    case UndoClaim(id, now) => s.Unclaim(id, now)
    case StrandClaim(id) => s.Strand(id)
    case ApplyContext(id, r) => s.Apply(id, r)
    case ReapplyContext(id) => s.Apply(id, s.serving[id])
    case SelectProject(id, root) => s.Select(id, root)
    case SaveContext(id, cwd, now) => s.Save(id, cwd, now)
    case LeaveContext(id) => s.Leave(id)
    case BeginResume(id, target, cwd, now) => s.BeginResume(id, target, cwd, now)
    case FinishResume(id) => s.(resuming := s.resuming - {id})
    case FailResume(id, now) => s.FailResume(id, now)
  }

  // ----- leases -----

  /**
   Conservation.  A live context's leases are its calls and its recorded jobs, plus the jobs
   whose release is still due, minus the jobs whose retain is still due.
   */
  ghost predicate LeaseLaw(s: System, id: ContextId) {
    && |JobsOf(s.opening, id)| <= s.calls[id]
    && (id in s.contexts ==>
          && id in s.used
          && s.contexts[id].leases == s.calls[id] + |JobsOf(s.jobs, id)| + s.closing[id] - |JobsOf(s.opening, id)|)
    && (id !in s.used ==> id !in s.calls && JobsOf(s.jobs, id) == {} && id !in s.closing && JobsOf(s.opening, id) == {})
  }

  ghost predicate OneOwner(s: System, h: Handle) {
    h in s.opening && h in s.jobs ==> s.jobs[h] == s.opening[h]
  }

  ghost predicate Leases(s: System) {
    && (forall id {:trigger LeaseLaw(s, id)} :: LeaseLaw(s, id))
    && (forall h {:trigger OneOwner(s, h)} :: OneOwner(s, h))
  }

  lemma JobAdded(jobs: Jobs, h: Handle, owner: ContextId, id: ContextId)
    requires h !in jobs
    ensures JobsOf(jobs[h := owner], id) == if id == owner then JobsOf(jobs, id) + {h} else JobsOf(jobs, id)
    ensures h !in JobsOf(jobs, id)
  {}

  lemma JobRemoved(jobs: Jobs, h: Handle, id: ContextId)
    ensures JobsOf(jobs - {h}, id) == JobsOf(jobs, id) - {h}
    ensures h in JobsOf(jobs, id) <==> h in jobs && jobs[h] == id
  {}

  lemma LeasesAfterBegin(s: System, id: ContextId, now: int)
    requires Leases(s)
    ensures Leases(s.BeginCall(id, now))
  {
    hide JobsOf;
    forall g ensures OneOwner(s.BeginCall(id, now), g) { assert OneOwner(s, g); }
    forall k ensures LeaseLaw(s.BeginCall(id, now), k) { assert LeaseLaw(s, k); }
  }

  lemma LeasesAfterEnd(s: System, id: ContextId, now: int)
    requires Leases(s) && |JobsOf(s.opening, id)| < s.calls[id]
    ensures Leases(s.EndCall(id, now))
  {
    hide JobsOf;
    forall g ensures OneOwner(s.EndCall(id, now), g) { assert OneOwner(s, g); }
    forall k ensures LeaseLaw(s.EndCall(id, now), k) { assert LeaseLaw(s, k); }
  }

  lemma LeasesAfterRelease(s: System, id: ContextId, now: int)
    requires Leases(s) && id in s.closing
    ensures Leases(s.ReleaseJob(id, now))
  {
    hide JobsOf;
    forall g ensures OneOwner(s.ReleaseJob(id, now), g) { assert OneOwner(s, g); }
    forall k ensures LeaseLaw(s.ReleaseJob(id, now), k) { assert LeaseLaw(s, k); }
  }

  lemma LeasesAfterOpen(s: System, h: Handle, owner: ContextId)
    requires Leases(s) && h !in s.jobs && h !in s.opening && |JobsOf(s.opening, owner)| < s.calls[owner]
    ensures Leases(s.OpenJob(h, owner))
  {
    hide JobsOf;
    forall g ensures OneOwner(s.OpenJob(h, owner), g) { assert OneOwner(s, g); }
    assert LeaseLaw(s, owner);
    forall k ensures LeaseLaw(s.OpenJob(h, owner), k) {
      assert LeaseLaw(s, k);
      JobAdded(s.jobs, h, owner, k);
      JobAdded(s.opening, h, owner, k);
    }
  }

  lemma LeasesAfterRetain(s: System, h: Handle, now: int)
    requires Leases(s) && h in s.opening
    ensures Leases(s.RetainJob(h, now))
  {
    hide JobsOf, LeaseLaw;
    forall k ensures LeaseLaw(s.RetainJob(h, now), k) {
      assert LeaseLaw(s, k) && OneOwner(s, h);
      LawAfterRetain(s, h, now, k);
    }
    forall g ensures OneOwner(s.RetainJob(h, now), g) { assert OneOwner(s, g); }
  }

  lemma LawAfterRetain(s: System, h: Handle, now: int, k: ContextId)
    requires LeaseLaw(s, k) && OneOwner(s, h) && h in s.opening
    ensures LeaseLaw(s.RetainJob(h, now), k)
  {
    hide JobsOf;
    JobRemoved(s.opening, h, k);
    JobRemoved(s.jobs, h, k);
  }

  lemma LeasesAfterTake(s: System, h: Handle)
    requires Leases(s) && h in s.jobs
    ensures Leases(s.TakeJob(h))
  {
    hide JobsOf;
    forall g ensures OneOwner(s.TakeJob(h), g) { assert OneOwner(s, g); }
    forall k ensures LeaseLaw(s.TakeJob(h), k) {
      assert LeaseLaw(s, k);
      JobRemoved(s.jobs, h, k);
    }
  }

  lemma LeasesAfterNew(s: System, id: ContextId, victim: Option<ContextId>, r: Runtime, cwd: Root, now: int)
    requires Leases(s) && id !in s.used && r in s.runtimes
    ensures Leases(s.NewContext(id, victim, r, cwd, now))
  {
    hide JobsOf;
    forall g ensures OneOwner(s.NewContext(id, victim, r, cwd, now), g) { assert OneOwner(s, g); }
    forall k ensures LeaseLaw(s.NewContext(id, victim, r, cwd, now), k) { assert LeaseLaw(s, k); }
  }

  /** Steps that neither change a lease count nor add a context. */
  lemma LeasesCarryOver(s: System, s': System)
    requires Leases(s)
    requires (s'.jobs, s'.used, s'.calls, s'.opening, s'.closing) == (s.jobs, s.used, s.calls, s.opening, s.closing)
    requires forall id :: id in s'.contexts ==> id in s.contexts && s'.contexts[id].leases == s.contexts[id].leases
    ensures Leases(s')
  {
    hide JobsOf;
    forall g ensures OneOwner(s', g) { assert OneOwner(s, g); }
    forall k ensures LeaseLaw(s', k) { assert LeaseLaw(s, k); }
  }

  lemma LeasesKept(s: System, step: Step)
    requires Leases(s) && Enabled(s, step)
    ensures Leases(After(s, step))
  {
    hide JobsOf, Leases, Fresh, Contended;
    match step
    case BeginCall(id, now) => LeasesAfterBegin(s, id, now);
    case EndCall(id, now) => LeasesAfterEnd(s, id, now);
    case OpenJob(h, owner) => LeasesAfterOpen(s, h, owner);
    case RetainJob(h, now) => LeasesAfterRetain(s, h, now);
    case TakeJob(h) => LeasesAfterTake(s, h);
    case ReleaseJob(owner, now) => LeasesAfterRelease(s, owner, now);
    case NewContext(id, victim, r, cwd, now) => LeasesAfterNew(s, id, victim, r, cwd, now);
    case _ =>
      LeasesAside(s, step);
      LeasesCarryOver(s, After(s, step));
  }

  lemma LeasesAside(s: System, step: Step)
    requires Enabled(s, step)
    requires !step.BeginCall? && !step.EndCall? && !step.OpenJob? && !step.RetainJob? && !step.TakeJob? && !step.ReleaseJob?
    requires !step.NewContext?
    ensures var s' := After(s, step);
            && (s'.jobs, s'.used, s'.calls, s'.opening, s'.closing) == (s.jobs, s.used, s.calls, s.opening, s.closing)
            && forall id :: id in s'.contexts ==> id in s.contexts && s'.contexts[id].leases == s.contexts[id].leases
  {
    hide JobsOf, Fresh, Contended;
  }

  // ----- workspaces -----

  ghost predicate Settled(s: System, id: ContextId) {
    id in s.contexts && s.contexts[id].claimed && id !in s.isolating && id !in s.stranded
  }

  /** Two settled claims of one project are on different workspaces. */
  ghost predicate Apart(s: System, a: ContextId, b: ContextId) {
    a != b && Settled(s, a) && Settled(s, b) && s.contexts[a].canonical == s.contexts[b].canonical ==>
      s.contexts[a].effective != s.contexts[b].effective
  }

  /** Where a context may be, given what its thread is doing. */
  ghost predicate Home(s: System, id: ContextId) {
    && (id !in s.used ==>
          id !in s.isolating && id !in s.stranded && id !in s.resuming && id !in s.contexts && id !in s.serving)
    && (id in s.resuming || id in s.stranded ==> id !in s.isolating)
    && (id in s.contexts ==>
          var c := s.contexts[id];
          && (!c.claimed ==> c.effective == c.canonical)
          && (id in s.isolating || id in s.stranded ==> c.claimed && c.effective == c.canonical)
          && (id in s.resuming ==>
                var r := s.resuming[id];
                && c.claimed && c.effective == r.target && (id in s.stranded ==> r.previous.claimed)
                && r.previous.effective == (if r.previous.claimed then r.target else c.canonical)))
  }

  /** A Runtime that last got its roots from a context shows that context, or a project it selected. */
  ghost predicate Mirrors(s: System, id: ContextId) {
    id in s.serving && s.serving[id] in s.runtimes && id in s.contexts && id !in s.stale &&
    s.runtimes[s.serving[id]].setBy == Some(id) ==>
      var shown, c := s.runtimes[s.serving[id]], s.contexts[id];
      || (shown.canonical == c.canonical && shown.effective == c.effective)
      || (shown.canonical == shown.effective && shown.canonical != c.canonical)
  }

  ghost predicate Exclusive(s: System) {
    && (forall a, b {:trigger Apart(s, a, b)} :: Apart(s, a, b))
    && (forall id {:trigger Home(s, id)} :: Home(s, id))
    && (forall id {:trigger Mirrors(s, id)} :: Mirrors(s, id))
  }

  /**
   What exclusivity asks of a step: no context starts on another's worktree, and no other context
   was applied on the Runtime between a context's apply and its selecting a project or its save.
   */
  ghost predicate Tidy(s: System, step: Step) {
    && (step.NewContext? && step.r in s.runtimes ==> s.runtimes[step.r].effective == s.runtimes[step.r].canonical)
    && ((step.SaveContext? || step.SelectProject?) && s.Ready(step.id) ==> s.runtimes[s.serving[step.id]].setBy == Some(step.id))
  }

  /** No context is new, and none changed workspace or claim. */
  ghost predicate SamePlaces(cs: Registry, cs': Registry) {
    forall id :: id in cs' ==>
                   && id in cs && cs'[id].canonical == cs[id].canonical
                   && cs'[id].effective == cs[id].effective && cs'[id].claimed == cs[id].claimed
  }

  /** Steps that only take locks, count leases or drop contexts. */
  lemma ExclusiveCarriesOver(s: System, s': System)
    requires Exclusive(s) && s.used <= s'.used
    requires (s'.isolating, s'.stranded, s'.resuming, s'.stale) == (s.isolating, s.stranded, s.resuming, s.stale)
    requires (s'.runtimes, s'.serving) == (s.runtimes, s.serving)
    requires SamePlaces(s.contexts, s'.contexts)
    ensures Exclusive(s')
  {
    forall id ensures Home(s', id) { assert Home(s, id); }
    forall id ensures Mirrors(s', id) { assert Mirrors(s, id); }
    forall a, b ensures Apart(s', a, b) { assert Apart(s, a, b); }
  }

  /** The three parts of the invariant after a step, one context or pair at a time. */
  lemma ExclusiveByParts(s: System, s': System)
    requires Exclusive(s)
    requires forall a, b {:trigger Apart(s', a, b)} ::
               Apart(s, a, b) && Home(s, a) && Home(s, b) && Mirrors(s, a) && Mirrors(s, b) ==> Apart(s', a, b)
    requires forall id {:trigger Home(s', id)} :: Home(s, id) && Mirrors(s, id) ==> Home(s', id)
    requires forall id {:trigger Mirrors(s', id)} :: Home(s, id) && Mirrors(s, id) ==> Mirrors(s', id)
    ensures Exclusive(s')
  {
    hide Apart, Home, Mirrors;
  }

  lemma ExclusiveAfterNew(s: System, id: ContextId, victim: Option<ContextId>, r: Runtime, cwd: Root, now: int)
    requires Exclusive(s) && id !in s.used && r in s.runtimes && s.runtimes[r].effective == s.runtimes[r].canonical
    ensures Exclusive(s.NewContext(id, victim, r, cwd, now))
  {
    ExclusiveByParts(s, s.NewContext(id, victim, r, cwd, now));
  }

  lemma ExclusiveAfterApply(s: System, id: ContextId, r: Runtime)
    requires Exclusive(s) && id in s.contexts && (id in s.serving ==> s.serving[id] == r)
    ensures Exclusive(s.Apply(id, r))
  {
    assert Home(s, id);
    ExclusiveByParts(s, s.Apply(id, r));
  }

  lemma ExclusiveAfterSelect(s: System, id: ContextId, root: Root)
    requires Exclusive(s) && s.Ready(id) && id in s.contexts && s.contexts[id].canonical != root
    ensures Exclusive(s.Select(id, root))
  {
    ExclusiveByParts(s, s.Select(id, root));
  }

  /** A context saved from a Runtime that still shows it keeps its workspace, or moves to a project as a newcomer. */
  lemma ExclusiveAfterSave(s: System, id: ContextId, cwd: Root, now: int)
    requires Exclusive(s) && s.Ready(id) && s.runtimes[s.serving[id]].setBy == Some(id)
    ensures Exclusive(s.Save(id, cwd, now))
  {
    assert Mirrors(s, id) && Home(s, id);
    ExclusiveByParts(s, s.Save(id, cwd, now));
  }

  lemma ExclusiveAfterLeave(s: System, id: ContextId)
    requires Exclusive(s)
    ensures Exclusive(s.Leave(id))
  {
    ExclusiveByParts(s, s.Leave(id));
  }

  lemma ExclusiveAfterRuntime(s: System, r: Runtime, root: Root)
    requires Exclusive(s) && r !in s.runtimes
    ensures Exclusive(s.(runtimes := s.runtimes[r := Shown(root, root, None)]))
  {
    ExclusiveByParts(s, s.(runtimes := s.runtimes[r := Shown(root, root, None)]));
  }

  lemma ExclusiveAfterClaim(s: System, id: ContextId, now: int)
    requires Exclusive(s) && id in s.contexts && s.Ready(id)
    ensures Exclusive(s.Claimed(id, now))
  {
    assert Home(s, id);
    ExclusiveByParts(s, s.Claimed(id, now));
  }

  lemma ExclusiveAfterBind(s: System, id: ContextId, worktree: Root, cwd: Root, now: int)
    requires Exclusive(s) && id in s.contexts && id in s.isolating && Fresh(s, worktree)
    ensures Exclusive(s.Bind(id, worktree, cwd, now))
  {
    assert Home(s, id);
    ExclusiveByParts(s, s.Bind(id, worktree, cwd, now));
  }

  lemma ExclusiveAfterUnclaim(s: System, id: ContextId, now: int)
    requires Exclusive(s) && id in s.isolating
    ensures Exclusive(s.Unclaim(id, now)) && Exclusive(s.Strand(id))
  {
    assert Home(s, id);
    ExclusiveByParts(s, s.Unclaim(id, now));
    ExclusiveByParts(s, s.Strand(id));
  }

  lemma ExclusiveAfterResume(s: System, id: ContextId, target: Root, cwd: Root, now: int)
    requires Exclusive(s) && id in s.contexts && s.Ready(id) && ClaimVerdict(s.contexts, id, target).Bound?
    ensures Exclusive(s.BeginResume(id, target, cwd, now))
  {
    assert Home(s, id);
    ExclusiveByParts(s, s.BeginResume(id, target, cwd, now));
  }

  lemma ExclusiveAfterResumeEnds(s: System, id: ContextId, now: int)
    requires Exclusive(s) && id in s.resuming
    ensures Exclusive(s.FailResume(id, now)) && Exclusive(s.(resuming := s.resuming - {id}))
  {
    assert Home(s, id);
    ExclusiveByParts(s, s.FailResume(id, now));
    ExclusiveByParts(s, s.(resuming := s.resuming - {id}));
  }

  /** Calls, jobs and lifetime leave the workspaces alone. */
  predicate Bystander(step: Step) {
    match step
    case BeginCall(_, _) => true
    case EndCall(_, _) => true
    case OpenJob(_, _) => true
    case RetainJob(_, _) => true
    case TakeJob(_) => true
    case ReleaseJob(_, _) => true
    case PruneContexts(_) => true
    case CloseContexts => true
    case _ => false
  }

  lemma ExclusiveAfterBystander(s: System, step: Step)
    requires Exclusive(s) && Enabled(s, step) && Bystander(step)
    ensures Exclusive(After(s, step))
  {
    hide Exclusive, JobsOf, Fresh, Contended;
    PlacesAfterBystander(s, step);
    ExclusiveCarriesOver(s, After(s, step));
  }

  lemma PlacesAfterBystander(s: System, step: Step)
    requires Enabled(s, step) && Bystander(step)
    ensures var s' := After(s, step);
            && s.used <= s'.used && SamePlaces(s.contexts, s'.contexts)
            && (s'.isolating, s'.stranded, s'.resuming, s'.stale) == (s.isolating, s.stranded, s.resuming, s.stale)
            && (s'.runtimes, s'.serving) == (s.runtimes, s.serving)
  {
    hide JobsOf, Fresh, Contended, SamePlaces, Retain, Release, Prune;
    NoPlaceMoves(s.contexts);
    match step
    case BeginCall(id, now) => LeasingKeepsPlaces(s.contexts, id, now);
    case EndCall(id, now) => LeasingKeepsPlaces(s.contexts, id, now);
    case RetainJob(h, now) => LeasingKeepsPlaces(s.contexts, s.opening[h], now);
    case ReleaseJob(owner, now) => LeasingKeepsPlaces(s.contexts, owner, now);
    case PruneContexts(cutoff) => PruningKeepsPlaces(s.contexts, cutoff);
    case _ =>
  }

  lemma NoPlaceMoves(cs: Registry)
    ensures SamePlaces(cs, cs) && SamePlaces(cs, map[])
  {}

  lemma LeasingKeepsPlaces(cs: Registry, id: ContextId, now: int)
    ensures SamePlaces(cs, Retain(cs, id, now)) && SamePlaces(cs, Release(cs, id, now))
  {}

  lemma PruningKeepsPlaces(cs: Registry, cutoff: int)
    ensures SamePlaces(cs, Prune(cs, cutoff))
  {}

  /** Every tidy step keeps workspaces apart; only a foreign save or a birth on a worktree can break it. */
  lemma ExclusiveKept(s: System, step: Step)
    requires Exclusive(s) && Enabled(s, step) && Tidy(s, step)
    ensures Exclusive(After(s, step))
  {
    hide Exclusive, JobsOf, Fresh, Contended;
    if Bystander(step) {
      ExclusiveAfterBystander(s, step);
    } else {
      match step
      case NewRuntime(r, root) => ExclusiveAfterRuntime(s, r, root);
      case NewContext(id, victim, r, cwd, now) => ExclusiveAfterNew(s, id, victim, r, cwd, now);
      case ApplyContext(id, r) => ExclusiveAfterApply(s, id, r);
      case ReapplyContext(id) => ExclusiveAfterApply(s, id, s.serving[id]);
      case SelectProject(id, root) => ExclusiveAfterSelect(s, id, root);
      case SaveContext(id, cwd, now) => ExclusiveAfterSave(s, id, cwd, now);
      case LeaveContext(id) => ExclusiveAfterLeave(s, id);
      case ClaimWorkspace(id, now) => ExclusiveAfterClaim(s, id, now);
      case BindWorktree(id, worktree, cwd, now) => ExclusiveAfterBind(s, id, worktree, cwd, now);
      case UndoClaim(id, now) => ExclusiveAfterUnclaim(s, id, now);
      case StrandClaim(id) => ExclusiveAfterUnclaim(s, id, 0);
      case BeginResume(id, target, cwd, now) => ExclusiveAfterResume(s, id, target, cwd, now);
      case FinishResume(id) => ExclusiveAfterResumeEnds(s, id, 0);
      case FailResume(id, now) => ExclusiveAfterResumeEnds(s, id, now);
    }
  }

  // ----- runs -----

  ghost predicate Run(s: System, steps: seq<Step>, s': System)
    decreases |steps|
  {
    if steps == [] then s' == s
    else Enabled(s, steps[0]) && Run(After(s, steps[0]), steps[1..], s')
  }

  ghost predicate TidyRun(s: System, steps: seq<Step>)
    decreases |steps|
  {
    steps != [] && Enabled(s, steps[0]) ==> Tidy(s, steps[0]) && TidyRun(After(s, steps[0]), steps[1..])
  }

  lemma {:induction false} LeasesAlways(s: System, steps: seq<Step>, s': System)
    requires Leases(s) && Run(s, steps, s')
    ensures Leases(s')
    decreases |steps|
  {
    hide Leases, Enabled, After;
    if steps != [] {
      LeasesKept(s, steps[0]);
      LeasesAlways(After(s, steps[0]), steps[1..], s');
    }
  }

  lemma {:induction false} ExclusiveAlways(s: System, steps: seq<Step>, s': System)
    requires Exclusive(s) && Run(s, steps, s') && TidyRun(s, steps)
    ensures Exclusive(s')
    decreases |steps|
  {
    hide Exclusive, Enabled, After, Tidy;
    if steps != [] {
      ExclusiveKept(s, steps[0]);
      ExclusiveAlways(After(s, steps[0]), steps[1..], s');
    }
  }

  lemma InitialHolds()
    ensures Leases(INITIAL) && Exclusive(INITIAL)
  {}

  /** Conservation across both registries, for every interleaving. */
  lemma LeaseConservation(steps: seq<Step>, s: System, id: ContextId)
    requires Run(INITIAL, steps, s) && id in s.contexts
    ensures s.contexts[id].leases == s.calls[id] + |JobsOf(s.jobs, id)| + s.closing[id] - |JobsOf(s.opening, id)|
    // The clamp of `release` never fires.
    ensures |JobsOf(s.opening, id)| < s.calls[id] || id in s.closing ==> s.contexts[id].leases > 0
    // A context that may be pruned or evicted has no recorded job...
    ensures s.contexts[id].leases == 0 ==> JobsOf(s.jobs, id) == {} && id !in s.closing
    // ...and exactly these have no lease.
    ensures s.contexts[id].leases == 0 <==>
            |JobsOf(s.jobs, id)| == 0 && s.closing[id] == 0 && |JobsOf(s.opening, id)| == s.calls[id]
  {
    InitialHolds();
    LeasesAlways(INITIAL, steps, s);
    assert LeaseLaw(s, id);
    if |JobsOf(s.jobs, id)| == 0 { assert JobsOf(s.jobs, id) == {}; }
  }

  /** No job is taken out between being recorded and being retained. */
  ghost predicate NoEarlyTake(steps: seq<Step>, s: System)
    decreases |steps|
  {
    steps != [] && Enabled(s, steps[0]) ==>
      && (steps[0].TakeJob? ==> steps[0].h !in s.opening)
      && NoEarlyTake(steps[1..], After(s, steps[0]))
  }

  ghost predicate Opened(s: System) {
    forall h :: h in s.opening ==> h in s.jobs
  }

  lemma {:induction false} OpenedAlways(s: System, steps: seq<Step>, s': System)
    requires Opened(s) && Run(s, steps, s') && NoEarlyTake(steps, s)
    ensures Opened(s')
    decreases |steps|
  {
    hide Enabled, After;
    if steps != [] {
      OpenedKept(s, steps[0]);
      OpenedAlways(After(s, steps[0]), steps[1..], s');
    }
  }

  lemma OpenedKept(s: System, step: Step)
    requires Opened(s) && Enabled(s, step) && (step.TakeJob? ==> step.h !in s.opening)
    ensures Opened(After(s, step))
  {
    hide JobsOf, Fresh, Contended, Displaces, RoomFor, Retain, Release, Prune, Update, Claim, Create, RollbackClaim, RollbackExisting;
    if !step.OpenJob? && !step.RetainJob? && !step.TakeJob? { SameJobs(s, step); }
  }

  /** Jobs change only by being registered or taken out. */
  lemma SameJobs(s: System, step: Step)
    requires Enabled(s, step) && !step.OpenJob? && !step.RetainJob? && !step.TakeJob?
    ensures After(s, step).jobs == s.jobs && After(s, step).opening == s.opening
  {
    hide After, Enabled;
    if step.BeginCall? || step.EndCall? || step.ReleaseJob? || step.NewContext? {
      SameJobsCounted(s, step);
    } else {
      LeasesAside(s, step);
    }
  }

  lemma SameJobsCounted(s: System, step: Step)
    requires Enabled(s, step) && (step.BeginCall? || step.EndCall? || step.ReleaseJob? || step.NewContext?)
    ensures After(s, step).jobs == s.jobs && After(s, step).opening == s.opening
  {
    hide JobsOf, RoomFor, Fresh, Contended, ClaimVerdict, MustIsolate, Displaces, Retain, Release, Create, Update, Prune, Claim, RollbackClaim, RollbackExisting;
  }

  /** Then a context with a running call or a recorded job always holds a lease. */
  lemma RunningCallsArePinned(steps: seq<Step>, s: System, id: ContextId)
    requires Run(INITIAL, steps, s) && NoEarlyTake(steps, INITIAL) && id in s.contexts
    requires id in s.calls || JobsOf(s.jobs, id) != {}
    ensures s.contexts[id].leases > 0
    // No step but closing the registry takes it away.
    ensures forall step :: Enabled(s, step) && !step.CloseContexts? ==> id in After(s, step).contexts
  {
    forall step | Enabled(s, step) && !step.CloseContexts? && s.contexts[id].leases > 0 ensures id in After(s, step).contexts {
      LeasedStays(s, step, id);
    }
    hide Enabled, After;
    LeaseConservation(steps, s, id);
    InitialHolds();
    LeasesAlways(INITIAL, steps, s);
    OpenedAlways(INITIAL, steps, s);
    forall h | h in JobsOf(s.opening, id) ensures h in JobsOf(s.jobs, id) { assert OneOwner(s, h); }
    Smaller(JobsOf(s.opening, id), JobsOf(s.jobs, id));
  }

  lemma LeasedStays(s: System, step: Step, id: ContextId)
    requires Enabled(s, step) && !step.CloseContexts? && id in s.contexts && s.contexts[id].leases > 0
    ensures id in After(s, step).contexts
  {
    hide JobsOf, Fresh, Contended, RoomFor, OldestUnleased;
    match step
    case NewContext(_, victim, _, _, _) => if victim.Some? { DisplacedIsThere(s.contexts, victim); }
    case PruneContexts(_) =>
    case _ => SameContexts(s, step);
  }

  lemma SameContexts(s: System, step: Step)
    requires Enabled(s, step) && !step.NewContext? && !step.PruneContexts? && !step.CloseContexts?
    ensures After(s, step).contexts.Keys == s.contexts.Keys
  {
    hide After, Enabled;
    if Counts(step) {
      ContextsCounted(s, step);
    } else if Rebinds(step) {
      ContextsRebound(s, step);
    } else {
      ContextsLeft(s, step);
    }
  }

  /** Steps that count leases... */
  predicate Counts(step: Step) {
    step.BeginCall? || step.EndCall? || step.RetainJob? || step.ReleaseJob?
  }

  /** ...and steps that move a context to another workspace, or claim one. */
  predicate Rebinds(step: Step) {
    step.SaveContext? || step.ClaimWorkspace? || step.BindWorktree? || step.UndoClaim? || step.BeginResume? || step.FailResume?
  }

  lemma ContextsCounted(s: System, step: Step)
    requires Enabled(s, step) && Counts(step)
    ensures After(s, step).contexts.Keys == s.contexts.Keys
  {
    hide JobsOf;
  }

  lemma ContextsRebound(s: System, step: Step)
    requires Enabled(s, step) && Rebinds(step)
    ensures After(s, step).contexts.Keys == s.contexts.Keys
  {
    hide JobsOf, RoomFor, Displaces, Retain, Release, Create, Prune, Fresh, Contended, ClaimVerdict, MustIsolate;
  }

  lemma ContextsLeft(s: System, step: Step)
    requires Enabled(s, step) && !Counts(step) && !Rebinds(step) && !step.NewContext? && !step.PruneContexts? && !step.CloseContexts?
    ensures After(s, step).contexts == s.contexts
  {
    hide JobsOf, RoomFor;
  }

  lemma Smaller(a: set<Handle>, b: set<Handle>)
    requires a <= b
    ensures |a| <= |b|
  {
    assert b == a + (b - a);
  }

  /** Two claimed contexts of one project share a workspace only while one of them is being
      isolated, or after its isolation broke off half-way. */
  lemma WorkspaceExclusivity(steps: seq<Step>, s: System, a: ContextId, b: ContextId)
    requires Run(INITIAL, steps, s) && TidyRun(INITIAL, steps) && a != b && a in s.contexts && b in s.contexts
    requires s.contexts[a].claimed && s.contexts[b].claimed && s.contexts[a].canonical == s.contexts[b].canonical
    requires s.contexts[a].effective == s.contexts[b].effective
    ensures exists k :: k in {a, b} && (k in s.isolating || k in s.stranded) && s.contexts[k].effective == s.contexts[k].canonical
  {
    InitialHolds();
    ExclusiveAlways(INITIAL, steps, s);
    assert Apart(s, a, b) && Home(s, a) && Home(s, b);
    var k := if a in s.isolating || a in s.stranded then a else b;
    assert k in {a, b};
  }

  /** A broken-off isolation is never made good: later claims report that none is needed. */
  lemma StrandedStaysShared(steps: seq<Step>, s: System, id: ContextId)
    requires Run(INITIAL, steps, s) && TidyRun(INITIAL, steps) && id in s.stranded && id in s.contexts
    ensures !MustIsolate(s.contexts, id) && s.contexts[id].effective == s.contexts[id].canonical
  {
    InitialHolds();
    ExclusiveAlways(INITIAL, steps, s);
    assert Home(s, id);
  }

  // ----- where it fails -----

  /** A project selected during a call is where the context is when the call ends, without a claim from elsewhere. */
  lemma SelectedIsSaved(s: System, id: ContextId, root: Root, cwd: Root, now: int)
    requires Enabled(s, Step.SelectProject(id, root))
    ensures var s' := After(s, Step.SelectProject(id, root));
            && s'.contexts == s.contexts && Enabled(s', Step.SaveContext(id, cwd, now))
            && var c := After(s', Step.SaveContext(id, cwd, now)).contexts[id];
            && (c.canonical, c.effective, c.cwd, c.leases) == (root, root, cwd, s.contexts[id].leases)
            && (c.claimed ==> s.contexts[id].claimed && s.contexts[id].canonical == root)
  {
    hide JobsOf, Fresh, Contended, Displaces, RoomFor;
  }

  /** Two settled claims of one project on one workspace. */
  ghost predicate Shared(s: System, a: ContextId, b: ContextId) {
    && a != b && Settled(s, a) && Settled(s, b)
    && s.contexts[a].canonical == s.contexts[b].canonical && s.contexts[a].effective == s.contexts[b].effective
  }

  /** Any claimed context saved from a Runtime that shows another one's workspace ends up on it. */
  lemma ForeignSaveShares(s: System, a: ContextId, b: ContextId, cwd: Root, now: int)
    requires s.Ready(a) && a != b && Settled(s, a) && Settled(s, b) && s.contexts[a].canonical == s.contexts[b].canonical
    requires var shown := s.runtimes[s.serving[a]];
             shown.setBy == Some(b) && shown.canonical == s.contexts[b].canonical && shown.effective == s.contexts[b].effective
    ensures !Tidy(s, SaveContext(a, cwd, now)) && Shared(s.Save(a, cwd, now), a, b)
  {}

  /** One Runtime, two contexts of one project, no jobs and no calls counted. */
  function Scene(
    a: Context, b: Context, shown: Shown, serving: map<ContextId, Runtime>,
    isolating: set<ContextId>, stranded: set<ContextId>, stale: set<ContextId>): System
  {
    System(map["a" := a, "b" := b], map[], {"a", "b"}, multiset{}, map[], multiset{}, isolating, stranded, map[],
           map["r" := shown], serving, stale)
  }

  const FREE := Context("p", "p", "p", 0, 0, false)
  const HELD := Context("p", "p", "p", 1, 0, true)
  const AWAY := Context("p", "w", "w", 2, 0, true)
  const SEEN_A := Shown("p", "p", Some("a"))
  const SEEN_B := Shown("p", "p", Some("b"))
  const SEEN_W := Shown("p", "w", Some("b"))

  /** A run all of whose steps are tidy. */
  ghost predicate TidyPath(s: System, steps: seq<Step>, s': System) {
    Run(s, steps, s') && TidyRun(s, steps)
  }

  lemma One(s: System, step: Step, s': System)
    requires Enabled(s, step) && After(s, step) == s' && Tidy(s, step)
    ensures TidyPath(s, [step], s')
  {
    hide Enabled, After, Tidy;
    assert [step][1..] == [];
    assert Run(s', [], s') && TidyRun(s', []);
  }

  lemma {:induction false} Follow(s: System, steps: seq<Step>, s': System, rest: seq<Step>, s'': System)
    requires TidyPath(s, steps, s')
    ensures Run(s', rest, s'') ==> Run(s, steps + rest, s'')
    ensures TidyPath(s', rest, s'') ==> TidyPath(s, steps + rest, s'')
    decreases |steps|
  {
    hide Enabled, After, Tidy;
    if steps == [] {
      assert steps + rest == rest;
    } else {
      Follow(After(s, steps[0]), steps[1..], s', rest, s'');
      assert (steps + rest)[1..] == steps[1..] + rest;
    }
  }

  // Single steps as paths.

  lemma Opens(s: System, r: Runtime, root: Root)
    requires r !in s.runtimes
    ensures TidyPath(s, [NewRuntime(r, root)], s.(runtimes := s.runtimes[r := Shown(root, root, None)]))
  {
    hide Run, TidyRun, TidyPath;
    One(s, NewRuntime(r, root), s.(runtimes := s.runtimes[r := Shown(root, root, None)]));
  }

  lemma Starts(s: System, id: ContextId, r: Runtime, cwd: Root)
    requires id !in s.used && |s.contexts| < MAX_LOGICAL_CONTEXTS && r in s.runtimes
    requires s.runtimes[r].effective == s.runtimes[r].canonical
    ensures TidyPath(s, [NewContext(id, None, r, cwd, 0)], s.NewContext(id, None, r, cwd, 0))
  {
    hide Run, TidyRun, TidyPath;
    One(s, NewContext(id, None, r, cwd, 0), s.NewContext(id, None, r, cwd, 0));
  }

  lemma Applies(s: System, id: ContextId, r: Runtime)
    requires id in s.contexts && id !in s.serving && r in s.runtimes
    ensures TidyPath(s, [ApplyContext(id, r)], s.Apply(id, r))
  {
    hide Run, TidyRun, TidyPath;
    One(s, ApplyContext(id, r), s.Apply(id, r));
  }

  lemma Claims(s: System, id: ContextId)
    requires id in s.contexts && s.Ready(id)
    ensures TidyPath(s, [ClaimWorkspace(id, 1)], s.Claimed(id, 1))
  {
    hide Run, TidyRun, TidyPath, Contended;
    One(s, ClaimWorkspace(id, 1), s.Claimed(id, 1));
  }

  lemma Leaves(s: System, id: ContextId)
    requires id in s.serving && id !in s.isolating && id !in s.resuming
    ensures TidyPath(s, [LeaveContext(id)], s.Leave(id))
  {
    hide Run, TidyRun, TidyPath;
    One(s, LeaveContext(id), s.Leave(id));
  }

  /** A worktree is bound, and the Runtime shows it. */
  lemma Moves(s: System, id: ContextId, worktree: Root)
    requires id in s.contexts && id in s.serving && id in s.isolating && Fresh(s, worktree)
    ensures TidyPath(s, [BindWorktree(id, worktree, worktree, 2)] + [ReapplyContext(id)],
                     s.Bind(id, worktree, worktree, 2).Apply(id, s.serving[id]))
  {
    hide Run, TidyRun, TidyPath, Fresh;
    var s1 := s.Bind(id, worktree, worktree, 2);
    One(s, BindWorktree(id, worktree, worktree, 2), s1);
    One(s1, ReapplyContext(id), s1.Apply(id, s.serving[id]));
    Follow(s, [BindWorktree(id, worktree, worktree, 2)], s1, [ReapplyContext(id)], s1.Apply(id, s.serving[id]));
  }

  // The scene, act by act.

  lemma SceneOpens() returns (steps: seq<Step>)
    ensures TidyPath(INITIAL, steps, Scene(FREE, FREE, Shown("p", "p", None), map[], {}, {}, {}))
  {
    hide Run, TidyRun, TidyPath, Enabled, After;
    Opens(INITIAL, "r", "p");
    var s1 := INITIAL.(runtimes := INITIAL.runtimes["r" := Shown("p", "p", None)]);
    Starts(s1, "a", "r", "p");
    var s2 := s1.NewContext("a", None, "r", "p", 0);
    Starts(s2, "b", "r", "p");
    var s3 := Scene(FREE, FREE, Shown("p", "p", None), map[], {}, {}, {});
    assert s2.NewContext("b", None, "r", "p", 0) == s3;
    Follow(s1, [NewContext("a", None, "r", "p", 0)], s2, [NewContext("b", None, "r", "p", 0)], s3);
    var rest := [NewContext("a", None, "r", "p", 0)] + [NewContext("b", None, "r", "p", 0)];
    Follow(INITIAL, [NewRuntime("r", "p")], s1, rest, s3);
    steps := [NewRuntime("r", "p")] + rest;
  }

  /** `a` claims the canonical root and its call ends. */
  lemma FirstClaims() returns (steps: seq<Step>)
    ensures TidyPath(Scene(FREE, FREE, Shown("p", "p", None), map[], {}, {}, {}), steps, Scene(HELD, FREE, SEEN_A, map[], {}, {}, {}))
  {
    hide Run, TidyRun, TidyPath, Enabled, After;
    var s := Scene(FREE, FREE, Shown("p", "p", None), map[], {}, {}, {});
    Applies(s, "a", "r");
    var s1 := s.Apply("a", "r");
    Claims(s1, "a");
    assert !Contended(s1.contexts, "a");
    var s2, s3 := s1.Claimed("a", 1), Scene(HELD, FREE, SEEN_A, map[], {}, {}, {});
    Leaves(s2, "a");
    assert s2.Leave("a") == s3;
    Follow(s1, [ClaimWorkspace("a", 1)], s2, [LeaveContext("a")], s3);
    Follow(s, [ApplyContext("a", "r")], s1, [ClaimWorkspace("a", 1)] + [LeaveContext("a")], s3);
    steps := [ApplyContext("a", "r")] + ([ClaimWorkspace("a", 1)] + [LeaveContext("a")]);
  }

  /** `b` claims too, and must be isolated. */
  lemma SecondClaims() returns (steps: seq<Step>)
    ensures TidyPath(Scene(HELD, FREE, SEEN_A, map[], {}, {}, {}), steps, Scene(HELD, HELD, SEEN_B, map["b" := "r"], {"b"}, {}, {}))
  {
    hide Run, TidyRun, TidyPath, Enabled, After;
    var s := Scene(HELD, FREE, SEEN_A, map[], {}, {}, {});
    Applies(s, "b", "r");
    var s1, s2 := s.Apply("b", "r"), Scene(HELD, HELD, SEEN_B, map["b" := "r"], {"b"}, {}, {});
    Claims(s1, "b");
    assert Contended(s1.contexts, "b") by { assert s1.contexts["a"].claimed; }
    assert s1.Claimed("b", 1) == s2;
    Follow(s, [ApplyContext("b", "r")], s1, [ClaimWorkspace("b", 1)], s2);
    steps := [ApplyContext("b", "r")] + [ClaimWorkspace("b", 1)];
  }

  lemma BothClaim() returns (steps: seq<Step>)
    ensures TidyPath(INITIAL, steps, Scene(HELD, HELD, SEEN_B, map["b" := "r"], {"b"}, {}, {}))
  {
    hide *;
    var start := SceneOpens();
    var first := FirstClaims();
    var second := SecondClaims();
    var s1, s2 := Scene(FREE, FREE, Shown("p", "p", None), map[], {}, {}, {}), Scene(HELD, FREE, SEEN_A, map[], {}, {}, {});
    var s3 := Scene(HELD, HELD, SEEN_B, map["b" := "r"], {"b"}, {}, {});
    Follow(s1, first, s2, second, s3);
    Follow(INITIAL, start, s1, first + second, s3);
    steps := start + (first + second);
  }

  /** `b` is isolated in worktree `w`, and its Runtime shows it there. */
  lemma SecondMoves() returns (steps: seq<Step>)
    ensures TidyPath(INITIAL, steps, Scene(HELD, AWAY, SEEN_W, map["b" := "r"], {}, {}, {}))
  {
    hide Run, TidyRun, TidyPath, Enabled, After;
    var claims := BothClaim();
    var s := Scene(HELD, HELD, SEEN_B, map["b" := "r"], {"b"}, {}, {});
    Moves(s, "b", "w");
    var s1, rest := Scene(HELD, AWAY, SEEN_W, map["b" := "r"], {}, {}, {}), [BindWorktree("b", "w", "w", 2)] + [ReapplyContext("b")];
    assert s.Bind("b", "w", "w", 2).Apply("b", "r") == s1;
    Follow(INITIAL, claims, s, rest, s1);
    steps := claims + rest;
  }

  /** The isolation of a contended claim breaks off after the worktree was created: a tidy run, and two claims on one root. */
  lemma StrandedWitness()
    ensures exists steps, s ::
              TidyPath(INITIAL, steps, s) && "b" in s.stranded && s.isolating == {} && s.contexts == map["a" := HELD, "b" := HELD]
  {
    hide Run, TidyRun, TidyPath;
    var claims := BothClaim();
    var s := Scene(HELD, HELD, SEEN_B, map["b" := "r"], {"b"}, {}, {});
    var s1 := s.Strand("b");
    One(s, StrandClaim("b"), s1);
    Follow(INITIAL, claims, s, [StrandClaim("b")], s1);
  }

  /** One Runtime serves both contexts at once: `a` applies, `b` applies, `a` saves, and is on `b`'s worktree. */
  lemma ForeignSaveWitness()
    ensures exists steps, s, last: Step :: TidyPath(INITIAL, steps, s) && last.SaveContext? && Enabled(s, last) && Shared(After(s, last), "a", "b")
  {
    hide Run, TidyRun, TidyPath;
    var moved := SecondMoves();
    var s := Scene(HELD, AWAY, SEEN_W, map["b" := "r"], {}, {}, {});
    var both := BothServed();
    var s3 := Scene(HELD, AWAY, SEEN_W, map["a" := "r", "b" := "r"], {}, {}, {});
    Follow(INITIAL, moved, s, both, s3);
    ForeignSaveShares(s3, "a", "b", "p", 3);
    var last := SaveContext("a", "p", 3);
    assert Enabled(s3, last) && After(s3, last) == s3.Save("a", "p", 3);
  }

  lemma BothServed() returns (steps: seq<Step>)
    ensures TidyPath(Scene(HELD, AWAY, SEEN_W, map["b" := "r"], {}, {}, {}), steps,
                     Scene(HELD, AWAY, SEEN_W, map["a" := "r", "b" := "r"], {}, {}, {}))
  {
    hide Run, TidyRun, TidyPath, Enabled, After;
    var s := Scene(HELD, AWAY, SEEN_W, map["b" := "r"], {}, {}, {});
    Leaves(s, "b");
    var s1 := s.Leave("b");
    Applies(s1, "a", "r");
    var s2 := s1.Apply("a", "r");
    Applies(s2, "b", "r");
    var s3 := Scene(HELD, AWAY, SEEN_W, map["a" := "r", "b" := "r"], {}, {}, {});
    assert s2.Apply("b", "r") == s3;
    Follow(s1, [ApplyContext("a", "r")], s2, [ApplyContext("b", "r")], s3);
    Follow(s, [LeaveContext("b")], s1, [ApplyContext("a", "r")] + [ApplyContext("b", "r")], s3);
    steps := [LeaveContext("b")] + ([ApplyContext("a", "r")] + [ApplyContext("b", "r")]);
  }

  /** A context created while its Runtime shows another's worktree shares it after its claim. */
  lemma BornOnWorktree()
    ensures exists steps, s, birth: Step, rest, s' ::
              && TidyPath(INITIAL, steps, s) && birth.NewContext? && Enabled(s, birth)
              && TidyPath(After(s, birth), rest, s') && Shared(s', "b", "c")
  {
    hide Run, TidyRun, TidyPath;
    var moved := SecondMoves();
    var s := Scene(HELD, AWAY, SEEN_W, map["b" := "r"], {}, {}, {});
    var birth := NewContext("c", None, "r", "w", 3);
    assert Enabled(s, birth);
    var s1 := After(s, birth);
    var s2 := BornClaims(s1);
  }

  lemma BornClaims(s: System) returns (s': System)
    requires s == Scene(HELD, AWAY, SEEN_W, map["b" := "r"], {}, {}, {}).NewContext("c", None, "r", "w", 3)
    ensures TidyPath(s, [ApplyContext("c", "r")] + [ClaimWorkspace("c", 1)], s') && Shared(s', "b", "c")
  {
    hide Run, TidyRun, TidyPath, Enabled, After;
    Applies(s, "c", "r");
    var s1 := s.Apply("c", "r");
    Claims(s1, "c");
    s' := s1.Claimed("c", 1);
    Follow(s, [ApplyContext("c", "r")], s1, [ClaimWorkspace("c", 1)], s');
  }

  /** A job is taken out before its context was retained: the call that registers it goes on, its context does not. */
  lemma EarlyTakeUnpins()
    ensures exists steps, s :: TidyPath(INITIAL, steps, s) && "a" in s.calls && "a" !in s.contexts
  {
    hide Run, TidyRun, TidyPath, Enabled, After;
    Opens(INITIAL, "r", "p");
    var s1 := INITIAL.(runtimes := INITIAL.runtimes["r" := Shown("p", "p", None)]);
    Starts(s1, "a", "r", "p");
    var s2 := s1.NewContext("a", None, "r", "p", 0);
    var rest, end := ContextLost(s2);
    Follow(s1, [NewContext("a", None, "r", "p", 0)], s2, rest, end);
    Follow(INITIAL, [NewRuntime("r", "p")], s1, [NewContext("a", None, "r", "p", 0)] + rest, end);
  }

  lemma ContextLost(s: System) returns (steps: seq<Step>, end: System)
    requires s.jobs == map[] && s.opening == map[] && s.contexts == map["a" := FREE]
    ensures TidyPath(s, steps, end) && "a" in end.calls && "a" !in end.contexts
  {
    hide Run, TidyRun, TidyPath, Enabled, After, JobsOf;
    var s1 := s.BeginCall("a", 0).OpenJob("h", "a");
    CallOpensJob(s);
    JobTakenEarly(s1);
    var s2 := s1.TakeJob("h").ReleaseJob("a", 0);
    end := s2.(contexts := Prune(s2.contexts, 1));
    var first, rest := [BeginCall("a", 0)] + [OpenJob("h", "a")], [TakeJob("h")] + [ReleaseJob("a", 0)] + [PruneContexts(1)];
    Follow(s, first, s1, rest, end);
    steps := first + rest;
  }

  lemma CallOpensJob(s: System)
    requires s.jobs == map[] && s.opening == map[]
    ensures TidyPath(s, [BeginCall("a", 0)] + [OpenJob("h", "a")], s.BeginCall("a", 0).OpenJob("h", "a"))
  {
    hide Run, TidyRun, TidyPath;
    var s1 := s.BeginCall("a", 0);
    assert JobsOf(s1.opening, "a") == {};
    One(s, BeginCall("a", 0), s1);
    One(s1, OpenJob("h", "a"), s1.OpenJob("h", "a"));
    Follow(s, [BeginCall("a", 0)], s1, [OpenJob("h", "a")], s1.OpenJob("h", "a"));
  }

  lemma JobTakenEarly(s: System)
    requires "h" in s.jobs && s.jobs["h"] == "a"
    ensures var s' := s.TakeJob("h").ReleaseJob("a", 0);
            TidyPath(s, [TakeJob("h")] + [ReleaseJob("a", 0)] + [PruneContexts(1)], s'.(contexts := Prune(s'.contexts, 1)))
  {
    hide Run, TidyRun, TidyPath, JobsOf, RoomFor;
    var s1 := s.TakeJob("h");
    var s2 := s1.ReleaseJob("a", 0);
    var s3 := s2.(contexts := Prune(s2.contexts, 1));
    One(s, TakeJob("h"), s1);
    One(s1, ReleaseJob("a", 0), s2);
    One(s2, PruneContexts(1), s3);
    Follow(s, [TakeJob("h")], s1, [ReleaseJob("a", 0)], s2);
    Follow(s, [TakeJob("h")] + [ReleaseJob("a", 0)], s2, [PruneContexts(1)], s3);
  }

  // ----- resume -----

  ghost predicate EndsResume(step: Step, id: ContextId) {
    (step.FinishResume? || step.FailResume?) && step.id == id
  }

  /** Between its claim and its end, a resume finds its context where it put it. */
  ghost predicate InResume(s: System, id: ContextId, r: Resume) {
    && id in s.used && id in s.resuming && s.resuming[id] == r && id !in s.isolating
    && (id in s.contexts ==> s.contexts[id].claimed && s.contexts[id].effective == r.target)
  }

  lemma InResumeKept(s: System, step: Step, id: ContextId, r: Resume)
    requires InResume(s, id, r) && Enabled(s, step) && !EndsResume(step, id)
    ensures InResume(After(s, step), id, r)
  {
    hide JobsOf, Fresh, Contended, After, Enabled;
    if Bystander(step) {
      PlacesAfterBystander(s, step);
    } else if step.NewRuntime? || step.NewContext? || step.id != id {
      InResumeAside(s, step, id, r);
    } else {
      InResumeOwn(s, step, id, r);
    }
  }

  /** Steps on behalf of other contexts. */
  lemma InResumeAside(s: System, step: Step, id: ContextId, r: Resume)
    requires InResume(s, id, r) && Enabled(s, step) && !Bystander(step)
    requires step.NewRuntime? || step.NewContext? || step.id != id
    ensures InResume(After(s, step), id, r)
  {
    hide JobsOf, Fresh, Contended, Displaces;
  }

  /** The call that resumes the context may only apply it again. */
  lemma InResumeOwn(s: System, step: Step, id: ContextId, r: Resume)
    requires InResume(s, id, r) && Enabled(s, step) && !EndsResume(step, id) && !Bystander(step)
    requires !step.NewRuntime? && !step.NewContext? && step.id == id
    ensures InResume(After(s, step), id, r)
  {
    hide JobsOf, Fresh, Contended;
  }

  /** While one thread resumes a context, nobody else touches that context or its record of it. */
  lemma {:induction false} ResumeUndisturbed(s: System, steps: seq<Step>, s': System, id: ContextId, r: Resume)
    requires InResume(s, id, r) && Run(s, steps, s')
    requires forall k :: 0 <= k < |steps| ==> !EndsResume(steps[k], id)
    ensures InResume(s', id, r)
    decreases |steps|
  {
    hide Enabled, After, InResume, EndsResume;
    if steps != [] {
      InResumeKept(s, steps[0], id, r);
      forall k | 0 <= k < |steps[1..]| ensures !EndsResume(steps[1..][k], id) { assert steps[1..][k] == steps[k + 1]; }
      ResumeUndisturbed(After(s, steps[0]), steps[1..], s', id, r);
    }
  }

  /** A resume that fails after its claim puts the context back, whatever others did meanwhile. */
  lemma ResumeAllOrNothing(
    before: seq<Step>, s: System, id: ContextId, target: Root, cwd: Root, t0: int, during: seq<Step>, s': System, t1: int)
    requires Run(INITIAL, before, s) && id in s.contexts && s.Ready(id) && ClaimVerdict(s.contexts, id, target).Bound?
    requires Run(s.BeginResume(id, target, cwd, t0), during, s')
    requires forall k :: 0 <= k < |during| ==> !EndsResume(during[k], id)
    ensures id in s'.resuming
    ensures id in s'.contexts ==>
              && s'.contexts[id].claimed && s'.contexts[id].effective == target
              && BindingOf(s'.FailResume(id, t1).contexts[id]) == BindingOf(s.contexts[id])
  {
    hide Run, JobsOf;
    InitialHolds();
    LeasesAlways(INITIAL, before, s);
    assert LeaseLaw(s, id);
    var s1 := s.BeginResume(id, target, cwd, t0);
    var r := Resume(target, BindingOf(s.contexts[id]));
    assert InResume(s1, id, r);
    ResumeUndisturbed(s1, during, s', id, r);
  }
}
