/** How long logical contexts live, in every interleaving: both registries stay within their limits, and a context is
    pruned or displaced by when it was last used. */
module ContextLifetimes {
  import opened Prelude
  import opened Contexts
  import opened ContextRuns

  // ----- capacity -----

  ghost predicate WithinCapacity(s: System) {
    |s.contexts| <= MAX_LOGICAL_CONTEXTS && |s.jobs| <= MAX_SHARED_JOBS
  }

  lemma CapacityKept(s: System, step: Step)
    requires WithinCapacity(s) && Enabled(s, step)
    ensures WithinCapacity(After(s, step))
  {
    hide Enabled, After;
    ContextsFit(s, step);
    JobsFit(s, step);
  }

  lemma ContextsFit(s: System, step: Step)
    requires |s.contexts| <= MAX_LOGICAL_CONTEXTS && Enabled(s, step)
    ensures |After(s, step).contexts| <= MAX_LOGICAL_CONTEXTS
  {
    if step.NewContext? {
      var shown := s.runtimes[step.r];
      CreateFits(s.contexts, step.victim, step.id, shown.canonical, shown.effective, step.cwd, step.now);
    } else {
      NoNewContext(s, step);
      FewerContexts(s.contexts, After(s, step).contexts);
    }
  }

  lemma NoNewContext(s: System, step: Step)
    requires Enabled(s, step) && !step.NewContext?
    ensures forall id :: id in After(s, step).contexts ==> id in s.contexts
  {
    hide After, Enabled;
    if !step.PruneContexts? && !step.CloseContexts? { SameContexts(s, step); } else { FewerLeft(s, step); }
  }

  lemma FewerLeft(s: System, step: Step)
    requires Enabled(s, step) && (step.PruneContexts? || step.CloseContexts?)
    ensures forall id :: id in After(s, step).contexts ==> id in s.contexts
  {}

  lemma JobsFit(s: System, step: Step)
    requires |s.jobs| <= MAX_SHARED_JOBS && Enabled(s, step)
    ensures |After(s, step).jobs| <= MAX_SHARED_JOBS
  {
    hide JobsOf, Fresh, Contended, Displaces, RoomFor, Retain, Release, Prune, Update, Claim, Create, RollbackClaim, RollbackExisting;
    match step
    case OpenJob(h, owner) => OneMoreJob(s.jobs, h, owner);
    case RetainJob(h, _) => FewerJobs(s.jobs, h);
    case TakeJob(h) => FewerJobs(s.jobs, h);
    case _ => SameJobs(s, step);
  }

  lemma OneMoreJob(jobs: Jobs, h: Handle, owner: ContextId)
    requires RoomFor(jobs)
    ensures |jobs[h := owner]| <= MAX_SHARED_JOBS
  {
    assert jobs[h := owner].Keys == jobs.Keys + {h};
  }

  lemma FewerJobs(jobs: Jobs, h: Handle)
    ensures |jobs - {h}| <= |jobs|
  {
    assert (jobs - {h}).Keys == jobs.Keys - {h};
    assert h in jobs.Keys ==> |jobs.Keys| == |jobs.Keys - {h}| + 1;
    assert h !in jobs.Keys ==> jobs.Keys - {h} == jobs.Keys;
  }

  lemma {:induction false} CapacityAlways(s: System, steps: seq<Step>, s': System)
    requires WithinCapacity(s) && Run(s, steps, s')
    ensures WithinCapacity(s')
    decreases |steps|
  {
    hide WithinCapacity, Enabled, After;
    if steps != [] {
      CapacityKept(s, steps[0]);
      CapacityAlways(After(s, steps[0]), steps[1..], s');
    }
  }

  /** In every interleaving there are at most 512 contexts and 256 jobs. */
  lemma Bounded(steps: seq<Step>, s: System)
    requires Run(INITIAL, steps, s)
    ensures |s.contexts| <= 512 && |s.jobs| <= 256
  {
    hide Run;
    CapacityAlways(INITIAL, steps, s);
  }

  // ----- jobs and their contexts -----

  /** A job past its registration belongs to a live context. */
  ghost predicate HasContext(s: System, h: Handle) {
    h in s.jobs && h !in s.opening ==> s.jobs[h] in s.contexts
  }

  ghost predicate AllHaveContexts(s: System) {
    forall h {:trigger HasContext(s, h)} :: HasContext(s, h)
  }

  lemma HasContextKept(s: System, step: Step, h: Handle)
    requires Leases(s) && HasContext(s, h) && Enabled(s, step) && !step.CloseContexts?
    ensures HasContext(After(s, step), h)
  {
    hide Leases, After, Enabled;
    if h in s.jobs && h !in s.opening {
      JobIsLease(s, h);
      LeasedStays(s, step, s.jobs[h]);
    }
    JobsMove(s, step, h);
  }

  lemma JobIsLease(s: System, h: Handle)
    requires Leases(s) && h in s.jobs && s.jobs[h] in s.contexts
    ensures s.contexts[s.jobs[h]].leases > 0
  {
    assert LeaseLaw(s, s.jobs[h]);
    assert h in JobsOf(s.jobs, s.jobs[h]);
  }

  /** A job is recorded by opening it, and past its registration once its context was found alive. */
  lemma JobsMove(s: System, step: Step, h: Handle)
    requires Leases(s) && Enabled(s, step)
    ensures var s' := After(s, step);
            h in s'.jobs && h !in s'.opening ==>
              h in s.jobs && s'.jobs[h] == s.jobs[h] && (h in s.opening ==> s.jobs[h] in s'.contexts)
  {
    hide JobsOf, Fresh, Contended, Displaces, RoomFor, Prune, Update, Claim, Create, RollbackClaim, RollbackExisting;
    assert OneOwner(s, h);
    if !step.OpenJob? && !step.RetainJob? && !step.TakeJob? { SameJobs(s, step); }
  }

  lemma {:induction false} HasContextAlways(s: System, steps: seq<Step>, s': System)
    requires Leases(s) && AllHaveContexts(s) && Run(s, steps, s')
    requires forall k :: 0 <= k < |steps| ==> !steps[k].CloseContexts?
    ensures AllHaveContexts(s')
    decreases |steps|
  {
    hide Leases, Enabled, After, HasContext;
    if steps != [] {
      LeasesKept(s, steps[0]);
      forall h ensures HasContext(After(s, steps[0]), h) { HasContextKept(s, steps[0], h); }
      HasContextAlways(After(s, steps[0]), steps[1..], s');
    }
  }

  /** Until the registry of contexts is closed, every job whose registration went through has a live context, with a lease for it. */
  lemma JobsHaveContexts(steps: seq<Step>, s: System, h: Handle)
    requires Run(INITIAL, steps, s) && forall k :: 0 <= k < |steps| ==> !steps[k].CloseContexts?
    requires h in s.jobs && h !in s.opening
    ensures s.jobs[h] in s.contexts && s.contexts[s.jobs[h]].leases > 0
  {
    hide Run, Leases;
    InitialHolds();
    LeasesAlways(INITIAL, steps, s);
    HasContextAlways(INITIAL, steps, s);
    assert HasContext(s, h);
    JobIsLease(s, h);
  }

  // ----- last use -----

  /** The time at which a step uses context `id`. */
  ghost function Use(s: System, step: Step, id: ContextId): Option<int>
    requires Enabled(s, step)
  {
    match step
    case BeginCall(k, now) => if k == id then Some(now) else None
    case EndCall(k, now) => if k == id then Some(now) else None
    case RetainJob(h, now) => if s.opening[h] == id then Some(now) else None
    case ReleaseJob(k, now) => if k == id then Some(now) else None
    case NewContext(k, _, _, _, now) => if k == id then Some(now) else None
    case SaveContext(k, _, now) => if k == id then Some(now) else None
    case ClaimWorkspace(k, now) => if k == id && !s.contexts[k].claimed then Some(now) else None
    case BindWorktree(k, _, _, now) => if k == id then Some(now) else None
    case UndoClaim(k, now) =>
      if k == id && k in s.contexts && s.contexts[k].effective == s.contexts[k].canonical then Some(now) else None
    case BeginResume(k, _, _, now) => if k == id then Some(now) else None
    case FailResume(k, now) =>
      if k == id && k in s.contexts && s.contexts[k].effective == s.resuming[k].target then Some(now) else None
    case _ => None
  }

  ghost function LastUse(s: System, steps: seq<Step>, s': System, id: ContextId): Option<int>
    requires Run(s, steps, s')
    decreases |steps|
  {
    if steps == [] then None
    else
      var later := LastUse(After(s, steps[0]), steps[1..], s', id);
      if later.Some? then later else Use(s, steps[0], id)
  }

  /** What `last_seen` of a context shows after a step. */
  ghost predicate SeenAfter(s: System, step: Step, id: ContextId)
    requires Enabled(s, step) && id in After(s, step).contexts
  {
    var used, seen := Use(s, step, id), After(s, step).contexts[id].lastSeen;
    if used.Some? then seen == used.value else id in s.contexts && seen == s.contexts[id].lastSeen
  }

  lemma UseIsSeen(s: System, step: Step, id: ContextId)
    requires Enabled(s, step) && id in After(s, step).contexts
    ensures SeenAfter(s, step, id)
  {
    hide SeenAfter, Enabled, After;
    if Rebinds(step) { BindIsSeen(s, step, id); } else { OtherIsSeen(s, step, id); }
  }

  lemma BindIsSeen(s: System, step: Step, id: ContextId)
    requires Enabled(s, step) && id in After(s, step).contexts && Rebinds(step)
    ensures SeenAfter(s, step, id)
  {
    hide JobsOf, Fresh, Contended, Displaces, MustIsolate, ClaimVerdict;
  }

  lemma OtherIsSeen(s: System, step: Step, id: ContextId)
    requires Enabled(s, step) && id in After(s, step).contexts && !Rebinds(step)
    ensures SeenAfter(s, step, id)
  {
    hide SeenAfter, Enabled, After;
    if Counts(step) {
      CountIsSeen(s, step, id);
    } else if step.NewContext? || step.PruneContexts? || step.CloseContexts? {
      LifeIsSeen(s, step, id);
    } else {
      ContextsLeft(s, step);
      NothingIsSeen(s, step, id);
    }
  }

  lemma CountIsSeen(s: System, step: Step, id: ContextId)
    requires Enabled(s, step) && id in After(s, step).contexts && Counts(step)
    ensures SeenAfter(s, step, id)
  {
    hide JobsOf;
  }

  lemma LifeIsSeen(s: System, step: Step, id: ContextId)
    requires Enabled(s, step) && id in After(s, step).contexts && (step.NewContext? || step.PruneContexts? || step.CloseContexts?)
    ensures SeenAfter(s, step, id)
  {
    hide Displaces;
  }

  lemma NothingIsSeen(s: System, step: Step, id: ContextId)
    requires Enabled(s, step) && id in After(s, step).contexts && After(s, step).contexts == s.contexts
    requires !Rebinds(step) && !Counts(step) && !step.NewContext?
    ensures SeenAfter(s, step, id)
  {
    hide After, Enabled;
  }

  lemma {:induction false} LastUseIsSeen(s: System, steps: seq<Step>, s': System, id: ContextId)
    requires Run(s, steps, s') && id in s'.contexts
    ensures var used, seen := LastUse(s, steps, s', id), s'.contexts[id].lastSeen;
            if used.Some? then seen == used.value else id in s.contexts && seen == s.contexts[id].lastSeen
    decreases |steps|
  {
    hide Use, Enabled, After;
    if steps != [] {
      LastUseIsSeen(After(s, steps[0]), steps[1..], s', id);
      if LastUse(After(s, steps[0]), steps[1..], s', id).None? { UseIsSeen(s, steps[0], id); }
    }
  }

  /** No recorded job, no release due, and every call between recording a job and retaining its context. */
  ghost predicate Unpinned(s: System, id: ContextId) {
    |JobsOf(s.jobs, id)| == 0 && s.closing[id] == 0 && |JobsOf(s.opening, id)| == s.calls[id]
  }

  /** In every interleaving a prune takes exactly the unpinned contexts last used before the cutoff. */
  lemma PruningIsByLastUse(steps: seq<Step>, s: System, id: ContextId, cutoff: int)
    requires Run(INITIAL, steps, s) && id in s.contexts
    ensures var used := LastUse(INITIAL, steps, s, id);
            && used.Some?
            && (id !in After(s, Step.PruneContexts(cutoff)).contexts <==> Unpinned(s, id) && used.value < cutoff)
  {
    hide JobsOf, Run, LastUse;
    LeaseConservation(steps, s, id);
    LastUseIsSeen(INITIAL, steps, s, id);
  }

  /** In every interleaving a new context displaces another only at capacity, and then an unpinned one used longest ago. */
  lemma DisplacementIsByLastUse(steps: seq<Step>, s: System, step: Step, other: ContextId)
    requires Run(INITIAL, steps, s) && Enabled(s, step) && step.NewContext?
    ensures step.victim.Some? <==> |s.contexts| == 512
    ensures step.victim.None? ==> s.contexts.Keys <= After(s, step).contexts.Keys
    ensures step.victim.Some? ==>
              var id := step.victim.value;
              var used := LastUse(INITIAL, steps, s, id);
              && id in s.contexts && Unpinned(s, id) && used.Some?
              && After(s, step).contexts.Keys == s.contexts.Keys - {id} + {step.id}
              && (other in s.contexts && Unpinned(s, other) ==>
                    var otherUsed := LastUse(INITIAL, steps, s, other); otherUsed.Some? && used.value <= otherUsed.value)
  {
    hide JobsOf, Run, LastUse, RoomFor, Fresh;
    Bounded(steps, s);
    if step.victim.Some? {
      LeaseConservation(steps, s, step.victim.value);
      LastUseIsSeen(INITIAL, steps, s, step.victim.value);
      if other in s.contexts {
        LeaseConservation(steps, s, other);
        LastUseIsSeen(INITIAL, steps, s, other);
      }
    }
  }
}
