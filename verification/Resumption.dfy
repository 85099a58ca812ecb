/**
 Resuming a saved continuation: find the workspace, check it against the saved state, bind the
 context to it, check again, record the new baseline; on any failure put the context back.
 */
module Resumption {
  import opened Prelude
  import opened Contexts
  import opened StateGuard

  /** The trusted part of a saved continuation. */
  datatype Saved = Saved(branch: Branch, head: string, fingerprint: Digest, dirty: bool)

  predicate Dirty(s: Snapshot) {
    s.tracked.dirty != [] || s.tracked.staged != [] || s.tracked.untracked != []
  }

  /** `_validate_resume_snapshot`. */
  predicate Matches(saved: Saved, actual: Snapshot) {
    && actual.tracked.branch == Some(saved.branch)
    && actual.tracked.localHead == Some(saved.head)
    && Fingerprint(actual) == saved.fingerprint
    && FingerprintComplete(actual)
    && Dirty(actual) == saved.dirty
  }

  /** Foreign calls that may raise, and what the workspace looks like each time it is inspected. */
  datatype World = World(
    busy: bool,                 // commands or jobs of the context are active
    leased: bool,               // the writer lease on the saved branch was granted
    current: Snapshot,          // the context's own workspace, if it already claimed one
    target: Option<Root>,       // what `_resume_target` finds or attaches
    first: Snapshot,            // the target before it is bound
    second: Snapshot,           // the target after it is bound
    cwd: Option<Root>,          // the mapped working directory
    applies: bool,              // the runtime accepts the context's state
    checkpointWritten: bool,    // the authoritative baseline could be written
    continuationWritten: bool)  // the refreshed continuation could be written

  predicate NothingFails(w: World) {
    !w.busy && w.leased && w.target.Some? && w.cwd.Some? && w.applies && w.checkpointWritten && w.continuationWritten
  }

  datatype ResumeOutcome = Resumed | AlreadyResumed | Busy | Conflict | Failed

  /**
   For every way the foreign calls can fail, the context ends up bound to a validated workspace or
   exactly as it was.  `baseline` is the authoritative checkpoint written on the way, which a
   later failure does not take back.
   */
  method ResumeContinuation(registry: LogicalContextRegistry, id: ContextId, saved: Saved, world: World, now: int)
    returns (r: ResumeOutcome, baseline: Option<Snapshot>)
    modifies registry
    ensures r.Resumed? ==>
              && world.target.Some? && Matches(saved, world.first) && Matches(saved, world.second)
              && baseline == Some(world.second)
              && id in registry.contexts && registry.contexts[id].claimed
              && registry.contexts[id].effective == world.target.value
              && Some(registry.contexts[id].cwd) == world.cwd
    // Nothing but a failing call, a mismatch, a claim of its own or a workspace owned by someone stops it.
    ensures r.Resumed? <==>
            && NothingFails(world) && Matches(saved, world.first) && Matches(saved, world.second)
            && var pruned := Prune(old(registry.contexts), now - registry.ttl);
            && id in pruned && ClaimVerdict(pruned, id, world.target.value).Bound?
            && (pruned[id].claimed ==> pruned[id].effective == pruned[id].canonical && !Matches(saved, world.current))
    ensures var pruned := Prune(old(registry.contexts), now - registry.ttl);
            var idle, owns := id in pruned && !world.busy, id in pruned && pruned[id].claimed;
            && (r.Busy? <==> id in pruned && world.busy)
            && (r.AlreadyResumed? <==> idle && owns && Matches(saved, world.current))
            && (r.Conflict? <==> idle && owns && !Matches(saved, world.current) && pruned[id].effective != pruned[id].canonical)
            && registry.contexts.Keys == pruned.Keys
    ensures r.AlreadyResumed? || r.Busy? || r.Conflict? ==>
              registry.contexts == Touch(Prune(old(registry.contexts), now - registry.ttl), id, now)
    ensures !r.Resumed? && id in registry.contexts ==>
              && id in old(registry.contexts) && registry.contexts[id] == old(registry.contexts)[id].(lastSeen := now)
    // The baseline is written unless something before it stopped the resume.
    ensures baseline.Some? <==>
            && NothingFails(world.(continuationWritten := true)) && Matches(saved, world.first) && Matches(saved, world.second)
            && var pruned := Prune(old(registry.contexts), now - registry.ttl);
            && id in pruned && ClaimVerdict(pruned, id, world.target.value).Bound?
            && (pruned[id].claimed ==> pruned[id].effective == pruned[id].canonical && !Matches(saved, world.current))
    ensures baseline.Some? ==> baseline.value == world.second
    ensures forall k :: k != id && k in registry.contexts ==>
                          k in old(registry.contexts) && registry.contexts[k] == old(registry.contexts)[k]
    // A workspace another live context of the project owns is never taken.
    ensures r.Resumed? ==>
              forall k :: k in registry.contexts && k != id && registry.contexts[k].claimed &&
                          registry.contexts[k].canonical == registry.contexts[id].canonical ==>
                            registry.contexts[k].effective != world.target.value
  {
    hide Matches, ClaimVerdict, Contended, MustIsolate;
    r, baseline := Failed, None;
    var found := registry.GetContext(id, now);
    if found.None? { return; }
    var state := found.value;
    StillUnexpired(old(registry.contexts), id, now, registry.ttl);
    if world.busy { return Busy, None; }
    if state.claimed {
      if Matches(saved, world.current) { return AlreadyResumed, None; }
      if state.effective != state.canonical { return Conflict, None; }
    }
    if !world.leased || world.target.None? || !Matches(saved, world.first) || world.cwd.None? { return; }
    var target := world.target.value;
    var claim, previous := registry.ClaimExistingWorkspace(id, target, world.cwd.value, now);
    if !claim.Bound? { return; }
    var ok := world.applies && Matches(saved, world.second);
    if ok && world.checkpointWritten {
      baseline := Some(world.second);
      if world.continuationWritten { return Resumed, baseline; }
    }
    registry.RollbackExistingWorkspaceClaim(id, target, previous.value, now);
  }

  /** A context just seen is not pruned again, and its claim is judged as before. */
  lemma StillUnexpired(cs: Registry, id: ContextId, now: int, ttl: nat)
    ensures var seen := Touch(Prune(cs, now - ttl), id, now);
            && Prune(seen, now - ttl) == seen
            && forall target :: ClaimVerdict(seen, id, target) == ClaimVerdict(Prune(cs, now - ttl), id, target)
  {
    var pruned := Prune(cs, now - ttl);
    var seen := Touch(pruned, id, now);
    assert seen.Keys == pruned.Keys;
    forall target ensures ClaimVerdict(seen, id, target) == ClaimVerdict(pruned, id, target) {
      hide Prune;
      TouchKeepsVerdict(pruned, id, now, target);
    }
  }

  lemma TouchKeepsVerdict(cs: Registry, id: ContextId, now: int, target: Root)
    ensures ClaimVerdict(Touch(cs, id, now), id, target) == ClaimVerdict(cs, id, target)
  {
    var seen := Touch(cs, id, now);
    assert forall other :: other in seen && other != id ==> other in cs && seen[other] == cs[other];
    assert forall other :: other in cs && other != id ==> other in seen && seen[other] == cs[other];
  }

  /** What is saved of a repository on a named branch with a commit. */
  function SavedOf(original: Snapshot): Saved
    requires original.tracked.branch.Some? && original.tracked.localHead.Some?
  {
    Saved(original.tracked.branch.value, original.tracked.localHead.value, Fingerprint(original), Dirty(original))
  }

  /** A saved state is accepted again exactly when the repository is as it was and its fingerprint is complete. */
  lemma AcceptedExactly(original: Snapshot, actual: Snapshot)
    requires original.tracked.branch.Some? && original.tracked.localHead.Some?
    ensures Matches(SavedOf(original), actual) <==>
            && actual.tracked == original.tracked
            && actual.tracked.complete && actual.tracked.index.Some? && actual.tracked.index.value != ""
  {
    FingerprintsDecideDrift(original, actual);
  }

  /** Whatever fingerprint was saved: another branch, another commit, or uncommitted work on one side only is refused. */
  lemma OtherStateIsRefused(saved: Saved, actual: Snapshot)
    requires
      || actual.tracked.branch != Some(saved.branch)
      || actual.tracked.localHead != Some(saved.head)
      || saved.dirty != !(actual.tracked.dirty == actual.tracked.staged == actual.tracked.untracked == [])
    ensures !Matches(saved, actual)
  {}

  /** A resumed workspace holds exactly the repository state that was saved. */
  lemma ResumedStateIsSaved(saved: Saved, original: Snapshot, actual: Snapshot)
    requires saved.fingerprint == Fingerprint(original) && Matches(saved, actual)
    ensures actual.tracked == original.tracked
  {
    FingerprintsDecideDrift(original, actual);
  }
}
