/**
 Logical contexts and the jobs they own: the registry operations on values, and the class
 that performs them.  `current is state` in the source is "the identifier is registered",
 because identifiers are never issued twice.
 */
module Contexts {
  import opened Prelude

  const MAX_LOGICAL_CONTEXTS := 512
  const MAX_SHARED_JOBS := 256

  type ContextId = string
  type Root = string
  type Handle = string

  datatype Context = Context(
    canonical: Root,
    effective: Root,
    cwd: Root,
    lastSeen: int,
    leases: nat,
    claimed: bool)

  type Registry = map<ContextId, Context>

  type Jobs = map<Handle, ContextId>

  /** What `claim_existing_workspace` hands back for a later rollback. */
  datatype Binding = Binding(effective: Root, cwd: Root, claimed: bool)

  function BindingOf(c: Context): Binding {
    Binding(c.effective, c.cwd, c.claimed)
  }

  // ----- lifetime -----

  predicate Expired(c: Context, cutoff: int) {
    c.leases == 0 && c.lastSeen < cutoff
  }

  function Prune(cs: Registry, cutoff: int): Registry {
    cs - (set id | id in cs && Expired(cs[id], cutoff))
  }

  ghost predicate OldestUnleased(cs: Registry, id: ContextId) {
    && id in cs && cs[id].leases == 0
    && forall other :: other in cs && cs[other].leases == 0 ==> cs[id].lastSeen <= cs[other].lastSeen
  }

  /** Which context, if any, a new one displaces. */
  ghost predicate Displaces(cs: Registry, victim: Option<ContextId>) {
    if |cs| >= MAX_LOGICAL_CONTEXTS then victim.Some? && OldestUnleased(cs, victim.value) else victim.None?
  }

  function Create(cs: Registry, victim: Option<ContextId>, id: ContextId, canonical: Root, effective: Root, cwd: Root, now: int): Registry {
    (if victim.Some? then cs - {victim.value} else cs)[id := Context(canonical, effective, cwd, now, 0, false)]
  }

  lemma CreateFits(cs: Registry, victim: Option<ContextId>, id: ContextId, canonical: Root, effective: Root, cwd: Root, now: int)
    requires Displaces(cs, victim)
    ensures var r := Create(cs, victim, id, canonical, effective, cwd, now);
            && (|cs| <= MAX_LOGICAL_CONTEXTS ==> |r| <= MAX_LOGICAL_CONTEXTS)
            && id in r && r[id] == Context(canonical, effective, cwd, now, 0, false)
            && (forall k :: k in r && k != id ==> k in cs && r[k] == cs[k])
            && (forall k :: k in cs && cs[k].leases > 0 ==> k in r)
  {
    hide OldestUnleased;
    var rest := if victim.Some? then cs - {victim.value} else cs;
    if victim.Some? {
      DisplacedIsThere(cs, victim);
      assert rest.Keys == cs.Keys - {victim.value};
      assert |cs.Keys| == |rest.Keys| + 1;
    }
    assert rest[id := Context(canonical, effective, cwd, now, 0, false)].Keys == rest.Keys + {id};
  }

  lemma CreateIs(cs: Registry, victim: Option<ContextId>, id: ContextId, canonical: Root, effective: Root, cwd: Root, now: int)
    requires if |cs| >= MAX_LOGICAL_CONTEXTS then victim.Some? && OldestUnleased(cs, victim.value) else victim.None?
    ensures Displaces(cs, victim)
    ensures Create(cs, victim, id, canonical, effective, cwd, now) ==
            (if victim.Some? then cs - {victim.value} else cs)[id := Context(canonical, effective, cwd, now, 0, false)]
  {}

  lemma DisplacedIsThere(cs: Registry, victim: Option<ContextId>)
    requires Displaces(cs, victim) && victim.Some?
    ensures victim.value in cs && cs[victim.value].leases == 0
  {}

  lemma FewerContexts(cs: Registry, fewer: Registry)
    requires forall id :: id in fewer ==> id in cs
    ensures |fewer| <= |cs|
  {
    assert fewer.Keys <= cs.Keys;
    assert cs.Keys == fewer.Keys + (cs.Keys - fewer.Keys);
  }

  function Touch(cs: Registry, id: ContextId, now: int): Registry {
    if id in cs then cs[id := cs[id].(lastSeen := now)] else cs
  }

  function Retain(cs: Registry, id: ContextId, now: int): Registry {
    if id in cs then cs[id := cs[id].(leases := cs[id].leases + 1, lastSeen := now)] else cs
  }

  function Release(cs: Registry, id: ContextId, now: int): Registry {
    if id in cs then
      cs[id := cs[id].(leases := if cs[id].leases > 0 then cs[id].leases - 1 else 0, lastSeen := now)]
    else cs
  }

  /** How many of the jobs `hs` belong to a context. */
  function Share(jobs: Jobs, hs: set<Handle>, id: ContextId): nat {
    |set h | h in hs && h in jobs && jobs[h] == id|
  }

  /** Every context released once for each of its jobs among `hs`. */
  function ReleaseShares(cs: Registry, jobs: Jobs, hs: set<Handle>, now: int): Registry {
    map id | id in cs ::
      if Share(jobs, hs, id) == 0 then cs[id]
      else cs[id].(leases := if cs[id].leases > Share(jobs, hs, id) then cs[id].leases - Share(jobs, hs, id) else 0, lastSeen := now)
  }

  lemma NoShares(cs: Registry, jobs: Jobs, now: int)
    ensures ReleaseShares(cs, jobs, {}, now) == cs
  {
    hide Share;
    forall id ensures Share(jobs, {}, id) == 0 { NoShare(jobs, id); }
  }

  lemma NoShare(jobs: Jobs, id: ContextId)
    ensures Share(jobs, {}, id) == 0
  {}

  lemma OneMoreShare(cs: Registry, jobs: Jobs, hs: set<Handle>, h: Handle, now: int)
    requires h !in hs
    ensures var r := ReleaseShares(cs, jobs, hs, now);
            ReleaseShares(cs, jobs, hs + {h}, now) == if h in jobs then Release(r, jobs[h], now) else r
  {
    hide Share;
    forall id ensures Share(jobs, hs + {h}, id) == Share(jobs, hs, id) + if h in jobs && jobs[h] == id then 1 else 0 {
      ShareGrows(jobs, hs, h, id);
    }
  }

  lemma ShareGrows(jobs: Jobs, hs: set<Handle>, h: Handle, id: ContextId)
    requires h !in hs
    ensures Share(jobs, hs + {h}, id) == Share(jobs, hs, id) + if h in jobs && jobs[h] == id then 1 else 0
  {
    var before := set k | k in hs && k in jobs && jobs[k] == id;
    var after := set k | k in hs + {h} && k in jobs && jobs[k] == id;
    assert after == if h in jobs && jobs[h] == id then before + {h} else before;
  }

  // ----- workspaces -----

  function Update(cs: Registry, id: ContextId, canonical: Root, effective: Root, cwd: Root, now: int): Registry {
    if id !in cs then cs
    else
      cs[id := cs[id].(canonical := canonical, effective := effective, cwd := cwd, lastSeen := now,
      claimed := cs[id].claimed && cs[id].canonical == canonical)]
  }

  predicate Contended(cs: Registry, id: ContextId)
    requires id in cs
  {
    exists other :: other in cs && other != id && cs[other].claimed && cs[other].canonical == cs[id].canonical
  }

  function Claim(cs: Registry, id: ContextId, now: int): Registry
    requires id in cs
  {
    if cs[id].claimed then cs else cs[id := cs[id].(claimed := true, lastSeen := now)]
  }

  /** Whether the caller must isolate, as `claim_mutation_workspace` reports it. */
  predicate MustIsolate(cs: Registry, id: ContextId)
    requires id in cs
  {
    if cs[id].claimed then cs[id].effective != cs[id].canonical else Contended(cs, id)
  }

  function RollbackClaim(cs: Registry, id: ContextId, now: int): Registry {
    if id in cs && cs[id].effective == cs[id].canonical then
      cs[id := cs[id].(claimed := false, lastSeen := now)]
    else cs
  }

  datatype ClaimResult = Bound | NotRegistered | OwnsAnother | OwnedByOther

  function ClaimVerdict(cs: Registry, id: ContextId, target: Root): ClaimResult {
    if id !in cs then NotRegistered
    else if cs[id].claimed && cs[id].effective != target then OwnsAnother
    else if exists other :: other in cs && other != id && cs[other].claimed &&
                            cs[other].canonical == cs[id].canonical && cs[other].effective == target
    then OwnedByOther
    else Bound
  }

  function ClaimExisting(cs: Registry, id: ContextId, target: Root, cwd: Root, now: int): Registry
    requires id in cs
  {
    cs[id := cs[id].(effective := target, cwd := cwd, claimed := true, lastSeen := now)]
  }

  function RollbackExisting(cs: Registry, id: ContextId, expected: Root, previous: Binding, now: int): Registry {
    if id in cs && cs[id].effective == expected then
      cs[id := cs[id].(effective := previous.effective, cwd := previous.cwd, claimed := previous.claimed, lastSeen := now)]
    else cs
  }

  // ----- the classes -----

  class LogicalContextRegistry {
    var contexts: Registry
    const ttl: nat

    constructor (ttl: nat)
      ensures contexts == map[] && this.ttl == ttl
    {
      contexts := map[];
      this.ttl := ttl;
    }

    method PruneExpired(now: int)
      modifies this
      ensures contexts == Prune(old(contexts), now - ttl)
      ensures forall id :: id in contexts <==> id in old(contexts) && (old(contexts)[id].leases > 0 || now - old(contexts)[id].lastSeen <= ttl)
      ensures forall id :: id in contexts ==> contexts[id] == old(contexts)[id]
    {
      var cutoff := now - ttl;
      var expired := set id | id in contexts && Expired(contexts[id], cutoff);
      contexts := contexts - expired;
    }

    method FindOldestUnleased() returns (r: Option<ContextId>)
      ensures r.Some? ==> OldestUnleased(contexts, r.value)
      ensures r.None? ==> forall id :: id in contexts ==> contexts[id].leases > 0
    {
      r := None;
      var todo := contexts.Keys;
      while todo != {}
        invariant todo <= contexts.Keys
        invariant r.None? ==> forall id :: id in contexts && id !in todo ==> contexts[id].leases > 0
        invariant r.Some? ==> r.value in contexts && contexts[r.value].leases == 0
        invariant r.Some? ==> forall id :: id in contexts && id !in todo && contexts[id].leases == 0 ==>
                                             contexts[r.value].lastSeen <= contexts[id].lastSeen
        decreases |todo|
      {
        var id :| id in todo;
        if contexts[id].leases == 0 && (r.None? || contexts[id].lastSeen < contexts[r.value].lastSeen) {
          r := Some(id);
        }
        todo := todo - {id};
      }
    }

    /** `create`, with the random identifier as a parameter. */
    method CreateContext(id: ContextId, canonical: Root, effective: Root, cwd: Root, now: int) returns (ok: bool)
      modifies this
      ensures var pruned := Prune(old(contexts), now - ttl);
              if ok then exists victim :: Displaces(pruned, victim) &&
                                          contexts == Create(pruned, victim, id, canonical, effective, cwd, now)
              else contexts == pruned && |pruned| >= MAX_LOGICAL_CONTEXTS && forall k :: k in pruned ==> pruned[k].leases > 0
      ensures ok ==> id in contexts && contexts[id] == Context(canonical, effective, cwd, now, 0, false)
      ensures ok && |old(contexts)| <= MAX_LOGICAL_CONTEXTS ==> |contexts| <= MAX_LOGICAL_CONTEXTS
      ensures forall k :: k in contexts && k != id ==> k in old(contexts) && contexts[k] == old(contexts)[k]
      ensures forall k :: k in old(contexts) && old(contexts)[k].leases > 0 ==> k in contexts
    {
      hide Prune, OldestUnleased, Displaces, Create;
      PruneExpired(now);
      ghost var pruned := contexts;
      var victim: Option<ContextId> := None;
      if |contexts| >= MAX_LOGICAL_CONTEXTS {
        victim := FindOldestUnleased();
        if victim.None? { return false; }
        contexts := contexts - {victim.value};
      }
      contexts := contexts[id := Context(canonical, effective, cwd, now, 0, false)];
      CreateIs(pruned, victim, id, canonical, effective, cwd, now);
      CreateFits(pruned, victim, id, canonical, effective, cwd, now);
      FewerContexts(old(contexts), pruned);
      ok := true;
    }

    /** `abandoned` is what the expiry callback is told: a worktree left behind for another project. */
    method UpdateContext(id: ContextId, canonical: Root, effective: Root, cwd: Root, now: int) returns (abandoned: Option<Binding>)
      modifies this
      ensures contexts == Update(old(contexts), id, canonical, effective, cwd, now)
      ensures abandoned.Some? <==>
              id in old(contexts) && old(contexts)[id].canonical != canonical && old(contexts)[id].effective != old(contexts)[id].canonical
      ensures abandoned.Some? ==> abandoned.value == Binding(old(contexts)[id].effective, old(contexts)[id].cwd, true)
      ensures contexts.Keys == old(contexts.Keys) && forall k :: k in contexts && k != id ==> contexts[k] == old(contexts)[k]
      ensures id in contexts ==>
                var was := old(contexts)[id];
                contexts[id] == Context(canonical, effective, cwd, now, was.leases, was.claimed && was.canonical == canonical)
    {
      abandoned := None;
      if id !in contexts { return; }
      var state := contexts[id];
      if state.canonical != canonical {
        if state.effective != state.canonical {
          abandoned := Some(Binding(state.effective, state.cwd, true));
        }
        state := state.(claimed := false);
      }
      contexts := contexts[id := state.(canonical := canonical, effective := effective, cwd := cwd, lastSeen := now)];
    }

    method ClaimMutationWorkspace(id: ContextId, now: int) returns (r: Option<bool>)
      modifies this
      ensures var pruned := Prune(old(contexts), now - ttl);
              if id in pruned then r == Some(MustIsolate(pruned, id)) && contexts == Claim(pruned, id, now)
              else r.None? && contexts == pruned
      // Afterwards the context holds a claim, and a first claim is told to isolate exactly when another context has one.
      ensures r.Some? ==>
                && id in contexts && contexts[id].claimed
                && (!old(contexts)[id].claimed ==>
                      && contexts[id] == old(contexts)[id].(claimed := true, lastSeen := now)
                      && (r.value <==> exists k :: k in contexts && k != id && contexts[k].claimed && contexts[k].canonical == contexts[id].canonical))
                && (old(contexts)[id].claimed ==>
                      contexts[id] == old(contexts)[id] && (r.value <==> contexts[id].effective != contexts[id].canonical))
    {
      PruneExpired(now);
      if id !in contexts { return None; }
      if contexts[id].claimed {
        return Some(contexts[id].effective != contexts[id].canonical);
      }
      var contended := Contended(contexts, id);
      ghost var pruned := contexts;
      contexts := contexts[id := contexts[id].(claimed := true, lastSeen := now)];
      assert forall k :: k != id ==> (k in contexts <==> k in pruned) && (k in pruned ==> contexts[k] == pruned[k]);
      r := Some(contended);
    }

    method RollbackMutationWorkspaceClaim(id: ContextId, now: int)
      modifies this
      ensures contexts == RollbackClaim(old(contexts), id, now)
      ensures contexts.Keys == old(contexts.Keys) && forall k :: k in contexts && k != id ==> contexts[k] == old(contexts)[k]
      ensures id in contexts ==>
                var was := old(contexts)[id];
                contexts[id] == if was.effective == was.canonical then was.(claimed := false, lastSeen := now) else was
    {
      if id in contexts && contexts[id].effective == contexts[id].canonical {
        contexts := contexts[id := contexts[id].(claimed := false, lastSeen := now)];
      }
    }

    method ClaimExistingWorkspace(id: ContextId, target: Root, cwd: Root, now: int)
      returns (r: ClaimResult, previous: Option<Binding>)
      modifies this
      ensures var pruned := Prune(old(contexts), now - ttl);
              && r == ClaimVerdict(pruned, id, target)
              && (r.Bound? ==> contexts == ClaimExisting(pruned, id, target, cwd, now) && previous == Some(BindingOf(pruned[id])))
              && (!r.Bound? ==> contexts == pruned && previous.None?)
      ensures var pruned := Prune(old(contexts), now - ttl);
              var live := id in pruned;
              var elsewhere := live && pruned[id].claimed && pruned[id].effective != target;
              var taken := live && exists k :: k in pruned && k != id && pruned[k].claimed &&
                                               pruned[k].canonical == pruned[id].canonical && pruned[k].effective == target;
              && (r.NotRegistered? <==> !live) && (r.OwnsAnother? <==> elsewhere)
              && (r.OwnedByOther? <==> !elsewhere && taken) && (r.Bound? <==> live && !elsewhere && !taken)
      ensures r.Bound? ==>
                var was := old(contexts)[id];
                && contexts[id] == Context(was.canonical, target, cwd, now, was.leases, true)
                && previous == Some(Binding(was.effective, was.cwd, was.claimed))
                && (was.claimed ==> was.effective == target)
                && forall k :: k in contexts && k != id && contexts[k].claimed && contexts[k].canonical == was.canonical ==> contexts[k].effective != target
    {
      PruneExpired(now);
      r, previous := ClaimVerdict(contexts, id, target), None;
      if r.Bound? {
        previous := Some(BindingOf(contexts[id]));
        contexts := contexts[id := contexts[id].(effective := target, cwd := cwd, claimed := true, lastSeen := now)];
      }
    }

    method RollbackExistingWorkspaceClaim(id: ContextId, expected: Root, previous: Binding, now: int)
      modifies this
      ensures contexts == RollbackExisting(old(contexts), id, expected, previous, now)
      ensures contexts.Keys == old(contexts.Keys) && forall k :: k in contexts && k != id ==> contexts[k] == old(contexts)[k]
      ensures id in contexts ==>
                var was := old(contexts)[id];
                contexts[id] ==
                if was.effective == expected
                then Context(was.canonical, previous.effective, previous.cwd, now, was.leases, previous.claimed) else was
    {
      if id !in contexts || contexts[id].effective != expected { return; }
      contexts := contexts[id := contexts[id].(effective := previous.effective)];
      contexts := contexts[id := contexts[id].(cwd := previous.cwd)];
      contexts := contexts[id := contexts[id].(claimed := previous.claimed, lastSeen := now)];
    }

    /** `get`: prunes, and notes that the context was seen. */
    method GetContext(id: ContextId, now: int) returns (r: Option<Context>)
      modifies this
      ensures contexts == Touch(Prune(old(contexts), now - ttl), id, now)
      ensures r == Get(contexts, id)
      ensures r.Some? ==> id in old(contexts) && r.value == old(contexts)[id].(lastSeen := now)
    {
      PruneExpired(now);
      if id in contexts {
        contexts := contexts[id := contexts[id].(lastSeen := now)];
      }
      r := Get(contexts, id);
    }

    method RetainContext(id: ContextId, now: int) returns (live: bool)
      modifies this
      ensures var pruned := Prune(old(contexts), now - ttl);
              live == (id in pruned) && contexts == Retain(pruned, id, now)
      ensures live ==> id in contexts && contexts[id] == old(contexts)[id].(leases := old(contexts)[id].leases + 1, lastSeen := now)
    {
      PruneExpired(now);
      live := id in contexts;
      if live {
        contexts := contexts[id := contexts[id].(leases := contexts[id].leases + 1, lastSeen := now)];
      }
    }

    method ReleaseContext(id: ContextId, now: int)
      modifies this
      ensures contexts == Release(old(contexts), id, now)
      ensures contexts.Keys == old(contexts.Keys) && forall k :: k in contexts && k != id ==> contexts[k] == old(contexts)[k]
      ensures id in contexts ==> contexts[id].lastSeen == now
      ensures id in contexts && old(contexts)[id].leases > 0 ==> contexts[id].leases == old(contexts)[id].leases - 1
    {
      if id !in contexts { return; }
      var leases := contexts[id].leases - 1;
      contexts := contexts[id := contexts[id].(leases := if leases < 0 then 0 else leases, lastSeen := now)];
    }
  }

  class SharedJobRegistry {
    var jobs: Jobs
    var closed: bool
    const contexts: LogicalContextRegistry

    constructor (contexts: LogicalContextRegistry)
      ensures jobs == map[] && !closed && this.contexts == contexts
    {
      jobs, closed := map[], false;
      this.contexts := contexts;
    }

    /** `prune`: the jobs in `done` finished long enough ago; all go, then their owners are released. */
    method PruneCompleted(done: set<Handle>, now: int)
      modifies this`jobs, contexts
      ensures jobs == old(jobs) - done
      ensures contexts.contexts == ReleaseShares(old(contexts.contexts), old(jobs), done, now)
    {
      hide ReleaseShares;
      var all, before := jobs, contexts.contexts;
      jobs := jobs - done;
      var released: set<Handle> := {};
      NoShares(before, all, now);
      while released != done
        invariant released <= done && jobs == all - done && all == old(jobs)
        invariant contexts.contexts == ReleaseShares(before, all, released, now)
        decreases |done - released|
      {
        var h :| h in done - released;
        OneMoreShare(before, all, released, h, now);
        if h in all { contexts.ReleaseContext(all[h], now); }
        released := released + {h};
      }
    }

    /** What follows in `register`: record, retain, and take the record back if there is no context to retain. */
    method Admit(handle: Handle, owner: ContextId, now: int) returns (ok: bool)
      modifies this`jobs, contexts
      ensures var admitted := !closed && |old(jobs)| < MAX_SHARED_JOBS && handle !in old(jobs);
              var pruned := Prune(old(contexts.contexts), now - contexts.ttl);
              && (ok <==> admitted && owner in pruned)
              && jobs == (if ok then old(jobs)[handle := owner] else old(jobs))
              && contexts.contexts == (if admitted then Retain(pruned, owner, now) else old(contexts.contexts))
    {
      hide Prune, Retain;
      if closed || |jobs| >= MAX_SHARED_JOBS || handle in jobs { return false; }
      jobs := jobs[handle := owner];
      var live := contexts.RetainContext(owner, now);
      if !live {
        jobs := jobs - {handle};
        assert jobs == old(jobs);
        return false;
      }
      ok := true;
    }

    method Register(handle: Handle, owner: ContextId, done: set<Handle>, now: int) returns (ok: bool)
      modifies this`jobs, contexts
      ensures var left := old(jobs) - done;
              var admitted := !closed && |left| < MAX_SHARED_JOBS && handle !in left;
              var released := ReleaseShares(old(contexts.contexts), old(jobs), done, now);
              var pruned := Prune(released, now - contexts.ttl);
              && (ok <==> admitted && owner in pruned)
              && jobs == (if ok then left[handle := owner] else left)
              && contexts.contexts == (if admitted then Retain(pruned, owner, now) else released)
    {
      hide *;
      PruneCompleted(done, now);
      ok := Admit(handle, owner, now);
    }

    method Remove(handle: Handle, now: int) returns (existed: bool)
      modifies this, contexts
      ensures existed == (handle in old(jobs))
      ensures jobs == old(jobs) - {handle} && closed == old(closed)
      ensures contexts.contexts ==
              if existed then Release(old(contexts.contexts), old(jobs)[handle], now) else old(contexts.contexts)
    {
      existed := handle in jobs;
      if existed {
        var owner := jobs[handle];
        jobs := jobs - {handle};
        contexts.ReleaseContext(owner, now);
      }
    }
  }
}
