/** How an owner's authoritative checkpoint comes to change, in every interleaving of guarded operations. */
module AuthorityRuns {
  import opened Prelude
  import opened StateGuard
  import opened GuardRuns

  // ----- what leads to a write -----

  /** The owner's record is, or is not, the state of its workspace. */
  ghost predicate OnRecord(s: System, o: Owner, same: bool) {
    o in s.authority && Works(s, o) && (s.authority[o].snapshot.tracked == s.Repo(o) <==> same)
  }

  /** Phase `now` follows on `before` in state `s`. */
  ghost predicate Follows(s: System, o: Owner, before: Option<Phase>, now: Phase, leases: map<Branch, Owner>) {
    match now
    case Sighting(_, seen) => before.None? && Works(s, o) && seen.tracked == s.Repo(o)
    case Reading(branches, expected) =>
      && before.None? && o in s.authority && expected == s.authority[o]
      && Works(s, o) && s.Repo(o).branch.Some? && s.Repo(o).branch.value in branches
    case Leased(branches, expected) =>
      before == Some(Reading(branches, expected)) && forall b :: b in branches ==> b in leases && leases[b] == o
    case Mutating(_) => before.Some? && before.value.Leased? && OnRecord(s, o, true)
    case Finished(_) => before.Some? && before.value.Mutating?
    case Writing(_, seen) =>
      && before.Some? && Works(s, o) && seen.tracked == s.Repo(o)
      && (before.value.Finished? || (before.value.Leased? && OnRecord(s, o, false)))
    case Releasing(_) => before.Some? && before.value.HoldsLeases()
  }

  /** Each phase of an operation is entered from the one before it, on the condition that the code checks there. */
  lemma PhaseHasCause(s: System, step: Step, o: Owner)
    requires Reachable(s) && Enabled(s, step) && Get(After(s, step).ops, o) != Get(s.ops, o) && o in After(s, step).ops
    ensures Follows(s, o, Get(s.ops, o), After(s, step).ops[o], After(s, step).leases)
    ensures o in s.ops ==> After(s, step).ops[o].branches == s.ops[o].branches
  {
    ReachableInv(s);
    assert InStep(s, o);
    hide *;
    if !Own(step, o) { PhaseAfter(s, step, o); }
    if step.Compare? || step.Reconcile? {
      Decided(s, step, o);
    } else if Early(step) {
      EarlyFollows(s, step, o);
    } else {
      LateFollows(s, step, o);
    }
  }

  lemma EarlyFollows(s: System, step: Step, o: Owner)
    requires InStep(s, o) && Enabled(s, step) && Own(step, o) && Early(step) && o in After(s, step).ops
    ensures Follows(s, o, Get(s.ops, o), After(s, step).ops[o], After(s, step).leases)
    ensures o in s.ops ==> After(s, step).ops[o].branches == s.ops[o].branches
  {
    hide Judge, CompareSnapshots;
  }

  lemma LateFollows(s: System, step: Step, o: Owner)
    requires InStep(s, o) && Enabled(s, step) && Own(step, o) && !Early(step) && !step.Compare? && !step.Reconcile?
    requires o in After(s, step).ops && Get(After(s, step).ops, o) != Get(s.ops, o)
    ensures Follows(s, o, Get(s.ops, o), After(s, step).ops[o], After(s, step).leases)
    ensures o in s.ops ==> After(s, step).ops[o].branches == s.ops[o].branches
  {
    hide Judge, CompareSnapshots;
  }

  lemma Decided(s: System, step: Step, o: Owner)
    requires InStep(s, o) && Enabled(s, step) && Own(step, o) && (step.Compare? || step.Reconcile?)
    ensures Follows(s, o, Get(s.ops, o), After(s, step).ops[o], After(s, step).leases)
    ensures o in s.ops ==> After(s, step).ops[o].branches == s.ops[o].branches
  {
    hide Judge, CompareSnapshots;
    Decisions(s, step, o);
  }

  lemma Decisions(s: System, step: Step, o: Owner)
    requires InStep(s, o) && Enabled(s, step) && (step.Compare? || step.Reconcile?) && step.o == o
    ensures var now := After(s, step).ops[o];
            && (now.Mutating? ==> s.authority[o].snapshot.tracked == s.Repo(o))
            && (now.Writing? ==> s.authority[o].snapshot.tracked != s.Repo(o) && now.seen.tracked == s.Repo(o))
            && (now.Mutating? || now.Writing? || now.Releasing?)
  {
    hide Judge, CompareSnapshots;
    var actual := Snapshot(s.Repo(o), if step.Reconcile? then step.now else 0, None);
    FingerprintsDecideDrift(s.authority[o].snapshot, actual);
    if step.Reconcile? { ReconcileIsCompareAndSwap(Some(s.authority[o]), step.branch, actual, step.e); }
  }

  /** In every interleaving a reconciling write goes ahead exactly on drift and evidence of the owner's record and the actual state. */
  lemma ReconciledExactly(s: System, o: Owner, branch: Branch, e: Evidence, now: nat)
    requires Reachable(s) && Enabled(s, Step.Reconcile(o, branch, e, now))
    ensures var s' := After(s, Step.Reconcile(o, branch, e, now));
            && o in s.authority && s'.authority == s.authority && s'.repos == s.repos && s'.leases == s.leases
            && (s'.ops[o].Writing? <==>
                && s.authority[o].snapshot.tracked != s.Repo(o)
                && e.checkpoint == Some(s.authority[o].id) && e.branch == Some(branch)
                && e.head.Some? && e.head == s.Repo(o).localHead
                && e.fingerprint == Some(Fingerprint(Snapshot(s.Repo(o), 0, None))))
            && (!s'.ops[o].Writing? ==> s'.ops[o].Releasing?)
  {
    ReachableInv(s);
    assert InStep(s, o);
    hide Inv, Reachable, Judge, Fingerprint;
    var actual := Snapshot(s.Repo(o), now, None);
    ReconcileIsCompareAndSwap(Some(s.authority[o]), branch, actual, e);
    FingerprintsDecideDrift(actual, Snapshot(s.Repo(o), 0, None));
  }

  // ----- checkpoint identities -----

  ghost predicate Issued(s: System) {
    forall o :: o in s.authority ==> s.authority[o].id < s.nextId
  }

  /** An owner's record changes only when its operation writes the snapshot it took, under an identity never used before. */
  lemma RecordsAreWritten(s: System, step: Step, o: Owner)
    requires Enabled(s, step)
    ensures var s' := After(s, step);
            && s.nextId <= s'.nextId
            && (Get(s'.authority, o) != Get(s.authority, o) ==>
                  && o in s.ops && (s.ops[o].Writing? || s.ops[o].Sighting?)
                  && Get(s'.authority, o) == Some(Checkpoint(s.nextId, s.ops[o].seen)) && s'.nextId > s.nextId)
  {
    hide Judge, CompareSnapshots;
  }

  lemma {:induction false} IdentitiesGrow(s: System, steps: seq<Step>, s': System, o: Owner)
    requires Run(s, steps, s')
    ensures s.nextId <= s'.nextId
    ensures Get(s'.authority, o) != Get(s.authority, o) ==> o in s'.authority && s.nextId <= s'.authority[o].id < s'.nextId
    decreases |steps|
  {
    hide Enabled, After;
    if steps != [] {
      RecordsAreWritten(s, steps[0], o);
      IdentitiesGrow(After(s, steps[0]), steps[1..], s', o);
    }
  }

  lemma ReachableIssued(s: System)
    requires Reachable(s)
    ensures Issued(s)
  {
    var s0, steps :| Initial(s0) && Run(s0, steps, s);
    hide Run;
    forall o | o in s.authority ensures s.authority[o].id < s.nextId { IdentitiesGrow(s0, steps, s, o); }
  }

  /** Evidence gathered before the owner's record last changed is refused, whatever else it says. */
  lemma OldEvidenceIsRefused(s: System, steps: seq<Step>, s': System, o: Owner, branch: Branch, e: Evidence, now: nat)
    requires Reachable(s) && Reachable(s') && Run(s, steps, s') && o in s.authority && Get(s'.authority, o) != Get(s.authority, o)
    requires e.checkpoint == Some(s.authority[o].id) && Enabled(s', Step.Reconcile(o, branch, e, now))
    ensures var s'' := After(s', Step.Reconcile(o, branch, e, now)); s''.ops[o].Releasing? && s''.authority == s'.authority
  {
    hide Run, Reachable, Enabled, After;
    ReachableIssued(s);
    IdentitiesGrow(s, steps, s', o);
    ReconciledExactly(s', o, branch, e, now);
  }
}
