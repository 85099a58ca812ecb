/**
 Every interleaving of guarded operations by any number of owners, with the outside world
 changing repositories whenever it likes.  Each owner runs one operation at a time (its
 context is locked meanwhile), in the workspace its Runtime shows; another context applied on
 that Runtime takes the operation elsewhere.  Leases run out.  Reading, leasing, comparing, mutating, snapshotting, writing
 the checkpoint and releasing are separate steps.
 */
module GuardRuns {
  import opened Prelude
  import opened StateGuard

  type Workspace = string

  datatype Phase =
    | Sighting(branches: set<Branch>, seen: Snapshot)       // first snapshot taken; its baseline is not written
    | Reading(branches: set<Branch>, expected: Checkpoint)  // branch and checkpoint read; no lease yet
    | Leased(branches: set<Branch>, expected: Checkpoint)   // leases taken; nothing compared yet
    | Mutating(branches: set<Branch>)                       // compared without drift; the callback runs
    | Finished(branches: set<Branch>)                       // the callback returned or raised
    | Writing(branches: set<Branch>, seen: Snapshot)        // the state was collected; its checkpoint is not written
    | Releasing(branches: set<Branch>)
  {
    predicate HoldsLeases() {
      !Sighting? && !Reading?
    }

    /** The owner's own changes are not checkpointed yet. */
    predicate Unrecorded() {
      Mutating? || Finished? || Writing?
    }
  }

  datatype System = System(
    home: map<Owner, Workspace>,         // the workspace that each owner's Runtime shows
    repos: map<Workspace, Tracked>,
    authority: map<Owner, Checkpoint>,
    leases: map<Branch, Owner>,
    ops: map<Owner, Phase>,
    nextId: nat,
    disturbed: set<Owner>,               // owners whose last snapshot someone else made stale, or whose own was lost
    lapsed: set<Owner>)                  // owners one of whose leases ran out during the operation
  {
    function Repo(o: Owner): Tracked
      requires o in home && home[o] in repos
    {
      repos[home[o]]
    }

    function Move(o: Owner, p: Phase): System {
      this.(ops := ops[o := p])
    }

    /** Owners other than `o` that work in workspace `w`. */
    function Others(w: Workspace, o: Owner): set<Owner> {
      set p | p in home && home[p] == w && p != o
    }

    function Everyone(w: Workspace): set<Owner> {
      set p | p in home && home[p] == w
    }

    function Sight(o: Owner, now: nat): System
      requires o in home && home[o] in repos
    {
      this.(disturbed := disturbed - {o}).Move(o, Sighting({}, Snapshot(Repo(o), now, None)))
    }

    function WriteBaseline(o: Owner): System
      requires o in ops && ops[o].Sighting?
    {
      this.(authority := authority[o := Checkpoint(nextId, ops[o].seen)], nextId := nextId + 1, ops := ops - {o})
    }

    function Acquire(o: Owner): System
      requires o in ops && ops[o].Reading?
    {
      this.(leases := leases + (map b | b in ops[o].branches :: o), lapsed := lapsed - {o}).Move(o, Leased(ops[o].branches, ops[o].expected))
    }

    function Compare(o: Owner): System
      requires o in ops && o in home && home[o] in repos && ops[o].Leased?
    {
      if CompareSnapshots(ops[o].expected.snapshot, Snapshot(Repo(o), 0, None)) == map[] then Move(o, Mutating(ops[o].branches))
      else Move(o, Releasing(ops[o].branches))
    }

    function Mutate(o: Owner, effect: Tracked): System
      requires o in home
    {
      this.(repos := repos[home[o] := effect], disturbed := disturbed + Others(home[o], o))
    }

    function Collect(o: Owner, now: nat): System
      requires o in ops && o in home && home[o] in repos
    {
      this.(disturbed := disturbed - {o}).Move(o, Writing(ops[o].branches, Snapshot(Repo(o), now, None)))
    }

    function Write(o: Owner): System
      requires o in ops && ops[o].Writing?
    {
      this.(authority := authority[o := Checkpoint(nextId, ops[o].seen)], nextId := nextId + 1).Move(o, Releasing(ops[o].branches))
    }

    function Lose(o: Owner): System
      requires o in ops
    {
      this.(disturbed := disturbed + {o}).Move(o, Releasing(ops[o].branches))
    }

    function Expire(b: Branch): System
      requires b in leases
    {
      this.(leases := leases - {b}, lapsed := lapsed + {leases[b]})
    }

    function Release(o: Owner): System {
      this.(leases := map b | b in leases && leases[b] != o :: leases[b], ops := ops - {o})
    }

    /** A `continuation_checkpoint` write decides on the evidence presented to it. */
    function Reconcile(o: Owner, branch: Branch, e: Evidence, now: nat): System
      requires o in ops && ops[o].Leased? && o in home && home[o] in repos
    {
      if Judge(Some(ops[o].expected), branch, Snapshot(Repo(o), now, None), e).Reconcile? then Collect(o, now)
      else Move(o, Releasing(ops[o].branches))
    }
  }

  datatype Step =
    | Sight(o: Owner, now: nat)                // first sight of a repository, or of a workspace just bound
    | WriteBaseline(o: Owner)
    | Unseen(o: Owner)                         // snapshot or baseline failed
    | Begin(o: Owner, extra: set<Branch>)      // read the branch and the owner's checkpoint
    | Acquire(o: Owner)
    | Refused(o: Owner)                        // another owner holds one of the branches
    | Compare(o: Owner)
    | Mutate(o: Owner, effect: Tracked)
    | Finish(o: Owner)
    | Collect(o: Owner, now: nat)
    | Write(o: Owner)
    | Lose(o: Owner)                           // snapshot or write failed
    | Release(o: Owner)
    | Reconcile(o: Owner, branch: Branch, e: Evidence, now: nat)
    | Outside(w: Workspace, effect: Tracked)
    | Rehome(o: Owner, w: Workspace)           // another context is applied on the owner's Runtime
    | Expire(b: Branch)                        // a lease runs out

  ghost predicate Works(s: System, o: Owner) {
    o in s.home && s.home[o] in s.repos
  }

  ghost predicate Free(s: System, o: Owner, branches: set<Branch>) {
    forall b :: b in branches && b in s.leases ==> s.leases[b] == o
  }

  ghost predicate Enabled(s: System, step: Step) {
    match step
    case Sight(o, _) => Works(s, o) && o !in s.ops
    case Unseen(o) => o in s.ops && s.ops[o].Sighting?
    case WriteBaseline(o) => o in s.ops && s.ops[o].Sighting?
    case Begin(o, _) => Works(s, o) && o !in s.ops && o in s.authority && s.Repo(o).branch.Some?
    case Acquire(o) => o in s.ops && s.ops[o].Reading? && Free(s, o, s.ops[o].branches)
    case Refused(o) => o in s.ops && s.ops[o].Reading? && !Free(s, o, s.ops[o].branches)
    case Compare(o) => Works(s, o) && o in s.ops && s.ops[o].Leased?
    case Mutate(o, _) => Works(s, o) && o in s.ops && s.ops[o].Mutating?
    case Finish(o) => o in s.ops && s.ops[o].Mutating?
    case Collect(o, _) => Works(s, o) && o in s.ops && s.ops[o].Finished?
    case Write(o) => o in s.ops && s.ops[o].Writing?
    case Lose(o) => o in s.ops && (s.ops[o].Finished? || s.ops[o].Writing?)
    case Release(o) => o in s.ops && s.ops[o].Releasing?
    case Reconcile(o, branch, _, _) => Works(s, o) && o in s.ops && s.ops[o].Leased? && branch in s.ops[o].branches
    case Outside(w, _) => w in s.repos
    case Rehome(o, w) => o in s.home && w in s.repos
    case Expire(b) => b in s.leases
  }

  ghost function After(s: System, step: Step): System
    requires Enabled(s, step)
  {
    match step
    case Sight(o, now) => s.Sight(o, now)
    case WriteBaseline(o) => s.WriteBaseline(o)
    case Unseen(o) => s.(ops := s.ops - {o}, disturbed := s.disturbed + {o})
    case Begin(o, extra) => s.Move(o, Reading({s.Repo(o).branch.value} + extra, s.authority[o]))
    case Acquire(o) => s.Acquire(o)
    case Refused(o) => s.(ops := s.ops - {o})
    case Compare(o) => s.Compare(o)
    case Mutate(o, effect) => s.Mutate(o, effect)
    case Finish(o) => s.Move(o, Finished(s.ops[o].branches))
    case Collect(o, now) => s.Collect(o, now)
    case Write(o) => s.Write(o)
    case Lose(o) => s.Lose(o)
    case Release(o) => s.Release(o)
    case Reconcile(o, branch, e, now) => s.Reconcile(o, branch, e, now)
    case Outside(w, effect) => s.(repos := s.repos[w := effect], disturbed := s.disturbed + s.Everyone(w))
    case Rehome(o, w) => s.(home := s.home[o := w], disturbed := s.disturbed + {o})
    case Expire(b) => s.Expire(b)
  }

  // ----- invariant -----

  /** A lease belongs to an operation under way that asked for it... */
  ghost predicate LeaseLives(s: System, b: Branch) {
    b in s.leases ==> s.leases[b] in s.ops && s.ops[s.leases[b]].HoldsLeases() && b in s.ops[s.leases[b]].branches
  }

  /** ...and an operation holds what it asked for, unless a lease ran out. */
  ghost predicate LeasesHeld(s: System, o: Owner, b: Branch) {
    o !in s.lapsed && o in s.ops && s.ops[o].HoldsLeases() && b in s.ops[o].branches ==> b in s.leases && s.leases[b] == o
  }

  /** Unless disturbed, an owner's record is the state of its workspace. */
  ghost predicate InStep(s: System, o: Owner) {
    && (o in s.ops ==> Works(s, o) && (!s.ops[o].Sighting? ==> o in s.authority))
    && (o in s.ops && (s.ops[o].Reading? || s.ops[o].Leased?) ==> s.ops[o].expected == s.authority[o])
    && (o in s.authority && Works(s, o) && o !in s.disturbed && !(o in s.ops && (s.ops[o].Unrecorded() || s.ops[o].Sighting?)) ==>
          s.authority[o].snapshot.tracked == s.Repo(o))
    && (o in s.ops && (s.ops[o].Writing? || s.ops[o].Sighting?) && Works(s, o) && o !in s.disturbed ==> s.ops[o].seen.tracked == s.Repo(o))
  }

  ghost predicate Inv(s: System) {
    && (forall b {:trigger LeaseLives(s, b)} :: LeaseLives(s, b))
    && (forall o, b {:trigger LeasesHeld(s, o, b)} :: LeasesHeld(s, o, b))
    && (forall o {:trigger InStep(s, o)} :: InStep(s, o))
  }

  lemma InStepKept(s: System, step: Step)
    requires Inv(s) && Enabled(s, step)
    ensures forall o :: InStep(After(s, step), o)
  {
    hide InStep, Enabled, After;
    forall o ensures InStep(After(s, step), o) { InStepAfter(s, step, o); }
  }

  lemma InStepAfter(s: System, step: Step, o: Owner)
    requires InStep(s, o) && Enabled(s, step)
    ensures InStep(After(s, step), o)
  {
    if step.Outside? || step.Expire? || step.o != o {
      OtherInStepAfter(s, step, o);
    } else {
      OwnerInStepAfter(s, step, o);
    }
  }

  /** Another's step leaves an owner's records alone... */
  lemma OtherRecordsAfter(s: System, step: Step, o: Owner)
    requires Enabled(s, step) && (step.Outside? || step.Expire? || step.o != o)
    ensures Get(After(s, step).ops, o) == Get(s.ops, o) && Get(After(s, step).authority, o) == Get(s.authority, o)
  {
    hide CompareSnapshots, Judge;
  }

  /** ...and its workspace too, unless it marks the owner disturbed. */
  lemma OtherPlaceAfter(s: System, step: Step, o: Owner)
    requires Enabled(s, step) && (step.Outside? || step.Expire? || step.o != o)
    ensures var s' := After(s, step);
            && Get(s'.home, o) == Get(s.home, o) && s.repos.Keys <= s'.repos.Keys && (Works(s', o) ==> Works(s, o))
            && (o in s.disturbed ==> o in s'.disturbed) && (Works(s, o) && o !in s'.disturbed ==> s'.repos[s.home[o]] == s.Repo(o))
  {
    hide After, Enabled;
    if step.Mutate? || step.Outside? || step.Rehome? {
      OtherPlaceChanged(s, step, o);
    } else {
      OtherPlaceLeft(s, step, o);
    }
  }

  lemma OtherPlaceChanged(s: System, step: Step, o: Owner)
    requires Enabled(s, step) && (step.Mutate? || step.Outside? || step.Rehome?) && (step.Outside? || step.o != o)
    ensures var s' := After(s, step);
            && Get(s'.home, o) == Get(s.home, o) && s.repos.Keys <= s'.repos.Keys && (Works(s', o) ==> Works(s, o))
            && (o in s.disturbed ==> o in s'.disturbed) && (Works(s, o) && o !in s'.disturbed ==> s'.repos[s.home[o]] == s.Repo(o))
  {}

  lemma OtherPlaceLeft(s: System, step: Step, o: Owner)
    requires Enabled(s, step) && !step.Mutate? && !step.Outside? && !step.Rehome? && (step.Expire? || step.o != o)
    ensures var s' := After(s, step); s'.home == s.home && s'.repos == s.repos && (o in s.disturbed ==> o in s'.disturbed)
  {
    hide CompareSnapshots, Judge;
  }

  lemma OtherInStepAfter(s: System, step: Step, o: Owner)
    requires InStep(s, o) && Enabled(s, step) && (step.Outside? || step.Expire? || step.o != o)
    ensures InStep(After(s, step), o)
  {
    hide After, Enabled;
    OtherRecordsAfter(s, step, o);
    OtherPlaceAfter(s, step, o);
  }

  lemma OwnerInStepAfter(s: System, step: Step, o: Owner)
    requires InStep(s, o) && Enabled(s, step) && !step.Outside? && !step.Expire? && step.o == o
    ensures InStep(After(s, step), o)
  {
    hide InStep, After, Enabled;
    if Early(step) { OwnerEarly(s, step, o); } else { OwnerLate(s, step, o); }
  }

  /** Steps before the comparison. */
  predicate Early(step: Step) {
    step.Sight? || step.WriteBaseline? || step.Unseen? || step.Begin? || step.Acquire? || step.Refused? || step.Rehome?
  }

  lemma OwnerEarly(s: System, step: Step, o: Owner)
    requires InStep(s, o) && Enabled(s, step) && Early(step) && step.o == o
    ensures InStep(After(s, step), o)
  {
    hide CompareSnapshots, Judge;
  }

  lemma OwnerLate(s: System, step: Step, o: Owner)
    requires InStep(s, o) && Enabled(s, step) && !Early(step) && !step.Outside? && !step.Expire? && step.o == o
    ensures InStep(After(s, step), o)
  {
    hide CompareSnapshots, Judge;
  }

  lemma LeasesKept(s: System, step: Step)
    requires Inv(s) && Enabled(s, step)
    ensures forall b :: LeaseLives(After(s, step), b)
    ensures forall o, b :: LeasesHeld(After(s, step), o, b)
  {
    hide LeaseLives, LeasesHeld, Enabled, After;
    forall b ensures LeaseLives(After(s, step), b) { LeaseLivesAfter(s, step, b); }
    forall o, b ensures LeasesHeld(After(s, step), o, b) { LeasesHeldAfter(s, step, o, b); }
  }

  lemma LeaseLivesAfter(s: System, step: Step, b: Branch)
    requires LeaseLives(s, b) && Enabled(s, step)
    ensures LeaseLives(After(s, step), b)
  {
    hide CompareSnapshots, Judge;
  }

  lemma LeasesHeldAfter(s: System, step: Step, o: Owner, b: Branch)
    requires LeasesHeld(s, o, b) && LeaseLives(s, b) && Enabled(s, step)
    ensures LeasesHeld(After(s, step), o, b)
  {
    hide CompareSnapshots, Judge;
  }

  // ----- runs -----

  ghost predicate Initial(s: System) {
    s.authority == map[] && s.leases == map[] && s.ops == map[] && s.disturbed == {} && s.lapsed == {}
  }

  ghost predicate Run(s: System, steps: seq<Step>, s': System)
    decreases |steps|
  {
    if steps == [] then s' == s
    else Enabled(s, steps[0]) && Run(After(s, steps[0]), steps[1..], s')
  }

  lemma {:induction false} InvAlways(s: System, steps: seq<Step>, s': System)
    requires Inv(s) && Run(s, steps, s')
    ensures Inv(s')
    decreases |steps|
  {
    if steps != [] {
      InStepKept(s, steps[0]);
      LeasesKept(s, steps[0]);
      InvAlways(After(s, steps[0]), steps[1..], s');
    }
  }

  ghost predicate Reachable(s: System) {
    exists s0, steps :: Initial(s0) && Run(s0, steps, s)
  }

  lemma ReachableInv(s: System)
    requires Reachable(s)
    ensures Inv(s)
  {
    var s0, steps :| Initial(s0) && Run(s0, steps, s);
    InvAlways(s0, steps, s);
  }

  /** A callback starts only on exactly the state its owner's checkpoint records. */
  lemma CallbackSeesItsCheckpoint(s: System, o: Owner)
    requires Reachable(s) && Enabled(s, Step.Compare(o)) && s.Compare(o).ops[o].Mutating?
    ensures o in s.authority && s.authority[o].snapshot.tracked == s.Repo(o)
  {
    ReachableInv(s);
    assert InStep(s, o);
    FingerprintsDecideDrift(s.authority[o].snapshot, Snapshot(s.Repo(o), 0, None));
  }

  /** Steps of the owner's own operation. */
  predicate Own(step: Step, o: Owner) {
    !step.Outside? && !step.Expire? && !step.Rehome? && step.o == o
  }

  /** The owner's operation is still at its callback, in the same workspace and on the same state. */
  ghost predicate Holds(s: System, s': System, o: Owner) {
    && Works(s, o) && Works(s', o) && s'.home[o] == s.home[o] && s'.Repo(o) == s.Repo(o)
    && Get(s'.ops, o) == Get(s.ops, o) && Get(s'.authority, o) == Get(s.authority, o)
  }

  lemma HoldsAfter(s: System, step: Step, o: Owner)
    requires Works(s, o) && Enabled(s, step) && !Own(step, o) && !Disturbs(s.home, step, o)
    ensures Holds(s, After(s, step), o)
  {
    hide CompareSnapshots, Judge;
  }

  /** Nobody's step along the run is the owner's own. */
  ghost predicate Waits(steps: seq<Step>, o: Owner) {
    forall k :: 0 <= k < |steps| ==> !Own(steps[k], o)
  }

  lemma {:induction false} HoldsAlong(s: System, steps: seq<Step>, s': System, o: Owner)
    requires Works(s, o) && Run(s, steps, s') && Waits(steps, o) && !DisturbedIn(s, steps, o)
    ensures Holds(s, s', o)
    decreases |steps|
  {
    hide Own, Disturbs, After, Enabled;
    if steps != [] {
      HoldsAfter(s, steps[0], o);
      forall k | 0 <= k < |steps[1..]| ensures !Own(steps[1..][k], o) { assert steps[1..][k] == steps[k + 1]; }
      HoldsAlong(After(s, steps[0]), steps[1..], s', o);
    }
  }

  /**
   When the callback gets to its first change, whatever other owners did since the comparison, it
   changes the workspace that was compared, in the state its owner's checkpoint records.
   */
  lemma CallbackChangesItsCheckpoint(s: System, o: Owner, steps: seq<Step>, s': System)
    requires Reachable(s) && Enabled(s, Step.Compare(o)) && s.Compare(o).ops[o].Mutating?
    requires Run(s.Compare(o), steps, s') && Waits(steps, o) && !DisturbedIn(s.Compare(o), steps, o)
    ensures Works(s', o) && s'.home[o] == s.home[o]
    ensures o in s'.authority && s'.authority[o].snapshot.tracked == s'.Repo(o)
  {
    hide Run, DisturbedIn, Waits, CompareSnapshots;
    CallbackSeesItsCheckpoint(s, o);
    HoldsAlong(s.Compare(o), steps, s', o);
    assert Get(s'.authority, o) == Some(s.authority[o]);
  }

  /** What is written after the callback is the state it left, on success and on error. */
  lemma CheckpointIsActual(s: System, o: Owner)
    requires Reachable(s) && Enabled(s, Step.Write(o)) && o !in s.disturbed
    ensures Works(s, o) && s.Write(o).authority[o].snapshot.tracked == s.Repo(o)
  {
    ReachableInv(s);
    assert InStep(s, o);
  }

  lemma NoLeaseOutlivesItsOperation(s: System, b: Branch)
    requires Reachable(s) && b in s.leases
    ensures s.leases[b] in s.ops && b in s.ops[s.leases[b]].branches
  {
    ReachableInv(s);
    assert LeaseLives(s, b);
  }

  /** Steps that can make an owner's record stale. */
  ghost predicate Disturbs(home: map<Owner, Workspace>, step: Step, o: Owner) {
    match step
    case Mutate(p, _) => p != o && p in home && o in home && home[p] == home[o]
    case Outside(w, _) => o in home && home[o] == w
    case Lose(p) => p == o
    case Unseen(p) => p == o
    case Rehome(p, _) => p == o
    case _ => false
  }

  /** Somewhere along the run such a step is taken. */
  ghost predicate DisturbedIn(s: System, steps: seq<Step>, o: Owner)
    decreases |steps|
  {
    steps != [] && Enabled(s, steps[0]) && (Disturbs(s.home, steps[0], o) || DisturbedIn(After(s, steps[0]), steps[1..], o))
  }

  lemma UndisturbedAfter(s: System, step: Step, o: Owner)
    requires Enabled(s, step) && o !in s.disturbed && !Disturbs(s.home, step, o)
    ensures o !in After(s, step).disturbed
  {
    hide CompareSnapshots, Judge;
  }

  lemma {:induction false} DisturbanceHasCause(s: System, steps: seq<Step>, s': System, o: Owner)
    requires Run(s, steps, s') && o !in s.disturbed && o in s'.disturbed
    ensures DisturbedIn(s, steps, o)
    decreases |steps|
  {
    hide Disturbs, After, Enabled;
    if !Disturbs(s.home, steps[0], o) {
      UndisturbedAfter(s, steps[0], o);
      DisturbanceHasCause(After(s, steps[0]), steps[1..], s', o);
    }
  }

  /** No drift is reported unless someone else changed the workspace, the Runtime was taken to another
      one, or a checkpoint was lost, since a state in which the owner's record was current. */
  lemma DriftHasCause(s: System, steps: seq<Step>, s': System, o: Owner)
    requires Reachable(s) && Reachable(s') && Run(s, steps, s') && o !in s.disturbed
    requires Enabled(s', Step.Compare(o)) && s'.Compare(o).ops[o].Releasing?
    ensures DisturbedIn(s, steps, o)
  {
    hide Run, After, DisturbedIn, CompareSnapshots, Reachable;
    ReachableInv(s');
    assert InStep(s', o);
    FingerprintsDecideDrift(s'.authority[o].snapshot, Snapshot(s'.Repo(o), 0, None));
    DisturbanceHasCause(s, steps, s', o);
  }

  /** Reconciliation advances the authority to the state presented; a preflight that follows
      undisturbed sees no drift. */
  lemma ReconciledOwnerSeesNoDrift(s: System, o: Owner, steps: seq<Step>, s': System)
    requires Reachable(s) && Reachable(s') && Enabled(s, Step.Write(o)) && o !in s.disturbed
    requires Run(s.Write(o), steps, s') && !DisturbedIn(s.Write(o), steps, o)
    requires Enabled(s', Step.Compare(o))
    ensures s'.Compare(o).ops[o].Mutating?
  {
    if o in s'.disturbed { DisturbanceHasCause(s.Write(o), steps, s', o); }
    ReachableInv(s');
    assert InStep(s', o);
    FingerprintsDecideDrift(s'.authority[o].snapshot, Snapshot(s'.Repo(o), 0, None));
  }

  // ----- exclusion -----

  /** Operations that hold leases, none of which ran out, hold different branches. */
  lemma BranchesAreDisjoint(s: System, o: Owner, p: Owner)
    requires Reachable(s) && o != p && o in s.ops && p in s.ops && s.ops[o].HoldsLeases() && s.ops[p].HoldsLeases()
    requires o !in s.lapsed && p !in s.lapsed
    ensures s.ops[o].branches !! s.ops[p].branches
  {
    ReachableInv(s);
    forall b | b in s.ops[o].branches ensures b !in s.ops[p].branches {
      assert LeasesHeld(s, o, b) && LeasesHeld(s, p, b);
    }
  }

  /** Phases that the leases must protect: the callback, or the `whole` time until the checkpoint is written. */
  predicate Protected(p: Phase, whole: bool) {
    p.Mutating? || (whole && p.Unrecorded())
  }

  /** The lease covers the branch the workspace is actually on, when comparing and afterwards. */
  ghost predicate Covered(s: System, step: Step, whole: bool) {
    match step
    case Compare(o) => Works(s, o) ==> OnLeasedBranch(s, o, s.Repo(o))
    case Reconcile(o, _, _, _) => whole && Works(s, o) ==> OnLeasedBranch(s, o, s.Repo(o))
    case Mutate(o, effect) => OnLeasedBranch(s, o, effect)
    case Outside(w, effect) =>
      forall o :: o in s.ops && Protected(s.ops[o], whole) && o in s.home && s.home[o] == w ==> OnLeasedBranch(s, o, effect)
    case Rehome(o, w) => o in s.ops && Protected(s.ops[o], whole) && w in s.repos ==> OnLeasedBranch(s, o, s.repos[w])
    case Expire(_) => false
    case _ => true
  }

  ghost predicate OnLeasedBranch(s: System, o: Owner, t: Tracked) {
    o in s.ops && t.branch.Some? && t.branch.value in s.ops[o].branches
  }

  ghost predicate CoveredRun(s: System, steps: seq<Step>, whole: bool)
    decreases |steps|
  {
    steps != [] && Enabled(s, steps[0]) ==> Covered(s, steps[0], whole) && CoveredRun(After(s, steps[0]), steps[1..], whole)
  }

  ghost predicate OnBranch(s: System, o: Owner, whole: bool) {
    o in s.ops && Protected(s.ops[o], whole) ==> Works(s, o) && OnLeasedBranch(s, o, s.Repo(o))
  }

  ghost predicate AllOnBranch(s: System, whole: bool) {
    s.lapsed == {} && forall o {:trigger OnBranch(s, o, whole)} :: OnBranch(s, o, whole)
  }

  /** Two owners in one workspace are never protected at the same time. */
  lemma OneProtected(s: System, o: Owner, p: Owner, whole: bool)
    requires Inv(s) && AllOnBranch(s, whole)
    requires o in s.ops && p in s.ops && Protected(s.ops[o], whole) && Protected(s.ops[p], whole)
    requires o in s.home && p in s.home && s.home[o] == s.home[p]
    ensures o == p
  {
    assert OnBranch(s, o, whole) && OnBranch(s, p, whole);
    var b := s.Repo(o).branch.value;
    assert LeasesHeld(s, o, b) && LeasesHeld(s, p, b);
  }

  lemma OnBranchKept(s: System, step: Step, whole: bool)
    requires Inv(s) && AllOnBranch(s, whole) && Enabled(s, step) && Covered(s, step, whole)
    ensures AllOnBranch(After(s, step), whole)
  {
    hide OnBranch, Enabled, After, Covered, Inv, InStep;
    NoneLapse(s, step, whole);
    forall o ensures OnBranch(After(s, step), o, whole) { OnBranchAfter(s, step, o, whole); }
  }

  lemma NoneLapse(s: System, step: Step, whole: bool)
    requires s.lapsed == {} && Enabled(s, step) && Covered(s, step, whole)
    ensures After(s, step).lapsed == {}
  {
    hide CompareSnapshots, Judge;
  }

  lemma OnBranchAfter(s: System, step: Step, o: Owner, whole: bool)
    requires Inv(s) && AllOnBranch(s, whole) && Enabled(s, step) && Covered(s, step, whole)
    ensures OnBranch(After(s, step), o, whole)
  {
    hide After, Enabled, Covered, InStep, LeaseLives, LeasesHeld;
    assert OnBranch(s, o, whole) && InStep(s, o);
    if step.Outside? || step.Expire? || step.o != o {
      OtherRecordsAfter(s, step, o);
      if step.Mutate? || step.Outside? || step.Rehome? {
        OnBranchTouched(s, step, o, whole);
      } else {
        OtherPlaceLeft(s, step, o);
      }
    } else {
      OnBranchOwn(s, step, o, whole);
    }
  }

  /** A repository changes, perhaps the owner's. */
  lemma OnBranchTouched(s: System, step: Step, o: Owner, whole: bool)
    requires Inv(s) && AllOnBranch(s, whole) && Enabled(s, step) && Covered(s, step, whole)
    requires step.Outside? || ((step.Mutate? || step.Rehome?) && step.o != o)
    ensures OnBranch(After(s, step), o, whole)
  {
    hide LeaseLives, LeasesHeld, InStep;
    assert OnBranch(s, o, whole);
    if step.Mutate? && o in s.ops && Protected(s.ops[o], whole) && s.home[o] == s.home[step.o] {
      OneProtected(s, o, step.o, whole);
    }
  }

  lemma OnBranchOwn(s: System, step: Step, o: Owner, whole: bool)
    requires OnBranch(s, o, whole) && InStep(s, o) && Enabled(s, step) && Covered(s, step, whole)
    requires !step.Outside? && !step.Expire? && step.o == o
    ensures OnBranch(After(s, step), o, whole)
  {
    hide CompareSnapshots, Judge;
  }

  lemma {:induction false} MutualExclusion(s: System, steps: seq<Step>, s': System, whole: bool)
    requires Inv(s) && AllOnBranch(s, whole) && Run(s, steps, s') && CoveredRun(s, steps, whole)
    ensures Inv(s') && AllOnBranch(s', whole)
    decreases |steps|
  {
    hide Enabled, After, Covered, AllOnBranch;
    if steps != [] {
      InStepKept(s, steps[0]);
      LeasesKept(s, steps[0]);
      OnBranchKept(s, steps[0], whole);
      MutualExclusion(After(s, steps[0]), steps[1..], s', whole);
    }
  }

  /** From any start, for as long as leases cover the branches in use, callbacks never overlap in a workspace. */
  lemma CallbacksExclude(s0: System, steps: seq<Step>, s: System, o: Owner, p: Owner)
    requires Initial(s0) && Run(s0, steps, s) && CoveredRun(s0, steps, false)
    requires o in s.ops && p in s.ops && s.ops[o].Mutating? && s.ops[p].Mutating?
    requires o in s.home && p in s.home && s.home[o] == s.home[p]
    ensures o == p
  {
    InitialFine(s0);
    MutualExclusion(s0, steps, s, false);
    OneProtected(s, o, p, false);
  }

  // ----- no lost update -----

  /** What leases cannot keep out: the outside world, and another context on the owner's Runtime. */
  ghost predicate Interferes(home: map<Owner, Workspace>, step: Step, o: Owner) {
    (step.Outside? && o in home && home[o] == step.w) || (step.Rehome? && step.o == o)
  }

  ghost predicate InterferedIn(s: System, steps: seq<Step>, o: Owner)
    decreases |steps|
  {
    steps != [] && Enabled(s, steps[0]) && (Interferes(s.home, steps[0], o) || InterferedIn(After(s, steps[0]), steps[1..], o))
  }

  /** The owner is between its comparison and its checkpoint; a snapshot it took is still current. */
  ghost predicate AtWork(s: System, o: Owner) {
    Works(s, o) && o in s.ops && s.ops[o].Unrecorded() && (s.ops[o].Writing? ==> o !in s.disturbed)
  }

  /** Other owners' steps leave the workspace of an owner at work alone. */
  lemma OthersKeepOut(s: System, step: Step, o: Owner)
    requires Inv(s) && AllOnBranch(s, true) && Enabled(s, step) && Covered(s, step, true)
    requires AtWork(s, o) && !Own(step, o) && !Interferes(s.home, step, o)
    ensures Holds(s, After(s, step), o) && AtWork(After(s, step), o)
  {
    hide After, Inv, AllOnBranch, InStep, Covered;
    if step.Mutate? && step.o in s.home && s.home[step.o] == s.home[o] { OneProtected(s, o, step.o, true); }
    assert !Disturbs(s.home, step, o);
    HoldsAfter(s, step, o);
    assert Get(After(s, step).ops, o) == Get(s.ops, o);
    if o !in s.disturbed { UndisturbedAfter(s, step, o); }
  }

  /** Steps that end the time at work. */
  predicate EndsWork(step: Step, o: Owner) {
    (step.Write? || step.Lose?) && step.o == o
  }

  /** The state that the owner's own changes along a run make of `t`. */
  function Replayed(t: Tracked, steps: seq<Step>, o: Owner): Tracked
    decreases |steps|
  {
    if steps == [] then t
    else Replayed(if steps[0].Mutate? && steps[0].o == o then steps[0].effect else t, steps[1..], o)
  }

  lemma OwnStepAtWork(s: System, step: Step, o: Owner)
    requires AtWork(s, o) && Enabled(s, step) && Own(step, o) && !EndsWork(step, o)
    ensures var s' := After(s, step);
            && AtWork(s', o) && s'.home == s.home && Get(s'.authority, o) == Get(s.authority, o)
            && s'.Repo(o) == if step.Mutate? then step.effect else s.Repo(o)
  {
    hide CompareSnapshots, Judge;
  }

  /** While an owner is at work, its workspace is what its own changes make of it. */
  lemma {:induction false} OnlyOwnChanges(s: System, steps: seq<Step>, s': System, o: Owner)
    requires Inv(s) && AllOnBranch(s, true) && AtWork(s, o)
    requires Run(s, steps, s') && CoveredRun(s, steps, true) && !InterferedIn(s, steps, o)
    requires forall k :: 0 <= k < |steps| ==> !EndsWork(steps[k], o)
    ensures Inv(s') && AtWork(s', o) && s'.home[o] == s.home[o] && Get(s'.authority, o) == Get(s.authority, o)
    ensures s'.Repo(o) == Replayed(s.Repo(o), steps, o)
    decreases |steps|
  {
    hide Inv, AllOnBranch, Covered, Enabled, After, Own, Interferes, EndsWork;
    if steps != [] {
      var step, rest, s1 := steps[0], steps[1..], After(s, steps[0]);
      assert !EndsWork(step, o);
      InvKept(s, step);
      OnBranchKept(s, step, true);
      if Own(step, o) {
        OwnStepAtWork(s, step, o);
        OwnIsOwn(step, o);
      } else {
        OthersKeepOut(s, step, o);
        OwnIsOwn(step, o);
      }
      forall k | 0 <= k < |rest| ensures !EndsWork(rest[k], o) { assert rest[k] == steps[k + 1]; }
      OnlyOwnChanges(s1, rest, s', o);
    }
  }

  lemma OwnIsOwn(step: Step, o: Owner)
    ensures Own(step, o) && step.Mutate? <==> step.Mutate? && step.o == o
  {}

  lemma InvKept(s: System, step: Step)
    requires Inv(s) && Enabled(s, step)
    ensures Inv(After(s, step))
  {
    InStepKept(s, step);
    LeasesKept(s, step);
  }

  ghost predicate CoveredPath(s: System, steps: seq<Step>, s': System) {
    Run(s, steps, s') && CoveredRun(s, steps, true)
  }

  /** The owner's comparison finds no drift, on a branch it has leased. */
  ghost predicate Passes(s: System, o: Owner) {
    && Works(s, o) && o in s.ops && s.ops[o].Leased? && OnLeasedBranch(s, o, s.Repo(o))
    && CompareSnapshots(s.ops[o].expected.snapshot, Snapshot(s.Repo(o), 0, None)) == map[]
  }

  /**
   No lost update.  From a comparison that passes until the checkpoint is written, whatever other
   owners do, the workspace is the compared one and holds what the owner's own callback makes of
   the recorded state; and that is what the checkpoint records.
   */
  lemma NoLostUpdate(s0: System, before: seq<Step>, s: System, o: Owner, steps: seq<Step>, s': System)
    requires Initial(s0) && CoveredPath(s0, before, s)
    requires Passes(s, o) && CoveredPath(s.Compare(o), steps, s') && !InterferedIn(s.Compare(o), steps, o)
    requires forall k :: 0 <= k < |steps| ==> !EndsWork(steps[k], o)
    ensures o in s.authority && Works(s', o) && s'.home[o] == s.home[o]
    ensures s'.Repo(o) == Replayed(s.authority[o].snapshot.tracked, steps, o)
    ensures o in s'.ops && s'.ops[o].Writing? ==> s'.Write(o).authority[o].snapshot.tracked == s'.Repo(o)
  {
    hide Run, CoveredRun, InterferedIn, CompareSnapshots, AllOnBranch, Replayed, EndsWork;
    InitialFine(s0);
    MutualExclusion(s0, before, s, true);
    assert InStep(s, o);
    FingerprintsDecideDrift(s.authority[o].snapshot, Snapshot(s.Repo(o), 0, None));
    var s1 := s.Compare(o);
    InvKept(s, Step.Compare(o));
    OnBranchKept(s, Step.Compare(o), true);
    OnlyOwnChanges(s1, steps, s', o);
    assert InStep(s', o);
  }

  lemma InitialFine(s: System)
    requires Initial(s)
    ensures Inv(s) && AllOnBranch(s, true) && AllOnBranch(s, false)
  {}

  /** In particular the callback's first change is made to the compared workspace in the recorded state. */
  lemma FirstChangeIsOnRecord(s0: System, before: seq<Step>, s: System, o: Owner, steps: seq<Step>, s': System)
    requires Initial(s0) && CoveredPath(s0, before, s)
    requires Passes(s, o) && CoveredPath(s.Compare(o), steps, s') && !InterferedIn(s.Compare(o), steps, o)
    requires Waits(steps, o)
    ensures o in s.authority && Works(s', o) && s'.home[o] == s.home[o]
    ensures s'.Repo(o) == s.authority[o].snapshot.tracked
  {
    hide CoveredPath, InterferedIn;
    forall k | 0 <= k < |steps| ensures !EndsWork(steps[k], o) { assert !Own(steps[k], o); }
    NoLostUpdate(s0, before, s, o, steps, s');
    NothingReplayed(s.authority[o].snapshot.tracked, steps, o);
  }

  lemma {:induction false} NothingReplayed(t: Tracked, steps: seq<Step>, o: Owner)
    requires Waits(steps, o)
    ensures Replayed(t, steps, o) == t
    decreases |steps|
  {
    if steps != [] {
      assert !Own(steps[0], o);
      forall k | 0 <= k < |steps[1..]| ensures !Own(steps[1..][k], o) { assert steps[1..][k] == steps[k + 1]; }
      NothingReplayed(t, steps[1..], o);
    }
  }

  /** And the checkpoint is written with what was collected, which is still the state of the workspace. */
  lemma CollectedIsWritten(s0: System, before: seq<Step>, s: System, o: Owner, now: nat, steps: seq<Step>, s': System)
    requires Initial(s0) && CoveredPath(s0, before, s) && Works(s, o) && o in s.ops && s.ops[o].Finished?
    requires CoveredPath(s.Collect(o, now), steps, s') && !InterferedIn(s.Collect(o, now), steps, o) && Waits(steps, o)
    ensures o in s'.ops && s'.ops[o].Writing? && Works(s', o) && s'.home[o] == s.home[o]
    ensures s'.Write(o).authority[o].snapshot.tracked == s'.Repo(o) == s.Repo(o)
  {
    hide Run, CoveredRun, InterferedIn, AllOnBranch;
    InitialFine(s0);
    MutualExclusion(s0, before, s, true);
    assert InStep(s, o);
    var s1 := s.Collect(o, now);
    InvKept(s, Step.Collect(o, now));
    OnBranchKept(s, Step.Collect(o, now), true);
    forall k | 0 <= k < |steps| ensures !EndsWork(steps[k], o) { assert !Own(steps[k], o); }
    OnlyOwnChanges(s1, steps, s', o);
    StaysWriting(s1, steps, s', o);
    NothingReplayed(s1.Repo(o), steps, o);
    assert InStep(s', o);
  }

  /** Nobody but the owner moves its operation on. */
  lemma {:induction false} StaysWriting(s: System, steps: seq<Step>, s': System, o: Owner)
    requires Run(s, steps, s') && Waits(steps, o)
    ensures Get(s'.ops, o) == Get(s.ops, o)
    decreases |steps|
  {
    hide Enabled, After, Own;
    if steps != [] {
      PhaseAfter(s, steps[0], o);
      forall k | 0 <= k < |steps[1..]| ensures !Own(steps[1..][k], o) { assert steps[1..][k] == steps[k + 1]; }
      StaysWriting(After(s, steps[0]), steps[1..], s', o);
    }
  }

  lemma PhaseAfter(s: System, step: Step, o: Owner)
    requires Enabled(s, step) && !Own(step, o)
    ensures Get(After(s, step).ops, o) == Get(s.ops, o)
  {
    hide CompareSnapshots, Judge;
  }

  // ----- the lease is taken on the branch read before it -----

  lemma {:induction false} Append(s: System, a: seq<Step>, mid: System, b: seq<Step>, s': System)
    requires Run(s, a, mid) && Run(mid, b, s')
    ensures Run(s, a + b, s')
    decreases |a|
  {
    if a == [] {
      assert a + b == b;
    } else {
      Append(After(s, a[0]), a[1..], mid, b, s');
      assert (a + b)[1..] == a[1..] + b;
    }
  }

  lemma Two(s: System, a: Step, b: Step, s': System)
    requires Enabled(s, a) && Enabled(After(s, a), b) && s' == After(After(s, a), b)
    ensures Run(s, [a, b], s')
  {
    assert [a, b][1..] == [b] && [b][1..] == [];
    assert Run(s', [], s');
    assert Run(After(s, a), [b], s');
  }

  /**
   Two owners share workspace `w`.  One reads its branch while an outsider has it on another
   branch for a moment, so its lease covers the wrong branch, and both callbacks get to run.
   */
  lemma StaleBranchWitness(w: Workspace, o: Owner, p: Owner, x: Tracked, y: Tracked)
    requires o != p && x.branch.Some? && y.branch.Some? && x.branch != y.branch
    ensures exists s0, steps, s :: Initial(s0) && Run(s0, steps, s) && o in s.ops && p in s.ops &&
                                   s.ops[o].Mutating? && s.ops[p].Mutating? && s.home == map[o := w, p := w]
  {
    hide Run, CompareSnapshots, After, Enabled;
    var s0 := System(map[o := w, p := w], map[w := x], map[], map[], map[], 0, {}, {});
    var c, d := Checkpoint(0, Snapshot(x, 0, None)), Checkpoint(1, Snapshot(x, 0, None));
    var s1 := s0.(authority := map[o := c], nextId := 1);
    var s2 := s1.(authority := map[o := c, p := d], nextId := 2);
    FirstSight(s0, o, w, x, s1);
    FirstSight(s1, p, w, x, s2);
    var s3 := s2.(repos := map[w := y], disturbed := {o, p}, ops := map[o := Reading({y.branch.value}, c)]);
    StaleRead(s2, o, p, w, y, c, s3);
    var s4 := s3.(repos := map[w := x], leases := map[y.branch.value := o], ops := map[o := Leased({y.branch.value}, c)]);
    StaleLease(s3, o, p, w, x, y, c, s4);
    BothRun(s4, o, p, w, x, y, c, d);
    var rest, s :| Run(s4, rest, s) && o in s.ops && p in s.ops && s.ops[o].Mutating? && s.ops[p].Mutating? && s.home == s4.home;
    var a1, a2 := [Step.Sight(o, 0), Step.WriteBaseline(o)], [Step.Sight(p, 0), Step.WriteBaseline(p)];
    var a3, a4 := [Step.Outside(w, y), Step.Begin(o, {})], [Step.Outside(w, x), Step.Acquire(o)];
    Append(s3, a4, s4, rest, s);
    Append(s2, a3, s3, a4 + rest, s);
    Append(s1, a2, s2, a3 + (a4 + rest), s);
    Append(s0, a1, s1, a2 + (a3 + (a4 + rest)), s);
    assert Initial(s0);
  }

  lemma FirstSight(s: System, o: Owner, w: Workspace, x: Tracked, s': System)
    requires o in s.home && s.home[o] == w && w in s.repos && s.repos[w] == x && s.ops == map[] && s.disturbed == {} && o !in s.authority
    requires s' == s.(authority := s.authority[o := Checkpoint(s.nextId, Snapshot(x, 0, None))], nextId := s.nextId + 1)
    ensures Run(s, [Step.Sight(o, 0), Step.WriteBaseline(o)], s')
  {
    hide Run;
    assert s.Sight(o, 0).WriteBaseline(o) == s';
    Two(s, Step.Sight(o, 0), Step.WriteBaseline(o), s');
  }

  lemma StaleRead(s2: System, o: Owner, p: Owner, w: Workspace, y: Tracked, c: Checkpoint, s3: System)
    requires o != p && s2.home == map[o := w, p := w] && s2.repos.Keys == {w} && s2.ops == map[] && s2.disturbed == {}
    requires o in s2.authority && s2.authority[o] == c && y.branch.Some?
    requires s3 == s2.(repos := map[w := y], disturbed := {o, p}, ops := map[o := Reading({y.branch.value}, c)])
    ensures Run(s2, [Step.Outside(w, y), Step.Begin(o, {})], s3)
  {
    hide Run;
    var mid := After(s2, Step.Outside(w, y));
    assert s2.repos[w := y] == map[w := y];
    assert s2.Everyone(w) == {o, p};
    assert {y.branch.value} + {} == {y.branch.value};
    Two(s2, Step.Outside(w, y), Step.Begin(o, {}), s3);
  }

  lemma StaleLease(s3: System, o: Owner, p: Owner, w: Workspace, x: Tracked, y: Tracked, c: Checkpoint, s4: System)
    requires s3.lapsed == {}
    requires o != p && s3.home == map[o := w, p := w] && s3.repos == map[w := y] && s3.disturbed == {o, p} && s3.leases == map[]
    requires y.branch.Some? && s3.ops == map[o := Reading({y.branch.value}, c)]
    requires s4 == s3.(repos := map[w := x], leases := map[y.branch.value := o], ops := map[o := Leased({y.branch.value}, c)])
    ensures Run(s3, [Step.Outside(w, x), Step.Acquire(o)], s4)
  {
    hide Run;
    assert s3.Everyone(w) == {o, p};
    assert s3.repos[w := x] == map[w := x];
    var mid := After(s3, Step.Outside(w, x));
    AcquiresOne(mid, o, y.branch.value, c);
    assert mid.leases[y.branch.value := o] == s4.leases && mid.ops[o := Leased({y.branch.value}, c)] == s4.ops;
    Two(s3, Step.Outside(w, x), Step.Acquire(o), s4);
  }

  lemma BothRun(s4: System, o: Owner, p: Owner, w: Workspace, x: Tracked, y: Tracked, c: Checkpoint, d: Checkpoint)
    requires s4.lapsed == {}
    requires o != p && s4.home == map[o := w, p := w] && s4.repos == map[w := x]
    requires x.branch.Some? && y.branch.Some? && x.branch != y.branch
    requires s4.leases == map[y.branch.value := o] && s4.ops == map[o := Leased({y.branch.value}, c)]
    requires p in s4.authority && s4.authority[p] == d && c.snapshot.tracked == x && d.snapshot.tracked == x
    ensures exists rest, s :: Run(s4, rest, s) && o in s.ops && p in s.ops && s.ops[o].Mutating? && s.ops[p].Mutating? && s.home == s4.home
  {
    hide Run, CompareSnapshots, After, Enabled;
    var b, q := x.branch.value, y.branch.value;
    var s6 := s4.(leases := map[q := o, b := p], ops := map[o := Leased({q}, c), p := Leased({b}, d)]);
    SecondLease(s4, o, p, w, x, y, c, d, s6);
    var s8 := s6.(ops := map[o := Mutating({q}), p := Mutating({b})]);
    BothCompare(s6, o, p, w, x, {q}, {b}, c, d, s8);
    Append(s4, [Step.Begin(p, {}), Step.Acquire(p)], s6, [Step.Compare(p), Step.Compare(o)], s8);
  }

  lemma SecondLease(s4: System, o: Owner, p: Owner, w: Workspace, x: Tracked, y: Tracked, c: Checkpoint, d: Checkpoint, s6: System)
    requires s4.lapsed == {}
    requires o != p && s4.home == map[o := w, p := w] && s4.repos == map[w := x]
    requires x.branch.Some? && y.branch.Some? && x.branch != y.branch
    requires s4.leases == map[y.branch.value := o] && s4.ops == map[o := Leased({y.branch.value}, c)]
    requires p in s4.authority && s4.authority[p] == d
    requires s6 == s4.(leases := map[y.branch.value := o, x.branch.value := p],
                   ops := map[o := Leased({y.branch.value}, c), p := Leased({x.branch.value}, d)])
    ensures Run(s4, [Step.Begin(p, {}), Step.Acquire(p)], s6)
  {
    hide Run, After, Enabled;
    var b := x.branch.value;
    var s5 := s4.Move(p, Reading({b}, d));
    BeginsOn(s4, p, d);
    AcquiresOne(s5, p, b, d);
    assert s5.leases[b := p] == s6.leases;
    assert s5.ops[p := Leased({b}, d)] == s6.ops;
    Two(s4, Step.Begin(p, {}), Step.Acquire(p), s6);
  }

  lemma BeginsOn(s: System, p: Owner, d: Checkpoint)
    requires Works(s, p) && p !in s.ops && p in s.authority && s.authority[p] == d && s.Repo(p).branch.Some?
    ensures Enabled(s, Step.Begin(p, {})) && After(s, Step.Begin(p, {})) == s.Move(p, Reading({s.Repo(p).branch.value}, d))
  {
    assert {s.Repo(p).branch.value} + {} == {s.Repo(p).branch.value};
  }

  lemma AcquiresOne(s: System, p: Owner, b: Branch, d: Checkpoint)
    requires p in s.ops && s.ops[p] == Reading({b}, d) && b !in s.leases && p !in s.lapsed
    ensures Enabled(s, Step.Acquire(p))
    ensures After(s, Step.Acquire(p)) == s.(leases := s.leases[b := p]).Move(p, Leased({b}, d))
  {
    var more := map k | k in s.ops[p].branches :: p;
    assert more.Keys == {b};
    assert s.leases + more == s.leases[b := p] && s.lapsed - {p} == s.lapsed;
  }

  lemma BothCompare(
    s6: System, o: Owner, p: Owner, w: Workspace, x: Tracked, q: set<Branch>, b: set<Branch>, c: Checkpoint, d: Checkpoint, s8: System)
    requires o != p && s6.home == map[o := w, p := w] && s6.repos == map[w := x]
    requires s6.ops == map[o := Leased(q, c), p := Leased(b, d)] && c.snapshot.tracked == x && d.snapshot.tracked == x
    requires s8 == s6.(ops := map[o := Mutating(q), p := Mutating(b)])
    ensures Run(s6, [Step.Compare(p), Step.Compare(o)], s8)
  {
    hide Run, CompareSnapshots, After, Enabled;
    var s7 := s6.(ops := map[o := Leased(q, c), p := Mutating(b)]);
    SecondOfPair(o, Leased(q, c), p, Leased(b, d), Mutating(b));
    FirstOfPair(o, Leased(q, c), p, Mutating(b), Mutating(q));
    ComparesEqual(s6, p, b, d);
    ComparesEqual(s7, o, q, c);
    Two(s6, Step.Compare(p), Step.Compare(o), s8);
  }

  lemma ComparesEqual(s: System, p: Owner, b: set<Branch>, d: Checkpoint)
    requires Works(s, p) && p in s.ops && s.ops[p] == Leased(b, d) && d.snapshot.tracked == s.Repo(p)
    ensures Enabled(s, Step.Compare(p)) && After(s, Step.Compare(p)) == s.Move(p, Mutating(b))
  {
    hide CompareSnapshots;
    FingerprintsDecideDrift(d.snapshot, Snapshot(s.Repo(p), 0, None));
  }

  lemma SecondOfPair(o: Owner, a: Phase, p: Owner, b: Phase, b': Phase)
    requires o != p
    ensures map[o := a, p := b][p := b'] == map[o := a, p := b']
  {}

  lemma FirstOfPair(o: Owner, a: Phase, p: Owner, b: Phase, a': Phase)
    requires o != p
    ensures map[o := a, p := b][o := a'] == map[o := a', p := b]
  {}

  // ----- a Runtime taken elsewhere -----

  /**
   Another context is applied on the owner's Runtime between the comparison and the callback: the
   callback changes a workspace that was never compared, in a state its owner never saw.
   */
  lemma RehomeWitness(o: Owner, v: Workspace, w: Workspace, x: Tracked, y: Tracked)
    requires v != w && x.branch.Some? && x != y
    ensures exists s0, steps, s :: Initial(s0) && Run(s0, steps, s) && o in s.ops && s.ops[o].Mutating? && o in s.authority &&
                                   Works(s, o) && s.authority[o].snapshot.tracked != s.Repo(o)
  {
    hide Run, CompareSnapshots, After, Enabled;
    var b, c := x.branch.value, Checkpoint(0, Snapshot(x, 0, None));
    var s0 := System(map[o := v], map[v := x, w := y], map[], map[], map[], 0, {}, {});
    var s1 := s0.(authority := map[o := c], nextId := 1);
    FirstSight(s0, o, v, x, s1);
    var s2 := CallbackStarts(s1, o, b, c);
    var s3 := s2.(home := s2.home[o := w], disturbed := s2.disturbed + {o});
    TakenAway(s2, o, w);
    var begun := [Step.Begin(o, {}), Step.Acquire(o)] + [Step.Compare(o)];
    Append(s1, begun, s2, [Step.Rehome(o, w)], s3);
    Append(s0, [Step.Sight(o, 0), Step.WriteBaseline(o)], s1, begun + [Step.Rehome(o, w)], s3);
    assert Initial(s0);
  }

  lemma TakenAway(s: System, o: Owner, w: Workspace)
    requires o in s.home && w in s.repos
    ensures Run(s, [Step.Rehome(o, w)], s.(home := s.home[o := w], disturbed := s.disturbed + {o}))
  {
    hide Run;
    Single(s, Step.Rehome(o, w), s.(home := s.home[o := w], disturbed := s.disturbed + {o}));
  }

  // ----- a lease that ran out -----

  /** The first callback outlasts its lease, and a second one starts on the same branch of the same workspace. */
  lemma ExpiryWitness(w: Workspace, o: Owner, p: Owner, x: Tracked)
    requires o != p && x.branch.Some?
    ensures exists s0, steps, s :: Initial(s0) && Run(s0, steps, s) && o in s.ops && p in s.ops &&
                                   s.ops[o].Mutating? && s.ops[p].Mutating? && s.home == map[o := w, p := w]
  {
    hide Run, CompareSnapshots, After, Enabled;
    var b, c, d := x.branch.value, Checkpoint(0, Snapshot(x, 0, None)), Checkpoint(1, Snapshot(x, 0, None));
    var s0 := System(map[o := w, p := w], map[w := x], map[], map[], map[], 0, {}, {});
    var s1 := s0.(authority := map[o := c], nextId := 1);
    var s2 := s1.(authority := map[o := c, p := d], nextId := 2);
    FirstSight(s0, o, w, x, s1);
    FirstSight(s1, p, w, x, s2);
    var s3 := CallbackStarts(s2, o, b, c);
    var s4 := s3.Expire(b);
    RunsOut(s3, b);
    var s5 := CallbackStarts(s4, p, b, d);
    var e := [Step.Begin(o, {}), Step.Acquire(o)] + [Step.Compare(o)];
    var f := [Step.Begin(p, {}), Step.Acquire(p)] + [Step.Compare(p)];
    Append(s3, [Step.Expire(b)], s4, f, s5);
    Append(s2, e, s3, [Step.Expire(b)] + f, s5);
    Append(s1, [Step.Sight(p, 0), Step.WriteBaseline(p)], s2, e + ([Step.Expire(b)] + f), s5);
    Append(s0, [Step.Sight(o, 0), Step.WriteBaseline(o)], s1, [Step.Sight(p, 0), Step.WriteBaseline(p)] + (e + ([Step.Expire(b)] + f)), s5);
    assert Initial(s0);
  }

  lemma CallbackStarts(s: System, o: Owner, b: Branch, c: Checkpoint) returns (s': System)
    requires Works(s, o) && o !in s.ops && o in s.authority && s.authority[o] == c && b !in s.leases && o !in s.lapsed
    requires s.Repo(o).branch == Some(b) && c.snapshot.tracked == s.Repo(o)
    ensures Run(s, [Step.Begin(o, {}), Step.Acquire(o)] + [Step.Compare(o)], s')
    ensures s' == s.(leases := s.leases[b := o], ops := s.ops[o := Mutating({b})])
  {
    hide Run, CompareSnapshots, After, Enabled;
    var s1 := s.Move(o, Reading({b}, c));
    BeginsOn(s, o, c);
    AcquiresOne(s1, o, b, c);
    var s2 := s1.(leases := s1.leases[b := o]).Move(o, Leased({b}, c));
    Two(s, Step.Begin(o, {}), Step.Acquire(o), s2);
    ComparesEqual(s2, o, {b}, c);
    s' := s2.Move(o, Mutating({b}));
    Single(s2, Step.Compare(o), s');
    Append(s, [Step.Begin(o, {}), Step.Acquire(o)], s2, [Step.Compare(o)], s');
  }

  lemma Single(s: System, step: Step, s': System)
    requires Enabled(s, step) && s' == After(s, step)
    ensures Run(s, [step], s')
  {
    assert [step][1..] == [] && Run(s', [], s');
  }

  lemma RunsOut(s: System, b: Branch)
    requires b in s.leases
    ensures Run(s, [Step.Expire(b)], s.Expire(b))
  {
    hide Run;
    Single(s, Step.Expire(b), s.Expire(b));
  }
}
