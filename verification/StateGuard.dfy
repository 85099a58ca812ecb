/**
 Snapshots of a repository, checkpoints that remember them, and the guard that lets a
 mutation run only on the state its owner last saw.
 */
module StateGuard {
  import opened Prelude

  type Owner = string
  type Branch = string

  datatype Value = Text(text: Option<string>) | Paths(paths: seq<string>) | Hashes(hashes: map<string, string>) | Flag(flag: bool)

  datatype Field =
    | BranchName | LocalHead | Upstream | DirtyPaths | StagedPaths | UntrackedPaths
    | ContentHashes | IndexStateHash | WorktreeStateHash | WorktreeStateComplete

  /** The part of a snapshot that `collect_state_snapshot` reads from the repository. */
  datatype Tracked = Tracked(
    branch: Option<Branch>,
    localHead: Option<string>,
    upstream: Option<string>,
    dirty: seq<string>,
    staged: seq<string>,
    untracked: seq<string>,
    hashes: map<string, string>,
    index: Option<string>,
    worktree: string,
    complete: bool)
  {
    function At(f: Field): Value {
      match f
      case BranchName => Text(branch)
      case LocalHead => Text(localHead)
      case Upstream => Text(upstream)
      case DirtyPaths => Paths(dirty)
      case StagedPaths => Paths(staged)
      case UntrackedPaths => Paths(untracked)
      case ContentHashes => Hashes(hashes)
      case IndexStateHash => Text(index)
      case WorktreeStateHash => Text(Some(worktree))
      case WorktreeStateComplete => Flag(complete)
    }
  }

  /** A snapshot also carries what no comparison looks at. */
  datatype Snapshot = Snapshot(tracked: Tracked, timestamp: nat, writer: Option<Owner>)

  const DRIFT_FIELDS: set<Field> :=
    {BranchName, LocalHead, Upstream, DirtyPaths, StagedPaths, UntrackedPaths,
     ContentHashes, IndexStateHash, WorktreeStateHash, WorktreeStateComplete}

  function CompareSnapshots(expected: Snapshot, actual: Snapshot): map<Field, (Value, Value)> {
    map f | f in DRIFT_FIELDS && expected.tracked.At(f) != actual.tracked.At(f) ::
      (expected.tracked.At(f), actual.tracked.At(f))
  }

  /** SHA-256 of the canonical form, which is taken to be injective. */
  datatype Digest = Sha256(canonical: map<Field, Value>)

  function Fingerprint(s: Snapshot): Digest {
    Sha256(map f | f in DRIFT_FIELDS :: s.tracked.At(f))
  }

  predicate FingerprintComplete(s: Snapshot) {
    s.tracked.index.Some? && s.tracked.index.value != "" && s.tracked.complete
  }

  /** No drift, equal fingerprints and equal repository states are the same thing. */
  lemma FingerprintsDecideDrift(a: Snapshot, b: Snapshot)
    ensures Fingerprint(a) == Fingerprint(b) <==> CompareSnapshots(a, b) == map[]
    ensures Fingerprint(a) == Fingerprint(b) <==> a.tracked == b.tracked
  {
    if CompareSnapshots(a, b) == map[] {
      forall f ensures a.tracked.At(f) == b.tracked.At(f) {
        AllFieldsTracked(f);
        assert f in CompareSnapshots(a, b) <==> a.tracked.At(f) != b.tracked.At(f);
      }
      AllFieldsEqual(a.tracked, b.tracked);
    }
    if Fingerprint(a) == Fingerprint(b) {
      forall f ensures a.tracked.At(f) == b.tracked.At(f) {
        AllFieldsTracked(f);
        assert Fingerprint(a).canonical[f] == Fingerprint(b).canonical[f];
      }
      AllFieldsEqual(a.tracked, b.tracked);
    }
  }

  lemma AllFieldsTracked(f: Field)
    ensures f in DRIFT_FIELDS
  {}

  lemma AllFieldsEqual(a: Tracked, b: Tracked)
    requires forall f :: a.At(f) == b.At(f)
    ensures a == b
  {
    assert a.At(BranchName) == b.At(BranchName) && a.At(LocalHead) == b.At(LocalHead) && a.At(Upstream) == b.At(Upstream);
    assert a.At(DirtyPaths) == b.At(DirtyPaths) && a.At(StagedPaths) == b.At(StagedPaths);
    assert a.At(UntrackedPaths) == b.At(UntrackedPaths) && a.At(ContentHashes) == b.At(ContentHashes);
    assert a.At(IndexStateHash) == b.At(IndexStateHash) && a.At(WorktreeStateHash) == b.At(WorktreeStateHash);
    assert a.At(WorktreeStateComplete) == b.At(WorktreeStateComplete);
  }

  datatype Checkpoint = Checkpoint(id: nat, snapshot: Snapshot)

  // ----- reconciliation -----

  /** What a caller presents to accept a drifted state; any part may be missing. */
  datatype Evidence = Evidence(checkpoint: Option<nat>, branch: Option<Branch>, head: Option<string>, fingerprint: Option<Digest>)
  {
    predicate Complete() {
      checkpoint.Some? && branch.Some? && head.Some? && fingerprint.Some?
    }
  }

  datatype Verdict =
    | NotNeeded
    | Reconcile
    | IdentityMismatch
    | BranchHeadMismatch
    | FingerprintMismatch
    | EvidenceMissing

  function Drifted(previous: Option<Checkpoint>, actual: Snapshot): bool {
    previous.Some? && CompareSnapshots(previous.value.snapshot, actual) != map[]
  }

  /** The decision of a `continuation_checkpoint` write, in the order the code takes it. */
  function Judge(previous: Option<Checkpoint>, branch: Branch, actual: Snapshot, e: Evidence): Verdict {
    if e.Complete() && Some(e.checkpoint.value) != (if previous.Some? then Some(previous.value.id) else None) then IdentityMismatch
    else if e.Complete() && (e.branch.value != branch || Some(e.head.value) != actual.tracked.localHead) then BranchHeadMismatch
    else if e.Complete() && e.fingerprint.value != Fingerprint(actual) then FingerprintMismatch
    else if Drifted(previous, actual) then (if e.Complete() then Reconcile else EvidenceMissing)
    else NotNeeded
  }

  /** Compare-and-swap: a drifted owner's authority advances exactly on full, current evidence. */
  lemma ReconcileIsCompareAndSwap(previous: Option<Checkpoint>, branch: Branch, actual: Snapshot, e: Evidence)
    ensures Judge(previous, branch, actual, e).Reconcile? <==>
            && previous.Some? && previous.value.snapshot.tracked != actual.tracked
            && e.checkpoint == Some(previous.value.id) && e.branch == Some(branch)
            && e.head.Some? && e.head == actual.tracked.localHead
            && e.fingerprint == Some(Fingerprint(actual))
  {
    if previous.Some? { FingerprintsDecideDrift(previous.value.snapshot, actual); }
  }

  /** Each other verdict's exact condition, in terms of what was presented and what is the case. */
  lemma EveryVerdict(previous: Option<Checkpoint>, branch: Branch, actual: Snapshot, e: Evidence)
    ensures var complete := e.checkpoint.Some? && e.branch.Some? && e.head.Some? && e.fingerprint.Some?;
            var known := previous.Some? && e.checkpoint == Some(previous.value.id);
            var here := e.branch == Some(branch) && e.head == actual.tracked.localHead;
            var same := e.fingerprint == Some(Fingerprint(actual));
            var moved := previous.Some? && previous.value.snapshot.tracked != actual.tracked;
            var verdict := Judge(previous, branch, actual, e);
            && (verdict.IdentityMismatch? <==> complete && !known)
            && (verdict.BranchHeadMismatch? <==> complete && known && !here)
            && (verdict.FingerprintMismatch? <==> complete && known && here && !same)
            && (verdict.EvidenceMissing? <==> moved && !complete)
            && (verdict.NotNeeded? <==> !moved && (!complete || (known && here && same)))
  {
    if previous.Some? { FingerprintsDecideDrift(previous.value.snapshot, actual); }
  }

  /** What a caller presents who has read checkpoint `id` and seen the repository as `seen`. */
  function EvidenceOf(id: nat, seen: Snapshot): Evidence {
    Evidence(Some(id), seen.tracked.branch, seen.tracked.localHead, Some(Fingerprint(seen)))
  }

  /** Complete evidence is refused exactly when the checkpoint or the repository has changed since it was read. */
  lemma StaleEvidenceIsRefused(previous: Option<Checkpoint>, actual: Snapshot, id: nat, seen: Snapshot)
    requires seen.tracked.branch.Some? && seen.tracked.localHead.Some? && actual.tracked.branch.Some?
    ensures var verdict := Judge(previous, actual.tracked.branch.value, actual, EvidenceOf(id, seen));
            var current := previous.Some? && previous.value.id == id && seen.tracked == actual.tracked;
            && (verdict.Reconcile? || verdict.NotNeeded? <==> current)
            && (verdict.Reconcile? <==> current && previous.value.snapshot.tracked != actual.tracked)
            && !verdict.EvidenceMissing?
  {
    EveryVerdict(previous, actual.tracked.branch.value, actual, EvidenceOf(id, seen));
    ReconcileIsCompareAndSwap(previous, actual.tracked.branch.value, actual, EvidenceOf(id, seen));
    FingerprintsDecideDrift(seen, actual);
  }

  // ----- the guard, one operation at a time -----

  datatype GuardOutcome =
    | NoBranch
    | LeaseConflict
    | StateDrift(fields: set<Field>)
    | CallbackRaised
    | Done

  const DEFAULT_WRITER_TTL_SECONDS := 900

  datatype Lease = Lease(owner: Owner, expires: int)

  /** Another owner's lease that has not run out. */
  predicate Blocks(leases: map<Branch, Lease>, b: Branch, owner: Owner, time: int) {
    b in leases && leases[b].expires > time && leases[b].owner != owner
  }

  /** The leases left when `owner` has taken `branches` over and given everything of its own back. */
  function Without(leases: map<Branch, Lease>, owner: Owner, branches: set<Branch>): map<Branch, Lease> {
    map b | b in leases && b !in branches && leases[b].owner != owner :: leases[b]
  }

  class Guard {
    /** The repository, with the outside world free to change it between calls. */
    var repo: Tracked
    var authority: map<Owner, Checkpoint>
    var leases: map<Branch, Lease>
    var now: nat

    function Observe(): Snapshot
      reads this
    {
      Snapshot(repo, now, None)
    }

    method WriteAuthority(owner: Owner, snapshot: Snapshot) returns (c: Checkpoint)
      modifies this`authority, this`now
      ensures c == Checkpoint(old(now), snapshot) && now == old(now) + 1
      ensures authority == old(authority)[owner := c]
    {
      c := Checkpoint(now, snapshot);
      now := now + 1;
      authority := authority[owner := c];
    }

    /** The record on file, or the state now; nothing can be recorded without a named branch. */
    method EnsureBaseline(owner: Owner) returns (r: Option<Checkpoint>)
      modifies this`authority, this`now
      ensures r == Get(authority, owner)
      ensures r.None? <==> owner !in old(authority) && repo.branch.None?
      ensures owner in old(authority) || r.None? ==> authority == old(authority) && now == old(now)
      ensures owner !in old(authority) && r.Some? ==>
                authority == old(authority)[owner := r.value] && r.value.snapshot.tracked == repo && now == old(now) + 1
    {
      if owner in authority { return Some(authority[owner]); }
      if repo.branch.None? { return None; }
      var c := WriteAuthority(owner, Observe());
      r := Some(c);
    }

    /** All branches or none; leases that have run out are taken over. */
    method AcquireLeases(owner: Owner, branches: set<Branch>, time: int) returns (ok: bool)
      modifies this`leases
      ensures ok <==> branches != {} && forall b :: b in branches ==> !Blocks(old(leases), b, owner, time)
      ensures ok <==>
              branches != {} && forall b :: b in branches && b in old(leases) ==> old(leases)[b].owner == owner || old(leases)[b].expires <= time
      ensures leases ==
              if ok then old(leases) + (map b | b in branches :: Lease(owner, time + DEFAULT_WRITER_TTL_SECONDS)) else old(leases)
    {
      ok := branches != {} && forall b :: b in branches ==> !Blocks(leases, b, owner, time);
      if ok {
        leases := leases + (map b | b in branches :: Lease(owner, time + DEFAULT_WRITER_TTL_SECONDS));
      }
    }

    method ReleaseOwnerLeases(owner: Owner)
      modifies this`leases
      ensures leases == map b | b in old(leases) && old(leases)[b].owner != owner :: old(leases)[b]
    {
      leases := map b | b in leases && leases[b].owner != owner :: leases[b];
    }

    /**
     `_guarded` with a callback that turns the repository into `effect` and may raise.  The
     callback runs only on the state the owner's checkpoint records, its result is
     checkpointed whether it raised or not, and no lease of the owner survives.
     */
    method Guarded(owner: Owner, extra: set<Branch>, effect: Tracked, raises: bool, time: int) returns (r: GuardOutcome)
      modifies this
      ensures r.NoBranch? <==> old(repo).branch.None?
      ensures r.NoBranch? ==> authority == old(authority) && leases == old(leases) && repo == old(repo)
      // The repository changes only through the callback, and the callback runs only on the recorded state.
      ensures repo == if r.Done? || r.CallbackRaised? then effect else old(repo)
      ensures (r.Done? || r.CallbackRaised?) && owner in old(authority) ==>
                old(authority)[owner].snapshot.tracked == old(repo)
      ensures r.Done? ==> !raises
      ensures r.CallbackRaised? ==> raises
      // Afterwards the checkpoint is the actual state, on success and on error.
      ensures r.Done? || r.CallbackRaised? ==>
                owner in authority && authority[owner].snapshot.tracked == repo && authority[owner].id >= old(now)
      ensures r.LeaseConflict? && owner in old(authority) ==> authority == old(authority)
      ensures r.LeaseConflict? && owner !in old(authority) ==> owner in authority && authority[owner].snapshot.tracked == repo
      ensures r.StateDrift? ==>
                && owner in old(authority) && authority == old(authority)
                && r.fields == (set f | f in DRIFT_FIELDS && old(authority)[owner].snapshot.tracked.At(f) != repo.At(f))
                && r.fields != {}
      ensures forall o :: o != owner ==> Get(authority, o) == Get(old(authority), o)
      // No lease of the owner outlives the operation; nobody else's is touched.
      ensures r.LeaseConflict? ==> leases == old(leases)
      ensures !r.LeaseConflict? && !r.NoBranch? ==>
                leases == Without(old(leases), owner, {old(repo).branch.value} + extra)
      ensures r.LeaseConflict? <==>
              old(repo).branch.Some? && exists b :: b in {old(repo).branch.value} + extra && Blocks(old(leases), b, owner, time)
    {
      if repo.branch.None? { return NoBranch; }
      var branches := {repo.branch.value} + extra;
      var record := EnsureBaseline(owner);
      var expected := record.value;
      var leased := AcquireLeases(owner, branches, time);
      if !leased { return LeaseConflict; }
      ghost var held := leases;
      var actual := Observe();
      var drift := CompareSnapshots(expected.snapshot, actual);
      FingerprintsDecideDrift(expected.snapshot, actual);
      if drift != map[] {
        ReleaseOwnerLeases(owner);
        LeasesGone(old(leases), branches, owner, time, held);
        DriftFields(expected.snapshot, actual);
        return StateDrift(drift.Keys);
      }
      repo := effect;
      var _ := WriteAuthority(owner, Observe());
      ReleaseOwnerLeases(owner);
      LeasesGone(old(leases), branches, owner, time, held);
      r := if raises then CallbackRaised else Done;
    }

    /** The reconciling write of `continuation_checkpoint`. */
    method ContinuationWrite(owner: Owner, e: Evidence, time: int) returns (v: Verdict, applied: bool)
      modifies this
      ensures repo == old(repo)
      ensures applied == v.Reconcile?
      ensures applied ==> owner in authority && authority[owner].snapshot.tracked == repo && authority[owner].id >= old(now)
      // Without a branch, with the branch leased to another, or at first sight there is nothing to reconcile.
      ensures repo.branch.None? || Blocks(old(leases), repo.branch.value, owner, time) ==> v.NotNeeded? && leases == old(leases)
      ensures owner !in old(authority) ==> !applied
      ensures repo.branch.None? ==> authority == old(authority)
      ensures repo.branch.Some? && owner !in old(authority) ==> owner in authority && authority[owner].snapshot.tracked == repo
      ensures repo.branch.Some? && !Blocks(old(leases), repo.branch.value, owner, time) ==>
                leases == Without(old(leases), owner, {repo.branch.value})
      // With a baseline on record and the branch not leased to another, the evidence alone decides.
      ensures repo.branch.Some? && owner in old(authority) && !Blocks(old(leases), repo.branch.value, owner, time) ==>
                v == Judge(Some(old(authority)[owner]), repo.branch.value, Snapshot(repo, old(now), None), e)
      ensures applied && owner in old(authority) ==>
                && old(authority)[owner].snapshot.tracked != repo
                && e.checkpoint == Some(old(authority)[owner].id) && e.fingerprint == Some(Fingerprint(Snapshot(repo, 0, None)))
      ensures !applied && owner in old(authority) ==> authority == old(authority)
      ensures forall o :: o != owner ==> Get(authority, o) == Get(old(authority), o)
    {
      v, applied := NotNeeded, false;
      if repo.branch.None? { return; }
      var record := EnsureBaseline(owner);
      var previous := record.value;
      var leased := AcquireLeases(owner, {repo.branch.value}, time);
      if !leased { return; }
      ghost var held := leases;
      var actual := Observe();
      v := Judge(Some(previous), repo.branch.value, actual, e);
      ReconcileIsCompareAndSwap(Some(previous), repo.branch.value, actual, e);
      if v.Reconcile? {
        var _ := WriteAuthority(owner, actual);
        applied := true;
      }
      ReleaseOwnerLeases(owner);
      LeasesGone(old(leases), {repo.branch.value}, owner, time, held);
    }
  }

  lemma LeasesGone(before: map<Branch, Lease>, branches: set<Branch>, owner: Owner, time: int, held: map<Branch, Lease>)
    requires held == before + (map b | b in branches :: Lease(owner, time + DEFAULT_WRITER_TTL_SECONDS))
    ensures (map b | b in held && held[b].owner != owner :: held[b]) == Without(before, owner, branches)
  {}

  lemma DriftFields(a: Snapshot, b: Snapshot)
    ensures CompareSnapshots(a, b).Keys == set f | f in DRIFT_FIELDS && a.tracked.At(f) != b.tracked.At(f)
    ensures CompareSnapshots(a, b) != map[] ==> CompareSnapshots(a, b).Keys != {}
  {}

  /** Drift names the fields that differ, each with what was expected and what is there. */
  lemma DriftNamesTheDifference(a: Snapshot, b: Snapshot)
    ensures var d, x, y := CompareSnapshots(a, b), a.tracked, b.tracked;
            && Get(d, BranchName) == (if x.branch == y.branch then None else Some((Text(x.branch), Text(y.branch))))
            && Get(d, LocalHead) == (if x.localHead == y.localHead then None else Some((Text(x.localHead), Text(y.localHead))))
            && Get(d, Upstream) == (if x.upstream == y.upstream then None else Some((Text(x.upstream), Text(y.upstream))))
            && Get(d, DirtyPaths) == (if x.dirty == y.dirty then None else Some((Paths(x.dirty), Paths(y.dirty))))
            && Get(d, StagedPaths) == (if x.staged == y.staged then None else Some((Paths(x.staged), Paths(y.staged))))
  {}

  lemma DriftNamesTheRest(a: Snapshot, b: Snapshot)
    ensures var d, x, y := CompareSnapshots(a, b), a.tracked, b.tracked;
            && Get(d, UntrackedPaths) == (if x.untracked == y.untracked then None else Some((Paths(x.untracked), Paths(y.untracked))))
            && Get(d, ContentHashes) == (if x.hashes == y.hashes then None else Some((Hashes(x.hashes), Hashes(y.hashes))))
            && Get(d, IndexStateHash) == (if x.index == y.index then None else Some((Text(x.index), Text(y.index))))
            && Get(d, WorktreeStateHash) == (if x.worktree == y.worktree then None else Some((Text(Some(x.worktree)), Text(Some(y.worktree)))))
            && Get(d, WorktreeStateComplete) == (if x.complete == y.complete then None else Some((Flag(x.complete), Flag(y.complete))))
  {}
}
