/**
 The transaction that installs a staged patch: temporaries are prepared, originals are
 renamed to backups, prepared files are renamed into place, and any failure on the way
 puts every original back.
 */
module AtomicPatch {
  import opened Prelude
  import opened FileSystems

  /** A staged path.  SHA-256 being injective, a matching baseline is an equal file. */
  datatype StagedFile = StagedFile(
    path: Path,
    content: Option<Bytes>,
    baseline: Option<File>,
    mode: Option<nat>)
  {
    /** What the path holds once the change is in. */
    function Wanted(): Option<File> {
      match content
      case None => None
      case Some(data) => Some(File(data, if mode.Some? then mode.value else 0x1A4))
    }
  }

  /** The committer's bookkeeping while a commit runs. */
  datatype Progress = Progress(prepared: map<Path, Path>, backups: map<Path, Path>, installed: set<Path>)

  datatype Outcome =
    | Committed
    | DuplicatePath
    | Reverted
    | RollbackFailed(errors: seq<Path>, recovery: map<Path, Path>)

  ghost predicate Distinct(changes: seq<StagedFile>) {
    forall i, j :: 0 <= i < j < |changes| ==> changes[i].path != changes[j].path
  }

  ghost predicate Target(changes: seq<StagedFile>, p: Path) {
    exists i :: 0 <= i < |changes| && changes[i].path == p
  }

  /** No name that `mkstemp` comes up with is a target. */
  ghost predicate NeverDrawn(fs: FileSystem, changes: seq<StagedFile>) {
    forall p :: fs.Draws(p) ==> !Target(changes, p)
  }

  /** A name of the committer's own. */
  ghost predicate Scratch(changes: seq<StagedFile>, p: Path) {
    Hidden(p) && !Target(changes, p)
  }

  ghost predicate BaselinesHold(changes: seq<StagedFile>, files: Files) {
    forall i :: 0 <= i < |changes| ==> changes[i].baseline == Get(files, changes[i].path)
  }

  ghost predicate AllInstalled(changes: seq<StagedFile>, files: Files) {
    forall i :: 0 <= i < |changes| ==> Get(files, changes[i].path) == changes[i].Wanted()
  }

  ghost predicate AllOriginal(changes: seq<StagedFile>, before: Files, files: Files) {
    forall i :: 0 <= i < |changes| ==> Get(files, changes[i].path) == Get(before, changes[i].path)
  }

  /** Files that are not targets keep their bytes; only hidden names come into being. */
  ghost predicate OthersUntouched(changes: seq<StagedFile>, before: Files, files: Files) {
    && (forall p :: p in before && !Target(changes, p) ==> p in files && files[p] == before[p])
    && (forall p :: p in files && p !in before && !Target(changes, p) ==> Hidden(p))
  }

  /** The original of change `c`, if it had one, sits at its path or at its recorded backup. */
  ghost predicate OriginalKept(c: StagedFile, before: Files, backups: map<Path, Path>, files: Files) {
    c.path in before ==>
      || Get(files, c.path) == Some(before[c.path])
      || (c.path in backups && Get(files, backups[c.path]) == Some(before[c.path]))
  }

  ghost predicate OriginalsKept(changes: seq<StagedFile>, before: Files, backups: map<Path, Path>, files: Files) {
    forall i :: 0 <= i < |changes| ==> OriginalKept(changes[i], before, backups, files)
  }

  /** `OriginalsKept` after each primitive from number `since` on. */
  ghost predicate KeptThroughout(
    changes: seq<StagedFile>, before: Files, backups: map<Path, Path>, history: seq<Files>, since: nat)
  {
    forall k :: since <= k < |history| ==> OriginalsKept(changes, before, backups, history[k])
  }

  ghost predicate InstalledThroughout(changes: seq<StagedFile>, history: seq<Files>, since: nat) {
    forall k :: since <= k < |history| ==> AllInstalled(changes, history[k])
  }

  // ----- invariant of a running commit -----

  /** Temporaries and backups have hidden, new and pairwise different names. */
  ghost predicate Names(changes: seq<StagedFile>, before: Files, t: Progress) {
    && (forall p :: p in t.prepared ==> Target(changes, p) && Scratch(changes, t.prepared[p]) && t.prepared[p] !in before)
    && (forall p :: p in t.backups ==> Target(changes, p) && Scratch(changes, t.backups[p]) && t.backups[p] !in before)
    && (forall p, q :: p in t.prepared && q in t.prepared && p != q ==> t.prepared[p] != t.prepared[q])
    && (forall p, q :: p in t.backups && q in t.backups && p != q ==> t.backups[p] != t.backups[q])
    && (forall p, q :: p in t.prepared && q in t.backups ==> t.prepared[p] != t.backups[q])
    && t.installed <= t.prepared.Keys
  }

  /** Where change `c` stands. */
  ghost predicate Stands(c: StagedFile, before: Files, t: Progress, files: Files) {
    && (c.path in t.backups ==>
          c.path in before && Get(files, t.backups[c.path]) == Some(before[c.path]))
    && (c.path in t.prepared && c.path !in t.installed ==>
          Get(files, t.prepared[c.path]) == c.Wanted())
    && (c.path in t.prepared ==> c.Wanted().Some?)
    && (c.path in t.installed && c.path in before ==> c.path in t.backups)
    && Get(files, c.path) ==
       (if c.path in t.installed then c.Wanted()
        else if c.path in t.backups then None
        else Get(before, c.path))
  }

  ghost predicate Running(changes: seq<StagedFile>, before: Files, t: Progress, files: Files) {
    && Names(changes, before, t)
    && OthersUntouched(changes, before, files)
    && (forall i :: 0 <= i < |changes| ==> Stands(changes[i], before, t, files))
  }

  /** No file of the committer's own exists but the temporaries, the backups, and what could not be unlinked. */
  ghost predicate NoLitter(changes: seq<StagedFile>, before: Files, t: Progress, files: Files, stuck: seq<Path>) {
    forall p :: p in files && p !in before && !Target(changes, p) ==>
                  p in t.prepared.Values || p in t.backups.Values || p in stuck
  }

  /** Failed unlinks are added to the log, and each is a fault. */
  ghost predicate Noted(failed0: seq<Path>, faults0: nat, failed: seq<Path>, faults: nat) {
    failed0 <= failed && faults0 + |failed| <= faults + |failed0|
  }

  lemma LogGrows(failed0: seq<Path>, failed: seq<Path>, mark: nat)
    requires failed0 <= failed && mark <= |failed0|
    ensures failed0[mark..] <= failed[mark..]
    ensures forall p :: p in failed[|failed0|..] ==> p in failed[mark..]
  {
    assert failed[mark..] == failed0[mark..] + failed[|failed0|..];
  }

  const NOTHING := Progress(map[], map[], {})

  // ----- the committer -----

  method AssertUniquePaths(changes: seq<StagedFile>) returns (ok: bool)
    ensures ok <==> Distinct(changes)
  {
    var seen: set<Path> := {};
    for i := 0 to |changes|
      invariant forall k :: 0 <= k < i ==> changes[k].path in seen
      invariant forall p :: p in seen ==> exists k :: 0 <= k < i && changes[k].path == p
      invariant forall j, k :: 0 <= j < k < i ==> changes[j].path != changes[k].path
    {
      if changes[i].path in seen { return false; }
      seen := seen + {changes[i].path};
    }
    return true;
  }

  method AssertBaseline(fs: FileSystem, c: StagedFile) returns (ok: bool)
    modifies fs
    ensures fs.files == old(fs.files) && fs.failed == old(fs.failed) && fs.history == old(fs.history) + [fs.files]
    ensures fs.faults >= old(fs.faults)
    ensures ok ==> c.baseline == Get(fs.files, c.path)
    ensures !ok && c.baseline == Get(fs.files, c.path) ==> fs.faults > old(fs.faults)
  {
    ok := fs.Touch();
    ok := ok && c.baseline == Get(fs.files, c.path);
  }

  /** `after` has every file of `files` as it was; whatever else it has is hidden. */
  ghost predicate HiddenGrowth(changes: seq<StagedFile>, files: Files, after: Files) {
    && (forall p :: p in files ==> p in after && after[p] == files[p])
    && (forall p :: p in after && p !in files ==> Scratch(changes, p))
  }

  ghost predicate GrowthThroughout(changes: seq<StagedFile>, files: Files, history: seq<Files>, since: nat) {
    forall k :: since <= k < |history| ==> HiddenGrowth(changes, files, history[k])
  }

  /** Writes the new content of `c` to a temporary in the target's directory. */
  method PrepareFile(fs: FileSystem, c: StagedFile, ghost changes: seq<StagedFile>) returns (r: Option<Path>)
    requires c.Wanted().Some? && NeverDrawn(fs, changes)
    modifies fs
    ensures r.Some? ==>
              && Scratch(changes, r.value) && r.value !in old(fs.files)
              && fs.files == old(fs.files)[r.value := c.Wanted().value] && fs.failed == old(fs.failed)
    ensures r.None? ==> fs.faults > old(fs.faults)
    ensures Noted(old(fs.failed), old(fs.faults), fs.failed, fs.faults)
    ensures r.None? ==> forall p :: p in fs.files && p !in old(fs.files) ==> p in fs.failed[|old(fs.failed)|..]
    ensures fs.faults >= old(fs.faults)
    ensures old(fs.history) < fs.history && HiddenGrowth(changes, old(fs.files), fs.files)
    ensures GrowthThroughout(changes, old(fs.files), fs.history, |old(fs.history)|)
  {
    var temp := fs.MakeTemp(PATCH_TEMP_PREFIX, c.path.dir);
    if temp.None? { return None; }
    var ok := fs.Fill(temp.value, c.Wanted().value);
    if ok { return temp; }
    ok := fs.Unlink(temp.value);
    return None;
  }

  /** A name for a backup: taken with `mkstemp`, then freed again. */
  method ReserveBackupPath(fs: FileSystem, dir: string, ghost changes: seq<StagedFile>) returns (r: Option<Path>)
    requires NeverDrawn(fs, changes)
    modifies fs
    ensures r.Some? ==> Scratch(changes, r.value) && r.value !in fs.files && fs.files == old(fs.files) && fs.failed == old(fs.failed)
    ensures r.None? ==> fs.faults > old(fs.faults)
    ensures Noted(old(fs.failed), old(fs.faults), fs.failed, fs.faults)
    ensures r.None? ==> forall p :: p in fs.files && p !in old(fs.files) ==> p in fs.failed[|old(fs.failed)|..]
    ensures fs.faults >= old(fs.faults)
    ensures old(fs.history) < fs.history && HiddenGrowth(changes, old(fs.files), fs.files)
    ensures GrowthThroughout(changes, old(fs.files), fs.history, |old(fs.history)|)
  {
    var temp := fs.MakeTemp(PATCH_BACKUP_PREFIX, dir);
    if temp.None? { return None; }
    var ok := fs.Unlink(temp.value);
    if !ok { return None; }
    assert fs.files == old(fs.files);
    return temp;
  }

  // ----- facts about the invariant -----

  lemma RunningSurvivesGrowth(changes: seq<StagedFile>, before: Files, t: Progress, files: Files, after: Files)
    requires Running(changes, before, t, files) && HiddenGrowth(changes, files, after)
    ensures Running(changes, before, t, after)
  {
    forall i | 0 <= i < |changes| ensures Stands(changes[i], before, t, after) {
      assert Stands(changes[i], before, t, files);
      assert Get(after, changes[i].path) == Get(files, changes[i].path);
    }
  }

  lemma RunningKeepsOriginals(changes: seq<StagedFile>, before: Files, t: Progress, files: Files)
    requires Running(changes, before, t, files)
    ensures OriginalsKept(changes, before, t.backups, files)
  {}

  lemma GrowthKeepsOriginals(
    changes: seq<StagedFile>, before: Files, backups: map<Path, Path>, files: Files, history: seq<Files>, since: nat)
    requires OriginalsKept(changes, before, backups, files)
    requires GrowthThroughout(changes, files, history, since)
    ensures KeptThroughout(changes, before, backups, history, since)
  {}

  /** Knowing more backups loses nothing. */
  lemma MoreBackups(
    changes: seq<StagedFile>, before: Files, backups: map<Path, Path>, p: Path, q: Path, history: seq<Files>, since: nat)
    requires KeptThroughout(changes, before, backups, history, since)
    requires p !in backups
    ensures KeptThroughout(changes, before, backups[p := q], history, since)
  {}

  /** A trail splits at any point. */
  lemma JoinTrails(
    changes: seq<StagedFile>, before: Files, backups: map<Path, Path>, early: seq<Files>, late: seq<Files>, since: nat)
    requires early <= late && since <= |early|
    requires KeptThroughout(changes, before, backups, early, since)
    requires KeptThroughout(changes, before, backups, late, |early|)
    ensures KeptThroughout(changes, before, backups, late, since)
  {}

  /** A name that is free now was never used by the transaction. */
  lemma FreeNameIsNew(changes: seq<StagedFile>, before: Files, t: Progress, files: Files, name: Path)
    requires Running(changes, before, t, files)
    requires forall p :: p in t.prepared ==> p !in t.installed
    requires Scratch(changes, name) && name !in files
    ensures name !in before
    ensures forall p :: p in t.prepared ==> t.prepared[p] != name
    ensures forall p :: p in t.backups ==> t.backups[p] != name
    ensures !Target(changes, name)
  {}

  lemma NamesWithTemp(changes: seq<StagedFile>, before: Files, t: Progress, i: nat, temp: Path)
    requires Names(changes, before, t) && i < |changes| && changes[i].path !in t.prepared
    requires Scratch(changes, temp) && temp !in before
    requires forall p :: p in t.prepared ==> t.prepared[p] != temp
    requires forall p :: p in t.backups ==> t.backups[p] != temp
    ensures Names(changes, before, t.(prepared := t.prepared[changes[i].path := temp]))
  {
    assert Target(changes, changes[i].path);
  }

  lemma NamesWithBackup(changes: seq<StagedFile>, before: Files, t: Progress, i: nat, backup: Path)
    requires Names(changes, before, t) && i < |changes| && changes[i].path !in t.backups
    requires Scratch(changes, backup) && backup !in before
    requires forall p :: p in t.prepared ==> t.prepared[p] != backup
    requires forall p :: p in t.backups ==> t.backups[p] != backup
    ensures Names(changes, before, t.(backups := t.backups[changes[i].path := backup]))
  {
    assert Target(changes, changes[i].path);
  }

  /** None of the three paths that matter to `c` is `name`. */
  ghost predicate Avoids(c: StagedFile, t: Progress, name: Path) {
    && c.path != name
    && (c.path in t.prepared ==> t.prepared[c.path] != name)
    && (c.path in t.backups ==> t.backups[c.path] != name)
  }

  /** A change stands where it stood when neither its records nor its three paths changed. */
  lemma StandsStill(c: StagedFile, before: Files, t: Progress, files: Files, t': Progress, files': Files, x: Path, y: Path)
    requires Stands(c, before, t, files)
    requires Get(t'.prepared, c.path) == Get(t.prepared, c.path)
    requires Get(t'.backups, c.path) == Get(t.backups, c.path)
    requires c.path in t'.installed <==> c.path in t.installed
    requires Avoids(c, t, x) && Avoids(c, t, y)
    requires forall p :: p != x && p != y ==> Get(files', p) == Get(files, p)
    ensures Stands(c, before, t', files')
  {}

  /** Changing targets and new hidden names leaves the other files untouched. */
  lemma OthersAfterMove(
    changes: seq<StagedFile>, before: Files, files: Files, targets: set<Path>, hidden: set<Path>, files': Files)
    requires OthersUntouched(changes, before, files)
    requires forall p :: p in targets ==> Target(changes, p)
    requires forall p :: p in hidden ==> Scratch(changes, p) && p !in before
    requires forall p :: p !in targets && p !in hidden ==> Get(files', p) == Get(files, p)
    ensures OthersUntouched(changes, before, files')
  {}

  lemma StandsPrepared(c: StagedFile, before: Files, t: Progress, files: Files, temp: Path)
    requires Stands(c, before, t, files) && c.path !in t.prepared && c.path !in t.installed && c.Wanted().Some?
    requires c.path != temp && (c.path in t.backups ==> t.backups[c.path] != temp)
    ensures Stands(c, before, t.(prepared := t.prepared[c.path := temp]), files[temp := c.Wanted().value])
  {}

  lemma StandsBackedUp(c: StagedFile, before: Files, t: Progress, files: Files, backup: Path)
    requires Stands(c, before, t, files) && c.path !in t.backups && c.path !in t.installed && c.path in files && c.path != backup
    requires c.path in t.prepared ==> t.prepared[c.path] != backup && t.prepared[c.path] != c.path
    ensures Stands(c, before, t.(backups := t.backups[c.path := backup]), files[backup := files[c.path]] - {c.path})
  {}

  lemma StandsInstalled(c: StagedFile, before: Files, t: Progress, files: Files)
    requires Stands(c, before, t, files) && c.path in t.prepared && c.path !in t.installed
    requires t.prepared[c.path] in files && t.prepared[c.path] != c.path
    requires c.path in before ==> c.path in t.backups
    requires c.path in t.backups ==> t.backups[c.path] != c.path && t.backups[c.path] != t.prepared[c.path]
    ensures Stands(c, before, t.(installed := t.installed + {c.path}), files[c.path := files[t.prepared[c.path]]] - {t.prepared[c.path]})
  {}

  /** The names of change `j` are none of those that backing up change `i` touches. */
  lemma BackupLeaves(changes: seq<StagedFile>, before: Files, t: Progress, i: nat, j: nat)
    requires Distinct(changes) && Names(changes, before, t) && i < |changes| && j < |changes|
    ensures j != i ==> changes[j].path != changes[i].path
    ensures changes[j].path in t.prepared ==> t.prepared[changes[j].path] != changes[i].path
    ensures changes[j].path in t.backups ==> t.backups[changes[j].path] != changes[i].path
  {}

  lemma InstallLeaves(changes: seq<StagedFile>, before: Files, t: Progress, i: nat, j: nat)
    requires Distinct(changes) && Names(changes, before, t) && i < |changes| && j < |changes|
    requires changes[i].path in t.prepared
    ensures var temp := t.prepared[changes[i].path];
            && Scratch(changes, temp) && temp !in before && changes[j].path != temp
            && (j != i ==> Avoids(changes[j], t, temp) && Avoids(changes[j], t, changes[i].path))
            && (changes[j].path in t.backups ==> t.backups[changes[j].path] != changes[j].path && t.backups[changes[j].path] != temp)
  {}

  lemma NamesInstalled(changes: seq<StagedFile>, before: Files, t: Progress, i: nat)
    requires Names(changes, before, t) && i < |changes| && changes[i].path in t.prepared
    ensures Names(changes, before, t.(installed := t.installed + {changes[i].path}))
  {}

  lemma StepPrepare(
    changes: seq<StagedFile>, before: Files, t: Progress, files: Files, i: nat, temp: Path, t': Progress, files': Files)
    requires Distinct(changes)
    requires Running(changes, before, t, files) && t.installed == {}
    requires i < |changes| && changes[i].path !in t.prepared
    requires changes[i].Wanted().Some? && Scratch(changes, temp) && temp !in files
    requires t' == t.(prepared := t.prepared[changes[i].path := temp])
    requires files' == files[temp := changes[i].Wanted().value]
    ensures Running(changes, before, t', files')
  {
    hide Stands, Names, OthersUntouched;
    FreeNameIsNew(changes, before, t, files, temp);
    forall j | 0 <= j < |changes| ensures Stands(changes[j], before, t', files') {
      assert Stands(changes[j], before, t, files) && changes[j].path != temp;
      if j != i {
        StandsStill(changes[j], before, t, files, t', files', temp, temp);
      } else {
        StandsPrepared(changes[i], before, t, files, temp);
      }
    }
    NamesWithTemp(changes, before, t, i, temp);
    OthersAfterMove(changes, before, files, {}, {temp}, files');
  }

  lemma StepBackup(
    changes: seq<StagedFile>, before: Files, t: Progress, files: Files, i: nat, backup: Path, t': Progress, files': Files)
    requires Distinct(changes)
    requires Running(changes, before, t, files) && t.installed == {}
    requires i < |changes| && changes[i].path !in t.backups && changes[i].path in files
    requires Scratch(changes, backup) && backup !in files
    requires t' == t.(backups := t.backups[changes[i].path := backup])
    requires files' == files[backup := files[changes[i].path]] - {changes[i].path}
    ensures Running(changes, before, t', files')
  {
    hide Stands, Names, OthersUntouched;
    FreeNameIsNew(changes, before, t, files, backup);
    forall j | 0 <= j < |changes| ensures Stands(changes[j], before, t', files') {
      assert Stands(changes[j], before, t, files) && changes[j].path != backup;
      if j != i {
        BackupLeaves(changes, before, t, i, j);
        StandsStill(changes[j], before, t, files, t', files', changes[i].path, backup);
      } else {
        BackupLeaves(changes, before, t, i, i);
        StandsBackedUp(changes[i], before, t, files, backup);
      }
    }
    NamesWithBackup(changes, before, t, i, backup);
    assert Target(changes, changes[i].path);
    OthersAfterMove(changes, before, files, {changes[i].path}, {backup}, files');
  }

  lemma StepInstall(
    changes: seq<StagedFile>, before: Files, t: Progress, files: Files, i: nat, t': Progress, files': Files)
    requires Distinct(changes)
    requires Running(changes, before, t, files)
    requires i < |changes| && changes[i].path in t.prepared && changes[i].path !in t.installed
    requires changes[i].path in before ==> changes[i].path in t.backups
    requires t' == t.(installed := t.installed + {changes[i].path})
    requires t.prepared[changes[i].path] in files
    requires files' == files[changes[i].path := files[t.prepared[changes[i].path]]] - {t.prepared[changes[i].path]}
    ensures Running(changes, before, t', files')
  {
    hide Stands, OthersUntouched, Names;
    var temp := t.prepared[changes[i].path];
    forall j | 0 <= j < |changes| ensures Stands(changes[j], before, t', files') {
      assert Stands(changes[j], before, t, files);
      InstallLeaves(changes, before, t, i, j);
      if j != i {
        StandsStill(changes[j], before, t, files, t', files', changes[i].path, temp);
      } else {
        StandsInstalled(changes[i], before, t, files);
      }
    }
    assert Target(changes, changes[i].path);
    NamesInstalled(changes, before, t, i);
    OthersAfterMove(changes, before, files, {changes[i].path}, {temp}, files');
  }

  // ----- the four phases of a commit -----

  lemma NothingRuns(changes: seq<StagedFile>, before: Files)
    ensures Running(changes, before, NOTHING, before)
  {}

  method PrepareAll(fs: FileSystem, changes: seq<StagedFile>) returns (ok: bool, t: Progress)
    requires Distinct(changes) && NeverDrawn(fs, changes)
    modifies fs
    ensures Running(changes, old(fs.files), t, fs.files) && t.backups == map[] && t.installed == {}
    ensures ok ==> forall i :: 0 <= i < |changes| ==> (changes[i].path in t.prepared <==> changes[i].content.Some?)
    ensures !ok ==> fs.faults > old(fs.faults)
    ensures fs.faults >= old(fs.faults) && old(fs.history) <= fs.history
    ensures KeptThroughout(changes, old(fs.files), map[], fs.history, |old(fs.history)|)
    ensures Noted(old(fs.failed), old(fs.faults), fs.failed, fs.faults)
    ensures NoLitter(changes, old(fs.files), t, fs.files, fs.failed[|old(fs.failed)|..])
  {
    hide OriginalsKept, Names, OthersUntouched, Running;
    ghost var before := fs.files;
    ghost var since := |fs.history|;
    t := NOTHING;
    NothingRuns(changes, before);
    for i := 0 to |changes|
      invariant Running(changes, before, t, fs.files) && t.backups == map[] && t.installed == {}
      invariant forall k :: 0 <= k < i ==> (changes[k].path in t.prepared <==> changes[k].content.Some?)
      invariant forall k :: i <= k < |changes| ==> changes[k].path !in t.prepared
      invariant fs.faults >= old(fs.faults) && old(fs.history) <= fs.history
      invariant KeptThroughout(changes, before, map[], fs.history, since)
      invariant Noted(old(fs.failed), old(fs.faults), fs.failed, fs.faults)
      invariant NoLitter(changes, before, t, fs.files, fs.failed[|old(fs.failed)|..])
    {
      RunningKeepsOriginals(changes, before, t, fs.files);
      ghost var h, files := fs.history, fs.files;
      ok := fs.Touch();
      assert GrowthThroughout(changes, files, fs.history, |h|);
      GrowthKeepsOriginals(changes, before, map[], files, fs.history, |h|);
      JoinTrails(changes, before, map[], h, fs.history, since);
      if !ok { return; }
      if changes[i].content.Some? {
        h, files := fs.history, fs.files;
        ghost var failed := fs.failed;
        var temp := PrepareFile(fs, changes[i], changes);
        LogGrows(failed, fs.failed, |old(fs.failed)|);
        GrowthKeepsOriginals(changes, before, map[], files, fs.history, |h|);
        JoinTrails(changes, before, map[], h, fs.history, since);
        if temp.None? {
          RunningSurvivesGrowth(changes, before, t, files, fs.files);
          return false, t;
        }
        ghost var t0 := t;
        t := t.(prepared := t.prepared[changes[i].path := temp.value]);
        StepPrepare(changes, before, t0, files, i, temp.value, t, fs.files);
        assert t.prepared[changes[i].path] in t.prepared.Values;
        forall p | p in t0.prepared ensures t0.prepared[p] in t.prepared.Values {
          assert t.prepared[p] == t0.prepared[p];
        }
      }
    }
    ok := true;
  }

  method CheckBaselines(fs: FileSystem, changes: seq<StagedFile>) returns (ok: bool)
    modifies fs
    ensures fs.files == old(fs.files) && fs.failed == old(fs.failed) && old(fs.history) <= fs.history && fs.faults >= old(fs.faults)
    ensures GrowthThroughout(changes, fs.files, fs.history, |old(fs.history)|)
    ensures ok ==> BaselinesHold(changes, fs.files)
    ensures !ok && BaselinesHold(changes, fs.files) ==> fs.faults > old(fs.faults)
  {
    for i := 0 to |changes|
      invariant fs.files == old(fs.files) && fs.failed == old(fs.failed) && old(fs.history) <= fs.history && fs.faults >= old(fs.faults)
      invariant GrowthThroughout(changes, fs.files, fs.history, |old(fs.history)|)
      invariant forall k :: 0 <= k < i ==> changes[k].baseline == Get(fs.files, changes[k].path)
    {
      ok := AssertBaseline(fs, changes[i]);
      if !ok { return; }
    }
    ok := true;
  }

  method BackUpAll(fs: FileSystem, changes: seq<StagedFile>, t0: Progress, ghost before: Files, ghost since: nat, ghost mark: nat)
    returns (ok: bool, t: Progress)
    requires mark <= |fs.failed| && NoLitter(changes, before, t0, fs.files, fs.failed[mark..])
    requires Distinct(changes) && NeverDrawn(fs, changes)
    requires Running(changes, before, t0, fs.files) && t0.backups == map[] && t0.installed == {}
    requires since <= |fs.history| && KeptThroughout(changes, before, t0.backups, fs.history, since)
    modifies fs
    ensures Running(changes, before, t, fs.files) && t.prepared == t0.prepared && t.installed == {}
    ensures ok ==> BaselinesHold(changes, before) &&
                   forall i :: 0 <= i < |changes| ==> (changes[i].path in t.backups <==> changes[i].path in before)
    ensures !ok && BaselinesHold(changes, before) ==> fs.faults > old(fs.faults)
    ensures fs.faults >= old(fs.faults) && old(fs.history) <= fs.history
    ensures KeptThroughout(changes, before, t.backups, fs.history, since)
    ensures Noted(old(fs.failed), old(fs.faults), fs.failed, fs.faults) && NoLitter(changes, before, t, fs.files, fs.failed[mark..])
  {
    hide Names, OthersUntouched, KeptThroughout, NoLitter;
    t := t0;
    for i := 0 to |changes|
      invariant Running(changes, before, t, fs.files) && t.prepared == t0.prepared && t.installed == {}
      invariant forall k :: 0 <= k < i ==> changes[k].baseline == Get(before, changes[k].path)
      invariant forall k :: 0 <= k < i ==> (changes[k].path in t.backups <==> changes[k].path in before)
      invariant forall k :: i <= k < |changes| ==> changes[k].path !in t.backups
      invariant fs.faults >= old(fs.faults) && old(fs.history) <= fs.history
      invariant KeptThroughout(changes, before, t.backups, fs.history, since)
      invariant Noted(old(fs.failed), old(fs.faults), fs.failed, fs.faults) && NoLitter(changes, before, t, fs.files, fs.failed[mark..])
    {
      assert Stands(changes[i], before, t, fs.files);
      ok, t := BackUpOne(fs, changes, i, t, before, since, mark);
      if !ok { return; }
    }
    ok := true;
  }

  method BackUpOne(
    fs: FileSystem, changes: seq<StagedFile>, i: nat, t0: Progress, ghost before: Files, ghost since: nat, ghost mark: nat)
    returns (ok: bool, t: Progress)
    requires mark <= |fs.failed| && NoLitter(changes, before, t0, fs.files, fs.failed[mark..])
    requires Distinct(changes) && NeverDrawn(fs, changes) && i < |changes|
    requires Running(changes, before, t0, fs.files) && t0.installed == {} && changes[i].path !in t0.backups
    requires since <= |fs.history| && KeptThroughout(changes, before, t0.backups, fs.history, since)
    modifies fs
    ensures Running(changes, before, t, fs.files) && t.prepared == t0.prepared && t.installed == {}
    ensures forall p :: p != changes[i].path ==> (p in t.backups <==> p in t0.backups)
    ensures ok ==> changes[i].baseline == Get(before, changes[i].path) &&
                   (changes[i].path in t.backups <==> changes[i].path in before)
    ensures !ok ==> t == t0 && (changes[i].baseline == Get(before, changes[i].path) ==> fs.faults > old(fs.faults))
    ensures fs.faults >= old(fs.faults) && old(fs.history) <= fs.history
    ensures KeptThroughout(changes, before, t.backups, fs.history, since)
    ensures Noted(old(fs.failed), old(fs.faults), fs.failed, fs.faults) && NoLitter(changes, before, t, fs.files, fs.failed[mark..])
  {
    hide OriginalsKept, Names, OthersUntouched, Distinct;
    t := t0;
    assert Stands(changes[i], before, t, fs.files);
    RunningKeepsOriginals(changes, before, t, fs.files);
    ghost var h, files := fs.history, fs.files;
    ok := AssertBaseline(fs, changes[i]);
    if ok && changes[i].path in fs.files {
      var backup := ReserveBackupPath(fs, changes[i].path.dir, changes);
      LogGrows(old(fs.failed), fs.failed, mark);
      GrowthKeepsOriginals(changes, before, t.backups, files, fs.history, |h|);
      JoinTrails(changes, before, t.backups, h, fs.history, since);
      RunningSurvivesGrowth(changes, before, t, files, fs.files);
      if backup.None? { return false, t; }
      h, files := fs.history, fs.files;
      ok := fs.Replace(changes[i].path, backup.value);
      if ok {
        t := t.(backups := t.backups[changes[i].path := backup.value]);
        StepBackup(changes, before, t0, files, i, backup.value, t, fs.files);
        MoreBackups(changes, before, t0.backups, changes[i].path, backup.value, h, since);
        ValuesGrow(t0.backups, changes[i].path, backup.value);
      }
      RunningKeepsOriginals(changes, before, t, fs.files);
      JoinTrails(changes, before, t.backups, h, fs.history, since);
    } else {
      GrowthKeepsOriginals(changes, before, t.backups, files, fs.history, |h|);
      JoinTrails(changes, before, t.backups, h, fs.history, since);
    }
  }

  lemma ValuesGrow(m: map<Path, Path>, p: Path, q: Path)
    requires p !in m
    ensures m[p := q].Values == m.Values + {q}
  {
    var m' := m[p := q];
    assert m'[p] == q;
    forall v | v in m.Values ensures v in m'.Values {
      var k :| k in m && m[k] == v;
      assert m'[k] == v;
    }
  }

  method InstallOne(
    fs: FileSystem, changes: seq<StagedFile>, i: nat, t0: Progress, ghost before: Files, ghost since: nat, ghost mark: nat)
    returns (ok: bool, t: Progress)
    requires mark <= |fs.failed| && NoLitter(changes, before, t0, fs.files, fs.failed[mark..])
    requires Distinct(changes) && NeverDrawn(fs, changes) && i < |changes|
    requires Running(changes, before, t0, fs.files) && changes[i].path !in t0.installed && changes[i].path in t0.prepared
    requires changes[i].path in t0.backups <==> changes[i].path in before
    requires since <= |fs.history| && KeptThroughout(changes, before, t0.backups, fs.history, since)
    modifies fs
    ensures Running(changes, before, t, fs.files)
    ensures t == if ok then t0.(installed := t0.installed + {changes[i].path}) else t0
    ensures !ok && changes[i].baseline == Get(before, changes[i].path) ==> fs.faults > old(fs.faults)
    ensures fs.faults >= old(fs.faults) && old(fs.history) <= fs.history
    ensures KeptThroughout(changes, before, t.backups, fs.history, since)
    ensures fs.failed == old(fs.failed) && NoLitter(changes, before, t, fs.files, fs.failed[mark..])
  {
    hide OriginalsKept, Names, OthersUntouched, Distinct;
    t := t0;
    assert Stands(changes[i], before, t, fs.files);
    InstallLeaves(changes, before, t, i, i);
    RunningKeepsOriginals(changes, before, t, fs.files);
    ghost var h, files := fs.history, fs.files;
    ok := true;
    if changes[i].path !in t.backups {
      ok := AssertBaseline(fs, changes[i]);
    }
    if ok {
      ok := fs.Replace(t.prepared[changes[i].path], changes[i].path);
      if ok {
        t := t.(installed := t.installed + {changes[i].path});
        StepInstall(changes, before, t0, files, i, t, fs.files);
        assert Target(changes, changes[i].path);
      }
    }
    RunningKeepsOriginals(changes, before, t, fs.files);
    JoinTrails(changes, before, t.backups, h, fs.history, since);
  }

  method InstallAll(fs: FileSystem, changes: seq<StagedFile>, t0: Progress, ghost before: Files, ghost since: nat, ghost mark: nat)
    returns (ok: bool, t: Progress)
    requires mark <= |fs.failed| && NoLitter(changes, before, t0, fs.files, fs.failed[mark..])
    requires Distinct(changes) && NeverDrawn(fs, changes)
    requires Running(changes, before, t0, fs.files) && t0.installed == {}
    requires forall i :: 0 <= i < |changes| ==> (changes[i].path in t0.backups <==> changes[i].path in before)
    requires forall i :: 0 <= i < |changes| ==> (changes[i].path in t0.prepared <==> changes[i].content.Some?)
    requires since <= |fs.history| && KeptThroughout(changes, before, t0.backups, fs.history, since)
    modifies fs
    ensures Running(changes, before, t, fs.files) && t.prepared == t0.prepared && t.backups == t0.backups
    ensures ok ==> AllInstalled(changes, fs.files)
    ensures !ok && BaselinesHold(changes, before) ==> fs.faults > old(fs.faults)
    ensures fs.faults >= old(fs.faults) && old(fs.history) <= fs.history
    ensures KeptThroughout(changes, before, t.backups, fs.history, since)
    ensures fs.failed == old(fs.failed) && NoLitter(changes, before, t, fs.files, fs.failed[mark..])
  {
    hide Names, OthersUntouched, KeptThroughout, NoLitter;
    t := t0;
    for i := 0 to |changes|
      invariant Running(changes, before, t, fs.files) && t.prepared == t0.prepared && t.backups == t0.backups
      invariant forall k :: 0 <= k < i ==> (changes[k].path in t.installed <==> changes[k].content.Some?)
      invariant forall k :: i <= k < |changes| ==> changes[k].path !in t.installed
      invariant fs.faults >= old(fs.faults) && old(fs.history) <= fs.history
      invariant KeptThroughout(changes, before, t.backups, fs.history, since)
      invariant fs.failed == old(fs.failed) && NoLitter(changes, before, t, fs.files, fs.failed[mark..])
    {
      if changes[i].path in t.prepared {
        ok, t := InstallOne(fs, changes, i, t, before, since, mark);
        if !ok { return; }
      }
    }
    ok := true;
    forall k | 0 <= k < |changes| ensures Get(fs.files, changes[k].path) == changes[k].Wanted() {
      assert Stands(changes[k], before, t, fs.files);
    }
  }

  // ----- rollback -----

  /** Change `c` is as it was, or an error was noted and its original is still in its backup. */
  ghost predicate Settled(c: StagedFile, before: Files, t: Progress, files: Files, errors: seq<Path>) {
    && (|| Get(files, c.path) == Get(before, c.path)
        || (c.path in errors && (c.path in before ==>
                                   c.path in t.backups && Get(files, t.backups[c.path]) == Some(before[c.path]))))
    && (c.path in t.backups && t.backups[c.path] in files ==> Get(before, c.path) == Some(files[t.backups[c.path]]))
  }

  /** Changes from `i` on are settled; the earlier ones still stand. */
  ghost predicate Reverting(
    changes: seq<StagedFile>, before: Files, t: Progress, files: Files, i: nat, errors: seq<Path>)
  {
    && Names(changes, before, t)
    && OthersUntouched(changes, before, files)
    && (forall k :: 0 <= k < i && k < |changes| ==> Stands(changes[k], before, t, files))
    && (forall k :: i <= k < |changes| ==> Settled(changes[k], before, t, files, errors))
  }

  lemma RevertingKeepsOriginals(
    changes: seq<StagedFile>, before: Files, t: Progress, files: Files, i: nat, errors: seq<Path>)
    requires Reverting(changes, before, t, files, i, errors)
    ensures OriginalsKept(changes, before, t.backups, files)
  {}

  /** Moving the paths of change `i` around, and settling it, moves the frontier down by one. */
  lemma RevertLeaves(changes: seq<StagedFile>, before: Files, t: Progress, i: nat, k: nat)
    requires Distinct(changes) && Names(changes, before, t) && i < |changes| && k < |changes| && k != i
    ensures var x := changes[i].path;
            Avoids(changes[k], t, x) && Avoids(changes[k], t, if x in t.backups then t.backups[x] else x)
  {
    hide Scratch;
    BackupLeaves(changes, before, t, i, k);
    assert Target(changes, changes[k].path);
    ScratchAvoids(changes, before, t, i, k);
  }

  lemma ScratchAvoids(changes: seq<StagedFile>, before: Files, t: Progress, i: nat, k: nat)
    requires Names(changes, before, t) && i < |changes| && k < |changes|
    ensures changes[i].path in t.backups ==> t.backups[changes[i].path] != changes[k].path
  {}

  lemma BackupIsScratch(changes: seq<StagedFile>, before: Files, t: Progress, x: Path)
    requires Names(changes, before, t)
    ensures x in t.backups ==> Scratch(changes, t.backups[x]) && t.backups[x] !in before
  {}

  lemma SettledStill(
    c: StagedFile, before: Files, t: Progress, files: Files, errors: seq<Path>, files': Files, errors': seq<Path>, x: Path, y: Path)
    requires Settled(c, before, t, files, errors) && errors <= errors' && Avoids(c, t, x) && Avoids(c, t, y)
    requires forall p :: p != x && p != y ==> Get(files', p) == Get(files, p)
    ensures Settled(c, before, t, files', errors')
  {
    assert Get(files', c.path) == Get(files, c.path);
    if c.path in t.backups { assert Get(files', t.backups[c.path]) == Get(files, t.backups[c.path]); }
  }

  lemma StepRevert(
    changes: seq<StagedFile>, before: Files, t: Progress, files: Files, i: nat, errors: seq<Path>,
    files': Files, errors': seq<Path>)
    requires Distinct(changes) && i < |changes|
    requires Reverting(changes, before, t, files, i + 1, errors)
    requires errors <= errors'
    requires var x := changes[i].path;
             var y := if x in t.backups then t.backups[x] else x;
             forall p :: p != x && p != y ==> Get(files', p) == Get(files, p)
    requires Settled(changes[i], before, t, files', errors')
    ensures Reverting(changes, before, t, files', i, errors')
  {
    hide Stands, Settled, OthersUntouched;
    var x := changes[i].path;
    var y := if x in t.backups then t.backups[x] else x;
    forall k | 0 <= k < |changes| && k != i ensures Avoids(changes[k], t, x) && Avoids(changes[k], t, y) {
      RevertLeaves(changes, before, t, i, k);
    }
    hide Names;
    forall k | 0 <= k < i ensures Stands(changes[k], before, t, files') {
      StandsStill(changes[k], before, t, files, t, files', x, y);
    }
    forall k | i <= k < |changes| ensures Settled(changes[k], before, t, files', errors') {
      if k != i {
        assert Settled(changes[k], before, t, files, errors);
        SettledStill(changes[k], before, t, files, errors, files', errors', x, y);
      }
    }
    assert Target(changes, x);
    BackupIsScratch(changes, before, t, x);
    OthersAfterMove(changes, before, files, {x}, if x in t.backups then {y} else {}, files');
  }

  lemma NamesAvoidTargets(changes: seq<StagedFile>, before: Files, t: Progress, i: nat)
    requires Names(changes, before, t) && i < |changes|
    ensures forall p :: p in t.prepared ==> t.prepared[p] != changes[i].path
    ensures forall p :: p in t.backups ==> t.backups[p] != changes[i].path
  {}

  lemma UnlinkKeepsOriginals(
    changes: seq<StagedFile>, before: Files, t: Progress, files: Files, i: nat, errors: seq<Path>, files': Files)
    requires Distinct(changes) && i < |changes|
    requires Reverting(changes, before, t, files, i + 1, errors) && changes[i].path in t.installed
    requires files' == files || files' == files - {changes[i].path}
    ensures OriginalsKept(changes, before, t.backups, files')
  {
    RevertingKeepsOriginals(changes, before, t, files, i + 1, errors);
    NamesAvoidTargets(changes, before, t, i);
    assert Stands(changes[i], before, t, files);
    hide Names, OthersUntouched, Reverting, Hidden, Settled, OriginalKept;
    forall k | 0 <= k < |changes| ensures OriginalKept(changes[k], before, t.backups, files') {
      assert OriginalKept(changes[k], before, t.backups, files);
      UnlinkKeeps(changes[k], before, t.backups, files, changes[i].path, files');
    }
  }

  lemma UnlinkKeeps(c: StagedFile, before: Files, backups: map<Path, Path>, files: Files, p: Path, files': Files)
    requires OriginalKept(c, before, backups, files) && (files' == files || files' == files - {p})
    requires c.path in backups ==> backups[c.path] != p
    requires c.path == p && p in before ==> p in backups && Get(files, backups[p]) == Some(before[p])
    ensures OriginalKept(c, before, backups, files')
  {}

  lemma TrailGrows(
    changes: seq<StagedFile>, before: Files, backups: map<Path, Path>, early: seq<Files>, late: seq<Files>, since: nat)
    requires since <= |early| && KeptThroughout(changes, before, backups, early, since)
    requires late == early || (|late| == |early| + 1 && early <= late && OriginalsKept(changes, before, backups, late[|early|]))
    ensures KeptThroughout(changes, before, backups, late, since)
  {}

  lemma LitterFree(changes: seq<StagedFile>, before: Files, t: Progress, i: nat, files: Files, files': Files, stuck: seq<Path>, stuck': seq<Path>)
    requires i < |changes| && NoLitter(changes, before, t, files, stuck) && stuck <= stuck'
    requires forall p :: p in files' ==> p in files || p == changes[i].path
    ensures NoLitter(changes, before, t, files', stuck')
  {}

  method RollBackOne(
    fs: FileSystem, changes: seq<StagedFile>, i: nat, t: Progress, errors0: seq<Path>, ghost before: Files,
    ghost since: nat, ghost mark: nat)
    returns (errors: seq<Path>)
    requires mark <= |fs.failed| && NoLitter(changes, before, t, fs.files, fs.failed[mark..])
    requires Distinct(changes) && NeverDrawn(fs, changes) && i < |changes|
    requires Reverting(changes, before, t, fs.files, i + 1, errors0)
    requires since <= |fs.history| && KeptThroughout(changes, before, t.backups, fs.history, since)
    modifies fs
    ensures Reverting(changes, before, t, fs.files, i, errors)
    ensures errors0 <= errors && fs.faults >= old(fs.faults) + (|errors| - |errors0|) && old(fs.history) <= fs.history
    ensures KeptThroughout(changes, before, t.backups, fs.history, since)
    ensures Noted(old(fs.failed), old(fs.faults), fs.failed, fs.faults) && NoLitter(changes, before, t, fs.files, fs.failed[mark..])
  {
    hide Names, OthersUntouched, OriginalsKept, KeptThroughout, NoLitter;
    var path := changes[i].path;
    ghost var files, h := fs.files, fs.history;
    assert Stands(changes[i], before, t, fs.files);
    NamesAvoidTargets(changes, before, t, i);
    errors := errors0;
    var ok := true;
    if path in t.installed && path in fs.files {
      ok := fs.Unlink(path);
      UnlinkKeepsOriginals(changes, before, t, files, i, errors0, fs.files);
      TrailGrows(changes, before, t.backups, h, fs.history, since);
    }
    if ok && path in t.backups {
      var backup := t.backups[path];
      if backup !in fs.files {
        ok := false;
      } else {
        h := fs.history;
        ok := fs.Replace(backup, path);
      }
    }
    if !ok { errors := errors + [path]; }
    StepRevert(changes, before, t, files, i, errors0, fs.files, errors);
    RevertingKeepsOriginals(changes, before, t, fs.files, i, errors);
    TrailGrows(changes, before, t.backups, h, fs.history, since);
    LogGrows(old(fs.failed), fs.failed, mark);
    LitterFree(changes, before, t, i, files, fs.files, old(fs.failed)[mark..], fs.failed[mark..]);
  }

  /** Unlinks the recorded names of all changes; failures are noted. */
  method Drop(fs: FileSystem, changes: seq<StagedFile>, names: map<Path, Path>) returns (errors: seq<Path>)
    modifies fs
    ensures forall p :: p !in names.Values ==> Get(fs.files, p) == Get(old(fs.files), p)
    ensures forall p :: p in fs.files ==> p in old(fs.files)
    ensures fs.faults >= old(fs.faults) + |errors| && old(fs.history) <= fs.history
    ensures Noted(old(fs.failed), old(fs.faults), fs.failed, fs.faults)
    ensures forall i :: 0 <= i < |changes| && changes[i].path in names && names[changes[i].path] in fs.files ==>
                          names[changes[i].path] in fs.failed[|old(fs.failed)|..]
    ensures forall k, p :: |old(fs.history)| <= k < |fs.history| && p !in names.Values ==>
                             Get(fs.history[k], p) == Get(old(fs.files), p)
  {
    errors := [];
    for i := 0 to |changes|
      invariant forall p :: p !in names.Values ==> Get(fs.files, p) == Get(old(fs.files), p)
      invariant forall p :: p in fs.files ==> p in old(fs.files)
      invariant fs.faults >= old(fs.faults) + |errors| && old(fs.history) <= fs.history
      invariant Noted(old(fs.failed), old(fs.faults), fs.failed, fs.faults)
      invariant forall k :: 0 <= k < i && changes[k].path in names && names[changes[k].path] in fs.files ==>
                              names[changes[k].path] in fs.failed[|old(fs.failed)|..]
      invariant forall k, p :: |old(fs.history)| <= k < |fs.history| && p !in names.Values ==>
                                 Get(fs.history[k], p) == Get(old(fs.files), p)
    {
      if changes[i].path in names {
        var name := names[changes[i].path];
        assert name in names.Values;
        ghost var failed := fs.failed;
        var ok := fs.Unlink(name);
        LogGrows(failed, fs.failed, |old(fs.failed)|);
        if !ok { errors := errors + [name]; }
      }
    }
  }

  /** `_rollback`: newest change first, then the temporaries. */
  method RollBack(fs: FileSystem, changes: seq<StagedFile>, t: Progress, ghost before: Files, ghost since: nat, ghost mark: nat)
    returns (errors: seq<Path>)
    requires mark <= |fs.failed| && NoLitter(changes, before, t, fs.files, fs.failed[mark..])
    requires Distinct(changes) && NeverDrawn(fs, changes)
    requires Running(changes, before, t, fs.files)
    requires since <= |fs.history| && KeptThroughout(changes, before, t.backups, fs.history, since)
    modifies fs
    ensures Reverting(changes, before, t, fs.files, 0, errors)
    ensures fs.faults >= old(fs.faults) + |errors| && old(fs.history) <= fs.history
    ensures KeptThroughout(changes, before, t.backups, fs.history, since)
    ensures Noted(old(fs.failed), old(fs.faults), fs.failed, fs.faults) && NoLitter(changes, before, t, fs.files, fs.failed[mark..])
  {
    hide Names, OthersUntouched, OriginalsKept, KeptThroughout, NoLitter, Stands, Settled;
    errors := [];
    for i := |changes| downto 0
      invariant Reverting(changes, before, t, fs.files, i, errors)
      invariant fs.faults >= old(fs.faults) + |errors| && old(fs.history) <= fs.history
      invariant KeptThroughout(changes, before, t.backups, fs.history, since)
      invariant Noted(old(fs.failed), old(fs.faults), fs.failed, fs.faults) && NoLitter(changes, before, t, fs.files, fs.failed[mark..])
    {
      errors := RollBackOne(fs, changes, i, t, errors, before, since, mark);
    }
    ghost var h, files, errors0, failed := fs.history, fs.files, errors, fs.failed;
    var more := Drop(fs, changes, t.prepared);
    errors := errors + more;
    SettledSurvivesDrop(changes, before, t, files, errors0, fs.files, errors);
    TrailSurvivesDrop(changes, before, t, files, errors0, h, fs.history, since);
    LogGrows(failed, fs.failed, mark);
    NoLitterShrinks(changes, before, t, files, fs.files, failed[mark..], fs.failed[mark..]);
  }

  lemma NoLitterShrinks(changes: seq<StagedFile>, before: Files, t: Progress, files: Files, files': Files, stuck: seq<Path>, stuck': seq<Path>)
    requires NoLitter(changes, before, t, files, stuck) && stuck <= stuck'
    requires forall p :: p in files' ==> p in files
    ensures NoLitter(changes, before, t, files', stuck')
  {}

  lemma SettledSurvivesDrop(
    changes: seq<StagedFile>, before: Files, t: Progress, files: Files, errors: seq<Path>, files': Files, errors': seq<Path>)
    requires Reverting(changes, before, t, files, 0, errors) && errors <= errors'
    requires forall p :: p !in t.prepared.Values ==> Get(files', p) == Get(files, p)
    ensures Reverting(changes, before, t, files', 0, errors')
  {
    forall k | 0 <= k < |changes| ensures Settled(changes[k], before, t, files', errors') {
      assert Settled(changes[k], before, t, files, errors);
      NamesAvoidTargets(changes, before, t, k);
      assert Get(files', changes[k].path) == Get(files, changes[k].path);
      if changes[k].path in t.backups {
        assert Get(files', t.backups[changes[k].path]) == Get(files, t.backups[changes[k].path]);
      }
    }
    assert forall p :: p in t.prepared.Values ==> Scratch(changes, p) && p !in before;
    OthersAfterMove(changes, before, files, {}, t.prepared.Values, files');
  }

  lemma TrailSurvivesDrop(
    changes: seq<StagedFile>, before: Files, t: Progress, files: Files, errors: seq<Path>,
    early: seq<Files>, late: seq<Files>, since: nat)
    requires Reverting(changes, before, t, files, 0, errors)
    requires early <= late && since <= |early| && KeptThroughout(changes, before, t.backups, early, since)
    requires forall k, p :: |early| <= k < |late| && p !in t.prepared.Values ==> Get(late[k], p) == Get(files, p)
    ensures KeptThroughout(changes, before, t.backups, late, since)
  {}

  // ----- commit -----

  /** Every target that does not hold its original has it in the backup named by `recovery`. */
  ghost predicate Recoverable(changes: seq<StagedFile>, before: Files, recovery: map<Path, Path>, files: Files) {
    forall i :: 0 <= i < |changes| && changes[i].path in before &&
                Get(files, changes[i].path) != Some(before[changes[i].path]) ==>
                  changes[i].path in recovery &&
                  Get(files, recovery[changes[i].path]) == Some(before[changes[i].path])
  }

  /** Every target not named in the errors is back, and every backup named holds an original. */
  ghost predicate RolledBackElsewhere(changes: seq<StagedFile>, before: Files, r: Outcome, files: Files)
    requires r.RollbackFailed?
  {
    && (forall i :: 0 <= i < |changes| ==>
                      changes[i].path in r.errors || Get(files, changes[i].path) == Get(before, changes[i].path))
    && (forall p :: p in r.recovery ==> p in before && Get(files, r.recovery[p]) == Some(before[p]))
  }

  /** The targets hold what was staged and nothing else differs from `before`. */
  ghost predicate ExactlyPatched(changes: seq<StagedFile>, before: Files, files: Files) {
    && AllInstalled(changes, files)
    && forall p :: !Target(changes, p) ==> Get(files, p) == Get(before, p)
  }

  /** Of the temporaries, and of the backups unless they are preserved, only those are left that could not be unlinked. */
  ghost predicate CleanedUp(changes: seq<StagedFile>, t: Progress, preserveBackups: bool, files: Files, stuck: seq<Path>) {
    forall i :: 0 <= i < |changes| ==>
                  var p := changes[i].path;
                  && (p in t.prepared && t.prepared[p] in files ==> t.prepared[p] in stuck)
                  && (!preserveBackups && p in t.backups && t.backups[p] in files ==> t.backups[p] in stuck)
  }

  /** Whatever files of the committer's own are left could not be unlinked, or are backups named for recovery. */
  ghost predicate LeftBehind(changes: seq<StagedFile>, before: Files, files: Files, stuck: seq<Path>, recovery: map<Path, Path>) {
    forall p :: p in files && p !in before && !Target(changes, p) ==> p in stuck || p in recovery.Values
  }

  /** The `finally` block: temporaries go, and backups unless they are needed for recovery. */
  method CleanUp(fs: FileSystem, changes: seq<StagedFile>, t: Progress, preserveBackups: bool)
    modifies fs
    ensures forall p :: p !in t.prepared.Values && (preserveBackups || p !in t.backups.Values) ==>
                          Get(fs.files, p) == Get(old(fs.files), p)
    ensures forall p :: p in fs.files ==> p in old(fs.files)
    ensures fs.faults >= old(fs.faults) && old(fs.history) <= fs.history
    ensures Noted(old(fs.failed), old(fs.faults), fs.failed, fs.faults)
    ensures CleanedUp(changes, t, preserveBackups, fs.files, fs.failed[|old(fs.failed)|..])
    ensures forall k, p :: |old(fs.history)| <= k < |fs.history| && p !in t.prepared.Values &&
                           (preserveBackups || p !in t.backups.Values) ==>
                             Get(fs.history[k], p) == Get(old(fs.files), p)
  {
    var _ := Drop(fs, changes, t.prepared);
    ghost var h, failed := |fs.history|, fs.failed;
    if !preserveBackups {
      var _ := Drop(fs, changes, t.backups);
      LogGrows(failed, fs.failed, |old(fs.failed)|);
    }
  }

  lemma CleanUpKeepsTargets(
    changes: seq<StagedFile>, before: Files, t: Progress, files: Files, files': Files, preserveBackups: bool)
    requires Names(changes, before, t) && OthersUntouched(changes, before, files)
    requires forall p :: p !in t.prepared.Values && (preserveBackups || p !in t.backups.Values) ==>
                           Get(files', p) == Get(files, p)
    ensures OthersUntouched(changes, before, files')
    ensures forall i :: 0 <= i < |changes| ==> Get(files', changes[i].path) == Get(files, changes[i].path)
    ensures preserveBackups ==> forall p :: p in t.backups ==> Get(files', t.backups[p]) == Get(files, t.backups[p])
  {
    forall i | 0 <= i < |changes| ensures Get(files', changes[i].path) == Get(files, changes[i].path) {
      NamesAvoidTargets(changes, before, t, i);
    }
    OthersAfterMove(changes, before, files, {}, t.prepared.Values + t.backups.Values, files');
  }

  lemma LeftOver(
    changes: seq<StagedFile>, before: Files, t: Progress, preserveBackups: bool, files: Files, files': Files,
    stuck: seq<Path>, late: seq<Path>, stuck': seq<Path>, recovery: map<Path, Path>)
    requires Names(changes, before, t) && NoLitter(changes, before, t, files, stuck)
    requires forall p :: p in files' ==> p in files
    requires CleanedUp(changes, t, preserveBackups, files', late)
    requires stuck <= stuck' && forall p :: p in late ==> p in stuck'
    requires preserveBackups ==> recovery == map p | p in t.backups && t.backups[p] in files :: t.backups[p]
    ensures LeftBehind(changes, before, files', stuck', recovery)
  {
    hide Scratch;
    forall p | p in files' && p !in before && !Target(changes, p) ensures p in stuck' || p in recovery.Values {
      if p in t.prepared.Values {
        var q :| q in t.prepared && t.prepared[q] == p;
        var i :| 0 <= i < |changes| && changes[i].path == q;
      } else if p in t.backups.Values {
        var q :| q in t.backups && t.backups[q] == p;
        var i :| 0 <= i < |changes| && changes[i].path == q;
        if preserveBackups { assert recovery[q] == p; }
      }
    }
  }

  /** After a clean clean-up none of the committer's own files is left. */
  lemma NothingLeftOver(changes: seq<StagedFile>, before: Files, files: Files)
    requires OthersUntouched(changes, before, files) && LeftBehind(changes, before, files, [], map[])
    ensures forall p :: !Target(changes, p) ==> Get(files, p) == Get(before, p)
  {}

  /** Runs the three mutating phases; `ok` says whether all of them got through. */
  method Attempt(fs: FileSystem, changes: seq<StagedFile>) returns (ok: bool, t: Progress)
    requires Distinct(changes) && NeverDrawn(fs, changes)
    modifies fs
    ensures Running(changes, old(fs.files), t, fs.files)
    ensures ok ==> AllInstalled(changes, fs.files) && BaselinesHold(changes, old(fs.files))
    ensures !ok && BaselinesHold(changes, old(fs.files)) ==> fs.faults > old(fs.faults)
    ensures fs.faults >= old(fs.faults) && old(fs.history) <= fs.history
    ensures KeptThroughout(changes, old(fs.files), t.backups, fs.history, |old(fs.history)|)
    ensures Noted(old(fs.failed), old(fs.faults), fs.failed, fs.faults)
    ensures NoLitter(changes, old(fs.files), t, fs.files, fs.failed[|old(fs.failed)|..])
  {
    hide Names, OthersUntouched, OriginalsKept, KeptThroughout, NoLitter, Running;
    ghost var before, since, mark := fs.files, |fs.history|, |fs.failed|;
    ok, t := PrepareAll(fs, changes);
    if !ok { return; }
    ghost var files, h := fs.files, fs.history;
    ok := CheckBaselines(fs, changes);
    RunningKeepsOriginals(changes, before, t, files);
    GrowthKeepsOriginals(changes, before, t.backups, files, fs.history, |h|);
    JoinTrails(changes, before, t.backups, h, fs.history, since);
    PreparedBaselines(changes, before, t, files);
    if !ok { return; }
    ok, t := BackUpAll(fs, changes, t, before, since, mark);
    if !ok { return; }
    ok, t := InstallAll(fs, changes, t, before, since, mark);
  }

  lemma PreparedBaselines(changes: seq<StagedFile>, before: Files, t: Progress, files: Files)
    requires Running(changes, before, t, files) && t.backups == map[] && t.installed == {}
    ensures BaselinesHold(changes, files) <==> BaselinesHold(changes, before)
  {}

  /** After a failed attempt: roll back, note which backups to recover from, and clean up. */
  method Abandon(fs: FileSystem, changes: seq<StagedFile>, t: Progress, ghost before: Files, ghost since: nat, ghost mark: nat)
    returns (r: Outcome)
    requires Distinct(changes) && NeverDrawn(fs, changes) && Running(changes, before, t, fs.files)
    requires since <= |fs.history| && KeptThroughout(changes, before, t.backups, fs.history, since)
    requires mark <= |fs.failed| && NoLitter(changes, before, t, fs.files, fs.failed[mark..])
    modifies fs
    ensures r.Reverted? || r.RollbackFailed?
    ensures OthersUntouched(changes, before, fs.files)
    ensures r.Reverted? ==> AllOriginal(changes, before, fs.files)
    ensures r.RollbackFailed? ==>
              && r.errors != [] && fs.faults >= old(fs.faults) + |r.errors|
              && Recoverable(changes, before, r.recovery, fs.files) && RolledBackElsewhere(changes, before, r, fs.files)
    ensures Noted(old(fs.failed), old(fs.faults), fs.failed, fs.faults)
    ensures LeftBehind(changes, before, fs.files, fs.failed[mark..], if r.RollbackFailed? then r.recovery else map[])
    ensures fs.faults >= old(fs.faults) && old(fs.history) <= fs.history
    ensures KeptThroughout(changes, before, t.backups, fs.history, since)
  {
    hide Names, OriginalsKept, KeptThroughout, NoLitter, CleanedUp, LeftBehind, Running, Reverting;
    var errors := RollBack(fs, changes, t, before, since, mark);
    var recovery := map p | p in t.backups && t.backups[p] in fs.files :: t.backups[p];
    ghost var files, h, failed := fs.files, fs.history, fs.failed;
    RevertingParts(changes, before, t, files, errors, recovery);
    CleanUp(fs, changes, t, errors != []);
    LogGrows(failed, fs.failed, mark);
    LeftOver(changes, before, t, errors != [], files, fs.files, failed[mark..], fs.failed[|failed|..], fs.failed[mark..],
             if errors != [] then recovery else map[]);
    CleanUpKeepsTargets(changes, before, t, files, fs.files, errors != []);
    TrailSurvivesCleanUp(changes, before, t, files, errors, h, fs.history, since);
    if errors == [] { return Reverted; }
    RecoverableAfterCleanUp(changes, before, t, errors, recovery, files, fs.files);
    r := RollbackFailed(errors, recovery);
  }

  /**
   `AtomicPatchCommitter.commit`.  For every schedule of failing primitives the targets end
   up all as staged or all as they were, or the failure is reported together with backups
   that still hold every original that could not be put back.  `cleanup` is the point in the
   history where backups may start to go; up to there no original is ever lost.
   */
  method Commit(fs: FileSystem, changes: seq<StagedFile>)
    returns (r: Outcome, ghost backups: map<Path, Path>, ghost cleanup: nat)
    requires NeverDrawn(fs, changes)
    modifies fs
    ensures r.DuplicatePath? <==> !Distinct(changes)
    ensures OthersUntouched(changes, old(fs.files), fs.files)
    ensures r.Committed? ==> AllInstalled(changes, fs.files) && BaselinesHold(changes, old(fs.files))
    ensures r.Reverted? || r.DuplicatePath? ==> AllOriginal(changes, old(fs.files), fs.files)
    ensures r.RollbackFailed? ==> r.errors != [] && Recoverable(changes, old(fs.files), r.recovery, fs.files)
    // The rollback failed only where it says, each time for a fault of its own, and names only true originals.
    ensures r.RollbackFailed? ==> RolledBackElsewhere(changes, old(fs.files), r, fs.files)
    ensures r.RollbackFailed? ==>
              fs.faults >= old(fs.faults) + |r.errors| + if BaselinesHold(changes, old(fs.files)) then 1 else 0
    // Success is not accidental: without a fault only a conflict stops a commit.
    ensures fs.faults == old(fs.faults) && Distinct(changes) && BaselinesHold(changes, old(fs.files)) ==> r.Committed?
    ensures fs.faults == old(fs.faults) && r.Committed? ==> ExactlyPatched(changes, old(fs.files), fs.files)
    ensures fs.faults == old(fs.faults) && !r.Committed? ==> fs.files == old(fs.files)
    // Files of its own stay behind only where an unlink failed, or as the backups named for recovery.
    ensures Noted(old(fs.failed), old(fs.faults), fs.failed, fs.faults)
    ensures LeftBehind(changes, old(fs.files), fs.files, fs.failed[|old(fs.failed)|..], if r.RollbackFailed? then r.recovery else map[])
    // What every step of the run keeps.
    ensures |old(fs.history)| <= cleanup <= |fs.history| && old(fs.history) <= fs.history
    ensures KeptThroughout(changes, old(fs.files), backups, fs.history[..cleanup], |old(fs.history)|)
    ensures r.Committed? ==> InstalledThroughout(changes, fs.history, cleanup)
    ensures !r.Committed? ==> cleanup == |fs.history|
  {
    hide Names, OriginalsKept, KeptThroughout, NoLitter, CleanedUp, LeftBehind, Running, Reverting;
    backups, cleanup := map[], |fs.history|;
    assert KeptThroughout(changes, fs.files, backups, fs.history[..cleanup], |fs.history|) by {
      EmptyTrail(changes, fs.files, backups, fs.history);
    }
    NothingBehind(changes, fs.files, fs.failed[|fs.failed|..], map[]);
    if changes == [] { return Committed, backups, cleanup; }
    var unique := AssertUniquePaths(changes);
    if !unique { return DuplicatePath, backups, cleanup; }
    ghost var before, since, mark := fs.files, |fs.history|, |fs.failed|;
    var ok, t := Attempt(fs, changes);
    backups := t.backups;
    RunningParts(changes, before, t, fs.files);
    if ok {
      cleanup := |fs.history|;
      assert fs.history[..cleanup] == fs.history;
      ghost var files, h, failed := fs.files, fs.history, fs.failed;
      CleanUp(fs, changes, t, false);
      LogGrows(failed, fs.failed, mark);
      LeftOver(changes, before, t, false, files, fs.files, failed[mark..], fs.failed[|failed|..], fs.failed[mark..], map[]);
      assert fs.history[..cleanup] == h;
      CleanUpKeepsTargets(changes, before, t, files, fs.files, false);
      InstalledDuringCleanUp(changes, before, t, files, fs.history, |h|);
      if fs.faults == old(fs.faults) {
        assert fs.failed[mark..] == [];
        NothingLeftOver(changes, before, fs.files);
      }
      return Committed, backups, cleanup;
    }
    r := Abandon(fs, changes, t, before, since, mark);
    cleanup := |fs.history|;
    assert fs.history[..cleanup] == fs.history;
    if fs.faults == old(fs.faults) {
      assert fs.failed[mark..] == [];
      NothingLeftOver(changes, before, fs.files);
      SameFiles(changes, before, fs.files);
    }
  }

  lemma NothingBehind(changes: seq<StagedFile>, files: Files, stuck: seq<Path>, recovery: map<Path, Path>)
    ensures LeftBehind(changes, files, files, stuck, recovery)
  {}

  lemma EmptyTrail(changes: seq<StagedFile>, before: Files, backups: map<Path, Path>, history: seq<Files>)
    ensures KeptThroughout(changes, before, backups, history[..|history|], |history|)
  {}

  lemma RunningParts(changes: seq<StagedFile>, before: Files, t: Progress, files: Files)
    requires Running(changes, before, t, files)
    ensures Names(changes, before, t) && OthersUntouched(changes, before, files)
  {}

  lemma RevertingParts(
    changes: seq<StagedFile>, before: Files, t: Progress, files: Files, errors: seq<Path>, recovery: map<Path, Path>)
    requires Reverting(changes, before, t, files, 0, errors)
    requires recovery == map p | p in t.backups && t.backups[p] in files :: t.backups[p]
    ensures Names(changes, before, t) && OthersUntouched(changes, before, files)
    ensures errors == [] ==> AllOriginal(changes, before, files)
    ensures Recoverable(changes, before, recovery, files)
    ensures RolledBackElsewhere(changes, before, RollbackFailed(errors, recovery), files)
  {
    forall p | p in recovery ensures p in before && Get(files, recovery[p]) == Some(before[p]) {
      assert Target(changes, p);
      var i :| 0 <= i < |changes| && changes[i].path == p;
      assert Settled(changes[i], before, t, files, errors);
    }
  }

  lemma RecoverableAfterCleanUp(
    changes: seq<StagedFile>, before: Files, t: Progress, errors: seq<Path>, recovery: map<Path, Path>, files: Files, files': Files)
    requires Recoverable(changes, before, recovery, files)
    requires RolledBackElsewhere(changes, before, RollbackFailed(errors, recovery), files)
    requires forall p :: p in recovery ==> p in t.backups && recovery[p] == t.backups[p]
    requires forall i :: 0 <= i < |changes| ==> Get(files', changes[i].path) == Get(files, changes[i].path)
    requires forall p :: p in t.backups ==> Get(files', t.backups[p]) == Get(files, t.backups[p])
    ensures Recoverable(changes, before, recovery, files')
    ensures RolledBackElsewhere(changes, before, RollbackFailed(errors, recovery), files')
  {}

  lemma InstalledDuringCleanUp(
    changes: seq<StagedFile>, before: Files, t: Progress, files: Files, history: seq<Files>, since: nat)
    requires Names(changes, before, t) && AllInstalled(changes, files)
    requires forall k, p :: since <= k < |history| && p !in t.prepared.Values && p !in t.backups.Values ==>
                              Get(history[k], p) == Get(files, p)
    ensures InstalledThroughout(changes, history, since)
  {}

  lemma TrailSurvivesCleanUp(
    changes: seq<StagedFile>, before: Files, t: Progress, files: Files, errors: seq<Path>,
    early: seq<Files>, late: seq<Files>, since: nat)
    requires Reverting(changes, before, t, files, 0, errors)
    requires early <= late && since <= |early| && KeptThroughout(changes, before, t.backups, early, since)
    requires forall k, p :: |early| <= k < |late| && p !in t.prepared.Values && (errors != [] || p !in t.backups.Values) ==>
                              Get(late[k], p) == Get(files, p)
    ensures KeptThroughout(changes, before, t.backups, late, since)
  {}

  lemma SameFiles(changes: seq<StagedFile>, before: Files, files: Files)
    requires AllOriginal(changes, before, files)
    requires forall p :: !Target(changes, p) ==> Get(files, p) == Get(before, p)
    ensures files == before
  {
    forall p ensures Get(files, p) == Get(before, p) {
      if Target(changes, p) {
        var i :| 0 <= i < |changes| && changes[i].path == p;
      }
    }
    assert forall p :: p in files <==> p in before by {
      forall p ensures p in files <==> p in before { assert Get(files, p) == Get(before, p); }
    }
    assert forall p :: p in files ==> files[p] == before[p] by {
      forall p | p in files ensures files[p] == before[p] { assert Get(files, p) == Get(before, p); }
    }
  }
}
