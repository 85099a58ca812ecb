# DevMCP Runtime: a verified model of its stateful core

This project models, in Dafny, the parts of the DevMCP Runtime (a local coding server) whose
correctness spans whole runs, and proves what they are for.  `dafny verify dfyconfig.toml`
checks all of it.

| files | component |
|---|---|
| `FileSystem`, `AtomicPatch` | the transaction that installs a patch, over a file system whose primitives fail on any schedule |
| `Hunks`, `PatchText`, `PatchTextLaws` | locating and splicing hunks; byte-order mark, line endings and final newline |
| `Staging`, `Ledger` | from patch operations to staged files; the record of what files held before their first patch |
| `Contexts`, `ContextRuns`, `ContextLifetimes` | logical contexts, shared jobs, workspace claims: the registries, and every interleaving of their lock regions |
| `StateGuard`, `GuardRuns`, `AuthorityRuns`, `Resumption` | preflight, mutate, checkpoint; reconciliation; resuming a saved continuation |
| `HttpSessions`, `SessionRuns` | the HTTP session manager and every interleaving of its lock regions |
| `RollingOutput` | the rolling output buffer, its snapshots and its pages |
| `Utf8`, `Truncation`, `FilePaging` | UTF-8, cutting text to lines and bytes, reading a file page by page |
| `Heredoc`, `HeredocLaws` | dropping heredoc bodies before a command is scanned |

Code that changes fields or loops is a class or a method with loop invariants, proved against
functions on values; what the system promises is then proved about those functions.  Threads are
interleavings of atomic lock regions: a `System` value, an enumeration of `Step`s with the
condition under which each can happen, and theorems about every run from the initial state.
Clocks, random names, git, and faults of the operating system are parameters.  SHA-256 is taken
to be injective.

## What turned out false, and exactly when it holds

- **Hunks that meet at line 0** (`Hunks.SpliceMeetsReference`, `Hunks.TieWitness`).  The descending
  sort is stable, so an insertion listed before a hunk that matches line 0 is spliced first and
  the second splice hits the inserted line.  The result is the simultaneous replacement if and
  only if `TiesAgree`; hunks that all carry context always satisfy it.
- **Rewriting a file from its own lines** (`PatchText.RewriteIsIdentity`).  It is the identity if
  and only if the text has no separator besides CR and LF and uses either LF alone or CR LF alone.
  Reading the result again gives the written lines except in two cases, named in
  `PatchText.RewriteRoundTrip`; one of them is that deleting every line of a newline-terminated
  file leaves one empty line.
- **Staging versus sequence** (`Staging.StepAgrees`, `Staging.StagingFollowsSequence`).  Staging
  consults the disk as it was before the patch.  It agrees with doing the operations one after
  another if and only if each operation sees on the disk what it would see in sequence; orderly
  patches always do.  `UpdateThenMoveLosesUpdate` and `TwoMovesToOneTarget` show the rest.
- **A job taken out between being recorded and being retained** (`ContextRuns.EarlyTakeUnpins`)
  leaves the registering call without a lease, and its context can be pruned under it.  Without such
  a step a running call or a recorded job always pins its context
  (`ContextRuns.RunningCallsArePinned`).
- **One Runtime serving two contexts at once** (`ContextRuns.ForeignSaveWitness`).  A call locks its
  context, not its Runtime, and saves whatever the Runtime shows (coding_tools_mcp/server.py:2131-2140);
  if another context was applied meanwhile, the first one ends up on the other's workspace.
  `ContextRuns.WorkspaceExclusivity` is proved for the runs in which that does not happen, and
  `ContextRuns.ForeignSaveShares` shows that it fails whenever it does to two claimed contexts of one
  project.  In the same way a callback can face a workspace that was never compared
  (`GuardRuns.RehomeWitness`); without it, it never does (`GuardRuns.CallbackChangesItsCheckpoint`).
- **An isolation that breaks off after the worktree was created** (`ContextRuns.StrandedWitness`):
  coding_tools_mcp/server.py:2177-2183 is outside the handler that rolls the claim back, and two
  claimed contexts stay on one workspace.
- **A context created on the root its Runtime last showed** (`ContextRuns.BornOnWorktree`) can start
  on another's worktree, and then is never isolated.
- **The lease is taken on the branch read before it** (`GuardRuns.StaleBranchWitness`), **and runs
  out** (`GuardRuns.ExpiryWitness`): two owners of one workspace can run their callbacks at once.
  While leases cover the branches in use and last, they cannot (`GuardRuns.CallbacksExclude`), and no
  update is lost (`GuardRuns.NoLostUpdate`); in any case two operations with live leases hold different branches (`GuardRuns.BranchesAreDisjoint`).
- **The new-output test** (`RollingOutput.NewOutputTest`) compares a buffer length with an absolute
  cursor.  It is right if and only if nothing was dropped, less than a buffer's worth was read, or
  nothing is unread; after one buffer's worth it never fires again (`RollingOutput.TestGoesBlind`,
  `RollingOutput.UnseenOutput`).
- **A line longer than a page** (`FilePaging.PageDelivers`): a page delivers its lines if and only if
  its first line fits; otherwise the rest of the line is lost, and if not even one character fits
  the rest of the file is.  Below one byte, which the tool's schema rules out
  (coding_tools_mcp/server.py:9899-9904), lines are skipped as well.

## Model

| member | source | states |
|---|---|---|
| `FileSystems.FileSystem.Replace` | coding_tools_mcp/patching.py:127 | rename moves the file over its destination or changes nothing; a failure with the source present is a fault |
| `FileSystems.FileSystem.MakeTemp` | coding_tools_mcp/patching.py:254 | a temporary is a new hidden name, or nothing changes |
| `FileSystems.FileSystem.Fill` | coding_tools_mcp/patching.py:256-270 | a temporary gets its content and mode, or holds something partial; no other file changes |
| `AtomicPatch.AssertUniquePaths` | coding_tools_mcp/patching.py:183-190 | accepts exactly the lists whose paths are pairwise different |
| `AtomicPatch.AssertBaseline` | coding_tools_mcp/patching.py:193-205 | passes only if the path holds the captured file; otherwise the baseline differs or a primitive failed |
| `AtomicPatch.PrepareFile` | coding_tools_mcp/patching.py:252-270 | the new content sits under a new hidden name, or only hidden files were added that could not be unlinked |
| `AtomicPatch.ReserveBackupPath` | coding_tools_mcp/patching.py:273-278 | a hidden name that is free, with no file changed |
| `AtomicPatch.PrepareAll` | coding_tools_mcp/patching.py:113-116 | keeps the invariant of a running commit and every original, at each primitive; on success exactly the written paths have temporaries |
| `AtomicPatch.BackUpAll` | coding_tools_mcp/patching.py:121-129 | keeps the invariant; on success every original is at its recorded backup and every baseline held |
| `AtomicPatch.InstallAll` | coding_tools_mcp/patching.py:131-140 | keeps the invariant; on success every target is as staged |
| `AtomicPatch.RollBack` | coding_tools_mcp/patching.py:207-239 | for every further fault, each original is back at its path or still at its backup; no errors means all are back |
| `AtomicPatch.CleanUp` | coding_tools_mcp/patching.py:165-180 | touches temporaries, and backups only when they are not needed for recovery; of these only what could not be unlinked is left |
| `AtomicPatch.Abandon` | coding_tools_mcp/patching.py:142-180 | after a failed attempt every target is back, or each error is a fault and every original not back is in a named backup; nothing of the committer's own is left but failed unlinks and those backups |
| `AtomicPatch.Commit` | coding_tools_mcp/patching.py:103-239 | for every schedule of faults: all targets as staged, or all as before, or rollback failed with every missing original in a named backup; a rollback failure takes a fault for each error besides the one that caused it, and every target it does not name is back; other files never change, and a file of the committer's own is left only where an unlink failed or as a named backup; without faults only a conflict stops it; until final cleanup every original is at its path or its backup after each primitive, and from then on every target stays installed |
| `Hunks.FindSubsequenceAll` | coding_tools_mcp/patching.py:470-479 | exactly the positions where the needle occurs, ascending; position 0 for an empty needle |
| `Hunks.Locate` | coding_tools_mcp/patching.py:382-409 | one place for every hunk, or the first hunk that has none or several |
| `Hunks.FirstOverlap` | coding_tools_mcp/patching.py:411-425 | finds the first adjacent pair that overlaps, or shows that none does |
| `Hunks.SpliceBackToFront` | coding_tools_mcp/patching.py:427-433 | the loop computes the splices in descending, stable order |
| `Hunks.BackToFront` | coding_tools_mcp/patching.py:427-433 | splicing from the back equals simultaneous replacement for places in a chain |
| `Hunks.SpliceMeetsReference` | coding_tools_mcp/patching.py:411-433 | the code's splice equals simultaneous replacement if and only if the hunks at line 0 agree |
| `Hunks.SimultaneousLength` | coding_tools_mcp/patching.py:427-433 | the length changes by the sum of added minus removed lines |
| `Hunks.ContextIsEnough` | coding_tools_mcp/patching.py:379-433 | hunks that all have context never meet the exception at line 0 |
| `Hunks.OrderOfHunks` | coding_tools_mcp/patching.py:379-433 | for hunks with context neither success nor result depends on the order in which they are listed, refusals included |
| `Hunks.TieWitness` | coding_tools_mcp/patching.py:428 | an insertion listed before a replacement of line 0 gives the wrong lines |
| `Hunks.UpdateCanBeUndone` | coding_tools_mcp/patching.py:427-433 | putting the replaced lines back at their shifted places gives the original |
| `Hunks.ApplyUpdateHunks` | coding_tools_mcp/patching.py:379-433 | succeeds if and only if every hunk has one place and none overlap; then equals the simultaneous replacement if and only if line 0 is free of ties; a refusal names the first hunk without one place, or two different hunks of which the second begins inside the first |
| `Hunks.ApplyMeans` | coding_tools_mcp/patching.py:379-433 | the update as a function succeeds and yields exactly as the method does |
| `PatchText.StripBom` | coding_tools_mcp/patching.py:482-483 | mark and rest together are the content |
| `PatchText.CrLfRoundTrip` | coding_tools_mcp/patching.py:494-499 | normalizing and restoring is the identity on text that uses CR LF only |
| `PatchText.RestoredIsCrLfOnly` | coding_tools_mcp/patching.py:494-499 | restored text uses CR LF only, and normalizes back |
| `PatchText.DetectsCrLf` | coding_tools_mcp/patching.py:486-491 | CR LF is detected in text that uses it |
| `PatchText.RewriteIsIdentity` | coding_tools_mcp/patching.py:375-439 | a file rewritten from its own lines is unchanged if and only if its separators are regular |
| `PatchText.RewriteRoundTrip` | coding_tools_mcp/patching.py:433-439 | reading the rewritten text gives the written lines, with the exact exceptions |
| `PatchText.ParseUpdateHunk` | coding_tools_mcp/patching.py:442-467 | accepts exactly the marked lines; the two sides are those of the edits the hunk writes down |
| `PatchText.WritesOneThing` | coding_tools_mcp/patching.py:442-467 | a written hunk stands for one edit list only |
| `PatchText.ApplyUpdate` | coding_tools_mcp/patching.py:370-439 | refuses badly marked hunks first; succeeds if and only if the hunks apply, and then rewrites the file, mark kept, from the simultaneous replacement whenever line 0 is free of ties; passes the cause of a refusal on; equals the function `EditText` |
| `PatchText.ContextOnlyPatch` | coding_tools_mcp/patching.py:379-439 | a patch of context lines only leaves the file alone if and only if it is regular |
| `PatchTextLaws.EveryTerminator` | coding_tools_mcp/patching.py:377-378 | a file is read as its lines, whichever of the eleven terminators ends each of them |
| `PatchTextLaws.EndingIsFirst` | coding_tools_mcp/patching.py:486-491 | a file is taken for CR LF if and only if its first LF follows a CR |
| `PatchTextLaws.OneEnding` | coding_tools_mcp/patching.py:433-439 | updated text uses that one ending throughout |
| `PatchTextLaws.BomIsKept` | coding_tools_mcp/patching.py:375-439 | a byte-order mark changes neither success nor result of an update, and stays in front |
| `Staging.StepAgrees` | coding_tools_mcp/server.py:3990-4211 | staging an operation and doing it next agree if and only if it sees the same on the disk |
| `Staging.StagingFollowsSequence` | coding_tools_mcp/server.py:3990-4211 | the two readings agree after every prefix of a patch if and only if every operation sees the same |
| `Staging.OrderlyIsSequential` | coding_tools_mcp/server.py:3990-4211 | when a path is touched once, or by updates and at most a final delete, staging refuses and yields the same as sequential application |
| `Staging.UpdateThenMoveLosesUpdate` | coding_tools_mcp/server.py:4154-4179 | updating and then moving a file stages the original text at the target |
| `Staging.TwoMovesToOneTarget` | coding_tools_mcp/server.py:4154-4179 | two moves to one target are staged although the second would be refused |
| `Staging.AnalyzePatch` | coding_tools_mcp/server.py:3990-4242 | the loop stages all operations or refuses the patch, and refuses an empty one |
| `Staging.PatchedShows` | coding_tools_mcp/server.py:4301-4338 | a commit of the staged files shows them over the disk and changes nothing else |
| `Staging.ApplyPatch` | coding_tools_mcp/server.py:4263-4277 | for every schedule of faults an orderly patch leaves, apart from hidden names, the files its operations leave one after another, or the files as they were, or every lost original in a named backup; without faults exactly the former; whatever the operations, a committed path holds what was staged for it and the ledger has the patch on record, and it is refused for the ledger's limits exactly when they would be passed; a refused one leaves files and ledger alone |
| `Staging.ApplyTextPatch` | coding_tools_mcp/server.py:4263-4277 | all of that for updates edited by `apply_update_hunks` |
| `Ledger.FirstFoundIsFirst` | coding_tools_mcp/server.py:4301-4338 | what the ledger should hold for a path is what the first committed patch of it found |
| `Ledger.CommitRecords` | coding_tools_mcp/server.py:4303-4338 | a committed patch adds exactly the paths not yet recorded, with what it found |
| `Ledger.WrittenTextIsRecorded` | coding_tools_mcp/server.py:4306-4310 | a file holding the encoding of a text before its first committed patch is recorded as that text |
| `Ledger.CounterIsBytes` | coding_tools_mcp/server.py:4311-4315 | what a patch adds to the counter is the number of bytes in the UTF-8 files it touches for the first time |
| `Ledger.PatchLedger.CommitStagedFiles` | coding_tools_mcp/server.py:4301-4338 | over every sequence of patches the ledger holds each committed path's text before its first patch: the text itself where the file was UTF-8, absence where there was no file; for UTF-8 files the counter grows by the bytes found, and it refuses exactly when the bytes or the entries pass a limit; a failed commit changes nothing in it, and the outcome of the commit is passed on with all that is promised for it |
| `Ledger.PatchLedger.Clear` | coding_tools_mcp/server.py:2124-2125 | another project starts with an empty ledger |
| `Contexts.LogicalContextRegistry.PruneExpired` | coding_tools_mcp/session_state.py:246-255 | exactly the unleased contexts past the cutoff go |
| `Contexts.LogicalContextRegistry.FindOldestUnleased` | coding_tools_mcp/session_state.py:71-95 | an unleased context seen longest ago, or none is unleased |
| `Contexts.LogicalContextRegistry.CreateContext` | coding_tools_mcp/session_state.py:63-95 | at capacity displaces an oldest unleased context, and refuses only if all are leased; leased contexts stay, nothing else changes, and the limit is kept |
| `Contexts.LogicalContextRegistry.UpdateContext` | coding_tools_mcp/session_state.py:106-137 | rebinding keeps the claim only within one project, and reports exactly the worktree left behind for another project |
| `Contexts.LogicalContextRegistry.ClaimMutationWorkspace` | coding_tools_mcp/session_state.py:139-156 | claims, and reports whether another claimed context of the project exists |
| `Contexts.LogicalContextRegistry.RollbackMutationWorkspaceClaim` | coding_tools_mcp/session_state.py:158-166 | drops the claim only while the context is on its canonical root |
| `Contexts.LogicalContextRegistry.ClaimExistingWorkspace` | coding_tools_mcp/session_state.py:168-206 | each refusal exactly on its cause, in order; otherwise bound and claimed, with the previous binding returned |
| `Contexts.LogicalContextRegistry.RollbackExistingWorkspaceClaim` | coding_tools_mcp/session_state.py:208-226 | restores root, working directory and claim if the context is still on the expected root |
| `Contexts.LogicalContextRegistry.GetContext` | coding_tools_mcp/session_state.py:97-104 | prunes, and notes when a live context was seen |
| `Contexts.LogicalContextRegistry.RetainContext` | coding_tools_mcp/session_state.py:228-236 | prunes, then adds a lease to a live context |
| `Contexts.LogicalContextRegistry.ReleaseContext` | coding_tools_mcp/session_state.py:238-244 | takes a lease away, never below zero |
| `Contexts.SharedJobRegistry.PruneCompleted` | coding_tools_mcp/session_state.py:395-412 | the finished jobs go, and every owner is released once for each of its jobs |
| `Contexts.SharedJobRegistry.Register` | coding_tools_mcp/session_state.py:324-348 | after finished jobs were pruned, succeeds exactly when open, not full, not a duplicate and the owner is live; a record without a live owner does not stay |
| `Contexts.SharedJobRegistry.Remove` | coding_tools_mcp/session_state.py:384-393 | takes the record out and releases its owner once |
| `ContextRuns.LeasesKept` | coding_tools_mcp/session_state.py:71-412 | every step of either registry keeps the lease law |
| `ContextRuns.LeaseConservation` | coding_tools_mcp/session_state.py:228-412 | in every run a live context's leases are its calls and recorded jobs plus releases due minus retains due; the clamp never fires; none are left exactly when there is no recorded job and no release due and every call is between recording a job and retaining its context |
| `ContextRuns.RunningCallsArePinned` | coding_tools_mcp/server.py:2499-2625 | unless a job is taken out while being registered, a context with a running call or recorded job holds a lease and survives every step but closing the registry |
| `ContextRuns.EarlyTakeUnpins` | coding_tools_mcp/session_state.py:335-348 | a run in which a job is taken out before its owner is retained, and the owner's context is pruned with the call in flight |
| `ContextLifetimes.Bounded` | coding_tools_mcp/session_state.py:71-95 | in every run at most 512 contexts and 256 jobs |
| `ContextLifetimes.JobsHaveContexts` | coding_tools_mcp/session_state.py:335-348 | until the context registry is closed, every job whose registration went through has a live context with a lease for it |
| `ContextLifetimes.PruningIsByLastUse` | coding_tools_mcp/session_state.py:246-255 | in every run a prune takes exactly the contexts without call, job or release due whose last use, by whatever operation, was before the cutoff |
| `ContextLifetimes.DisplacementIsByLastUse` | coding_tools_mcp/session_state.py:71-95 | in every run a new context displaces another exactly at capacity, and then an unpinned one used longest ago |
| `ContextRuns.ExclusiveKept` | coding_tools_mcp/session_state.py:106-226 | every tidy step, both rollbacks included, keeps workspaces apart |
| `ContextRuns.WorkspaceExclusivity` | coding_tools_mcp/server.py:2102-2185 | in every run in which no other context is applied on a Runtime between a context's apply and its save, and contexts start on one root, two claimed contexts of a project share a workspace only while one is being isolated or was stranded |
| `ContextRuns.ForeignSaveShares` | coding_tools_mcp/server.py:2131-2140 | whenever a claimed context is saved from a Runtime that shows another claimed one of the project, both end on one workspace |
| `ContextRuns.ForeignSaveWitness` | coding_tools_mcp/server.py:2540-2558 | a run, tidy up to its last step, in which one Runtime serves two contexts at once and that happens |
| `ContextRuns.StrandedStaysShared` | coding_tools_mcp/session_state.py:139-156 | a stranded context is never told to isolate again |
| `ContextRuns.StrandedWitness` | coding_tools_mcp/server.py:2167-2183 | a tidy run that ends with two claimed contexts on one workspace and no claim under way |
| `ContextRuns.BornOnWorktree` | coding_tools_mcp/server.py:2515-2522 | a run in which a context created while its Runtime shows another's worktree shares it after its claim |
| `ContextRuns.SelectedIsSaved` | coding_tools_mcp/server.py:2131-2140 | a project selected during a call is where its context is after the save, with no claim from elsewhere |
| `ContextRuns.ResumeUndisturbed` | coding_tools_mcp/session_state.py:168-226 | while a context is being resumed, no other step changes the context or what its rollback restores |
| `ContextRuns.ResumeAllOrNothing` | coding_tools_mcp/stateful_server.py:566-669 | a resume that fails at any later point restores root, working directory and claim, whatever ran in between |
| `StateGuard.FingerprintsDecideDrift` | coding_tools_mcp/state_snapshot.py:239-257 | two snapshots compare empty if and only if their fingerprints agree, and if and only if all ten fields do |
| `StateGuard.DriftNamesTheDifference` | coding_tools_mcp/state_snapshot.py:239-257 | drift names branch, head, upstream, changed and staged paths exactly where they differ, with the expected and the actual value |
| `StateGuard.DriftNamesTheRest` | coding_tools_mcp/state_snapshot.py:239-257 | likewise untracked paths, content hashes, index, worktree state and its completeness |
| `StateGuard.ReconcileIsCompareAndSwap` | coding_tools_mcp/stateful_server.py:876-964 | a drifted owner is reconciled if and only if checkpoint id, branch, head and fingerprint all equal the current ones |
| `StateGuard.EveryVerdict` | coding_tools_mcp/stateful_server.py:899-945 | the exact condition of each refusal, and of no reconciliation being needed |
| `StateGuard.StaleEvidenceIsRefused` | coding_tools_mcp/stateful_server.py:876-964 | evidence a caller gathered is accepted if and only if checkpoint and repository are still what it saw |
| `StateGuard.Guard.WriteAuthority` | coding_tools_mcp/state_checkpoint.py:29-61 | replaces one owner's checkpoint under a new id |
| `StateGuard.Guard.EnsureBaseline` | coding_tools_mcp/stateful_server.py:53-76 | an owner's first sight of a repository on a named branch becomes its checkpoint; a later one, or one without a branch, changes nothing |
| `StateGuard.Guard.AcquireLeases` | coding_tools_mcp/writer_lease.py:38-132 | all branches or none, refused exactly when there are none or another owner holds one that has not run out; those that have are taken over |
| `StateGuard.Guard.ReleaseOwnerLeases` | coding_tools_mcp/writer_lease.py:172-190 | exactly the owner's leases go |
| `StateGuard.Guard.Guarded` | coding_tools_mcp/stateful_server.py:688-807 | the callback runs only on the recorded state; afterwards the checkpoint is the actual state on success and on error; drift names exactly the differing fields; no lease of the owner is left |
| `StateGuard.Guard.ContinuationWrite` | coding_tools_mcp/stateful_server.py:876-964 | advances the authority exactly on a reconciling verdict, under a new id; the verdict is that of the evidence unless there is no branch or another owner holds it; no lease of the owner is left |
| `GuardRuns.InvAlways` | coding_tools_mcp/stateful_server.py:688-807 | leases and records stay in step in every interleaving, with leases running out, Runtimes taken to other workspaces, and new baselines after a bind or resume |
| `GuardRuns.CallbackSeesItsCheckpoint` | coding_tools_mcp/stateful_server.py:688-756 | in every reachable state a comparison lets a callback through only on its owner's recorded state |
| `GuardRuns.CallbackChangesItsCheckpoint` | coding_tools_mcp/stateful_server.py:688-807 | with or without covering leases: if nobody changes the workspace after the comparison, the callback's first change is made to the compared workspace in the recorded state |
| `GuardRuns.RehomeWitness` | coding_tools_mcp/server.py:2102-2129 | if one was, a run in which the callback faces a workspace that was never compared |
| `GuardRuns.CheckpointIsActual` | coding_tools_mcp/stateful_server.py:757-807 | with or without covering leases: what is written after a callback is the state of the workspace, unless someone else changed it meanwhile |
| `GuardRuns.NoLeaseOutlivesItsOperation` | coding_tools_mcp/stateful_server.py:786-807 | every lease belongs to an operation under way that asked for it |
| `GuardRuns.DriftHasCause` | coding_tools_mcp/stateful_server.py:688-756 | no drift report without an outside change, another owner's change, another context on the Runtime, or a lost checkpoint |
| `GuardRuns.ReconciledOwnerSeesNoDrift` | coding_tools_mcp/stateful_server.py:876-964 | after a reconciling write an undisturbed owner's next comparison finds nothing |
| `GuardRuns.BranchesAreDisjoint` | coding_tools_mcp/writer_lease.py:38-132 | in every reachable state two operations none of whose leases ran out hold different branches |
| `GuardRuns.CallbacksExclude` | coding_tools_mcp/stateful_server.py:688-807 | while leases cover the branches that callbacks use and none runs out, two owners never mutate one workspace at once |
| `GuardRuns.OthersKeepOut` | coding_tools_mcp/stateful_server.py:688-807 | while leases cover the branches in use, no step of another owner changes the workspace of an owner between its comparison and its checkpoint |
| `GuardRuns.NoLostUpdate` | coding_tools_mcp/stateful_server.py:688-807 | in every covered run, from a comparison that passes until the checkpoint is written and whatever other owners do, the workspace is what the owner's own callback makes of the recorded state, and the checkpoint records it |
| `GuardRuns.FirstChangeIsOnRecord` | coding_tools_mcp/stateful_server.py:688-807 | the callback's first change is made to the compared workspace in the recorded state, whatever other owners do |
| `GuardRuns.CollectedIsWritten` | coding_tools_mcp/stateful_server.py:757-807 | what is collected after the callback is still the actual state when it is written, whatever other owners do |
| `GuardRuns.StaleBranchWitness` | coding_tools_mcp/stateful_server.py:691-712 | a lease on a branch that was read too early lets two callbacks run at once |
| `GuardRuns.ExpiryWitness` | coding_tools_mcp/writer_lease.py:20-24 | a lease that runs out under a callback lets a second one start on the same branch and workspace |
| `AuthorityRuns.PhaseHasCause` | coding_tools_mcp/stateful_server.py:688-807 | in every reachable state each phase is entered from the one before it and on its condition: leases held, comparison empty, or drift with a reconciling verdict |
| `AuthorityRuns.ReconciledExactly` | coding_tools_mcp/stateful_server.py:876-964 | in every interleaving a reconciling write goes ahead if and only if there is drift and the evidence names the owner's record and the actual state |
| `AuthorityRuns.RecordsAreWritten` | coding_tools_mcp/state_checkpoint.py:29-61 | an owner's record changes only to the snapshot its own operation took, under an identity never used before |
| `AuthorityRuns.OldEvidenceIsRefused` | coding_tools_mcp/stateful_server.py:899-913 | in every run evidence gathered before the record last changed is refused |
| `Resumption.ResumeContinuation` | coding_tools_mcp/stateful_server.py:528-669 | the exact condition of each outcome; for every failure point the context is bound to a twice validated workspace nobody owns, or exactly as before; when the baseline is written is exact too |
| `Resumption.ResumedStateIsSaved` | coding_tools_mcp/stateful_server.py:322-369 | a workspace that passes validation holds exactly the saved repository state |
| `Resumption.AcceptedExactly` | coding_tools_mcp/stateful_server.py:322-369 | a state that was saved is accepted again if and only if the repository is as it was and its fingerprint is complete |
| `Resumption.OtherStateIsRefused` | coding_tools_mcp/stateful_server.py:322-369 | another branch, another commit, or uncommitted work on one side only is refused whatever the fingerprint |
| `HttpSessions.HTTPSessionManager.FindOldestIdle` | coding_tools_mcp/transport_http.py:55-66 | an evictable idle session seen longest ago, or there is none |
| `HttpSessions.HTTPSessionManager.BeginCreate` | coding_tools_mcp/transport_http.py:48-68 | reserves, evicting only when full; refused exactly when closed or nothing can be evicted |
| `HttpSessions.HTTPSessionManager.Install` | coding_tools_mcp/transport_http.py:80-86 | stores the new session unless closed or its id is taken |
| `HttpSessions.HTTPSessionManager.EndCreate` | coding_tools_mcp/transport_http.py:88-90 | gives the reservation back |
| `HttpSessions.HTTPSessionManager.Get` | coding_tools_mcp/transport_http.py:94-104 | a request enters exactly on a stored session that is not closing |
| `HttpSessions.HTTPSessionManager.Release` | coding_tools_mcp/transport_http.py:106-118 | the last request of a closing session takes it out for closing |
| `HttpSessions.HTTPSessionManager.Delete` | coding_tools_mcp/transport_http.py:120-131 | an idle session goes at once, a busy one is marked; what that means for later requests is `SessionRuns.DeletedForGood` |
| `HttpSessions.HTTPSessionManager.Prune` | coding_tools_mcp/transport_http.py:133-148 | exactly the idle evictable sessions past the cutoff go |
| `HttpSessions.HTTPSessionManager.Close` | coding_tools_mcp/transport_http.py:166-172 | takes every session out and refuses new ones |
| `HttpSessions.CapacityKept` | coding_tools_mcp/transport_http.py:48-92 | stored sessions and creators not yet stored stay within the limit at every step |
| `HttpSessions.InvKept` | coding_tools_mcp/transport_http.py:48-172 | every step keeps capacity and the single place of every runtime |
| `HttpSessions.EveryInterleaving` | coding_tools_mcp/transport_http.py:48-172 | in every run: at most 128, each runtime closed at most once, a closing record has a request, nothing stored after close |
| `HttpSessions.ClosedOnceAndIdle` | coding_tools_mcp/transport_http.py:48-172 | a runtime is closed when no longer stored, and with a request active only by the manager's close |
| `SessionRuns.DeletedIsNotServed` | coding_tools_mcp/transport_http.py:94-131 | after a delete the identifier is not served, and every other is served as before |
| `SessionRuns.DeletedForGood` | coding_tools_mcp/transport_http.py:94-131 | in every run after the delete of a stored runtime no request enters it again; it is stored exactly while requests are inside, the step that ends the last one hands it over to be closed, and otherwise it waits for its close or is closed |
| `SessionRuns.NothingLostAlways` | coding_tools_mcp/transport_http.py:48-172 | in every run each runtime the factory made is stored, with its creator, waiting for its close, or closed |
| `SessionRuns.ExpiryIsByLastUse` | coding_tools_mcp/transport_http.py:133-148 | in every run a prune takes exactly the evictable runtimes without a request whose last use was before the cutoff |
| `SessionRuns.EvictionIsByLastUse` | coding_tools_mcp/transport_http.py:48-68 | in every run a session is evicted exactly when there is no room, and then an idle one used longest ago |
| `RollingOutput.AppendFollows` | coding_tools_mcp/processes.py:262-282 | after every append the buffer is the suffix of the stream at its start offset, dropped equals start, and the limit holds |
| `RollingOutput.SnapshotCovers` | coding_tools_mcp/processes.py:358-368 | a snapshot returns everything from the cursor to the end but what has been dropped, and counts exactly that |
| `RollingOutput.EveryByteOnce` | coding_tools_mcp/processes.py:262-368 | in every interleaving a byte is returned by exactly one snapshot, or counted omitted by exactly one and then had been dropped when it was taken, or is still unread |
| `RollingOutput.NewOutputTest` | coding_tools_mcp/server.py:5987-5991 | in every run the test is right if and only if nothing was dropped, less than a buffer's worth was read, or nothing is unread |
| `RollingOutput.TestGoesBlind` | coding_tools_mcp/server.py:5169-5174 | once a snapshot has covered a buffer's worth, the test is false for good |
| `RollingOutput.UnseenOutput` | coding_tools_mcp/server.py:5987-5991 | from then on any further output is unread and unseen |
| `RollingOutput.ReadFull` | coding_tools_mcp/processes.py:358-368 | for every buffer size there is such a run |
| `RollingOutput.PageIsStream` | coding_tools_mcp/server.py:5908-5921 | a page is the stream's bytes at its offset, which skips exactly what was dropped; the next offset advances and is absent only at the end |
| `RollingOutput.PageLength` | coding_tools_mcp/server.py:5913-5917 | a page has the smaller of the clamped limit and the bytes left |
| `RollingOutput.FollowingReadsEverything` | coding_tools_mcp/server.py:5908-5921 | following a finished stream ends and reads exactly the retained suffix |
| `RollingOutput.LivePagesAreContiguous` | coding_tools_mcp/server.py:5908-5921 | with appends between pages, pages and skipped bytes form one range without gap or overlap |
| `RollingOutput.OutputStream.AppendChunk` | coding_tools_mcp/processes.py:262-271 | extends the stream and trims the buffer, keeping it the stream's suffix |
| `RollingOutput.OutputStream.SnapshotSinceCursor` | coding_tools_mcp/processes.py:358-368 | reports what is new and advances the cursor to the end |
| `Utf8.DecodeEncode` | coding_tools_mcp/textutils.py:169-186 | decoding an encoded text gives it back, strictly and leniently |
| `Utf8.EncodeDecode` | coding_tools_mcp/patching.py:73-83 | bytes that decode strictly are the encoding of the result |
| `Utf8.CharHolding` | coding_tools_mcp/textutils.py:173-186 | a byte is a continuation byte if and only if it is not the first of its character |
| `Utf8.LossyKeepsText` | coding_tools_mcp/server.py:4309 | text in front of anything is decoded as written |
| `Utf8.LossyMarks` | coding_tools_mcp/server.py:4309 | a byte that starts no character, and a character that stops too early, become one U+FFFD each, and decoding goes on after them |
| `Truncation.JoinSplit` | coding_tools_mcp/textutils.py:46-47 | splitting and joining is the identity |
| `Truncation.SplitJoin` | coding_tools_mcp/textutils.py:89-90 | joining newline-free lines and splitting is the identity |
| `Truncation.CutFromStart` | coding_tools_mcp/textutils.py:169-176 | the longest prefix of whole characters within the bytes |
| `Truncation.CutFromEnd` | coding_tools_mcp/textutils.py:179-186 | the longest suffix of whole characters within the bytes |
| `Truncation.TruncateTextHead` | coding_tools_mcp/textutils.py:37-105 | a prefix within both limits, maximal in whole lines, or in characters of a first line that does not fit; strictly shorter whenever truncated |
| `Truncation.TruncateTextTail` | coding_tools_mcp/textutils.py:108-166 | a suffix of the text less its final newline, within both limits, maximal in whole lines or in characters of the last line |
| `Truncation.HeadDetermined` | coding_tools_mcp/textutils.py:37-105 | that contract has one result |
| `Truncation.TailDetermined` | coding_tools_mcp/textutils.py:108-166 | that contract has one result |
| `Truncation.TailLinesJoin` | coding_tools_mcp/textutils.py:133 | the candidate lines join to the text less its final newline |
| `FilePaging.ReadFile` | coding_tools_mcp/server.py:3231-3347 | each refusal if and only if its cause, in order: a zero byte among the first 4096, a start before line 1, bytes that are not UTF-8; otherwise the page of the selected and cut lines |
| `FilePaging.SelectLines` | coding_tools_mcp/server.py:3271-3294 | takes all requested lines, or just enough to break a limit |
| `FilePaging.FileLinesConcat` | coding_tools_mcp/server.py:3280-3283 | the lines of a file are the file |
| `FilePaging.FileLinesEnd` | coding_tools_mcp/server.py:3276-3280 | lines end at every LF, CR LF and lone CR and nowhere else |
| `FilePaging.CutOfLines` | coding_tools_mcp/server.py:3300-3303 | a head cut of LF lines is whole lines, or a proper part of a first line that does not fit |
| `FilePaging.UncutPage` | coding_tools_mcp/server.py:3295-3316 | a page that is not cut holds the lines from the start to the smaller of `end_line` and the last line, and names no next one |
| `FilePaging.UncutExactly` | coding_tools_mcp/server.py:3271-3304 | a page is cut if and only if the lines asked for exceed a limit |
| `FilePaging.RangedPage` | coding_tools_mcp/server.py:3295-3316 | with an `end_line` a page of an LF file holds whole lines and none past the range, or a part of a first line that does not fit; a cut page names the line after its last |
| `FilePaging.PageDelivers` | coding_tools_mcp/server.py:3301-3316 | a page of an LF file delivers exactly its lines and names the next if and only if its first line fits, for every byte limit |
| `FilePaging.ChainPartitions` | coding_tools_mcp/server.py:3271-3347 | following the next line reads each line once and in order, and cannot go on for more pages than lines |
| `FilePaging.PagesPartitionFile` | coding_tools_mcp/server.py:3231-3347 | the pages of an LF file whose lines fit put together are the file |
| `Heredoc.ParseHeredocDelimiter` | coding_tools_mcp/server.py:8604-8633 | the dash, the blanks and the unquoted word after the operator |
| `Heredoc.PlainOperator` | coding_tools_mcp/server.py:8604-8633 | an unquoted word is its own delimiter |
| `Heredoc.StripHeredocPayloads` | coding_tools_mcp/server.py:8636-8729 | terminates with the reference result: all code kept, bodies of pending heredocs dropped in operator order |
| `Heredoc.BodyEndsAtDelimiter` | coding_tools_mcp/server.py:8716-8725 | a body ends with the first line that is the delimiter, or with the input |
| `Heredoc.StripRemovesBodies` | coding_tools_mcp/server.py:8636-8729 | the result is the command without a list of disjoint stretches, each made of whole lines after a live newline and holding exactly the pending bodies |
| `Heredoc.UnchangedExactly` | coding_tools_mcp/server.py:8636-8729 | the command is unchanged if and only if every body is empty |
| `Heredoc.NoLiveOperatorUnchanged` | coding_tools_mcp/server.py:8645-8710 | a command in which the scan meets no operator outside quotes, escapes, arithmetic and here-strings is unchanged; what these are on text is `HeredocLaws` |
| `Heredoc.NoOperatorUnchanged` | coding_tools_mcp/server.py:8649-8650 | the shortcut for commands without `<<` agrees with the scan |
| `Heredoc.HeredocBodyVanishes` | coding_tools_mcp/server.py:8636-8729 | operator line kept whole, body and closing line gone, what follows scanned as code again |
| `HeredocLaws.SingleQuoted` | coding_tools_mcp/server.py:8659-8681 | a single-quoted stretch is kept whole, and the scan goes on after it as before |
| `HeredocLaws.DoubleQuoted` | coding_tools_mcp/server.py:8664-8686 | so is a double-quoted one, escapes inside it included |
| `HeredocLaws.Escaped` | coding_tools_mcp/server.py:8673-8676 | so is a character after a backslash |
| `HeredocLaws.HereString` | coding_tools_mcp/server.py:8700-8703 | so is `<<<` |
| `HeredocLaws.LoneBracket` | coding_tools_mcp/server.py:8695-8704 | so is a single `(` or `<` |
| `HeredocLaws.Ordinary` | coding_tools_mcp/server.py:8727-8728 | so is every other character |
| `HeredocLaws.Arithmetic` | coding_tools_mcp/server.py:8687-8699 | so is a balanced `((...))`, whatever `<<` it holds |
| `HeredocLaws.SpellingIsRead` | coding_tools_mcp/server.py:8613-8633 | a delimiter written bare, quoted either way or after a backslash is read as itself |
| `HeredocLaws.PartsAreRead` | coding_tools_mcp/server.py:8613-8633 | a delimiter written in several of these ways at once is its parts with the quotes taken off |
| `HeredocLaws.UnclosedQuote` | coding_tools_mcp/server.py:8616-8624 | a quote that is never closed takes the rest of the command |
| `HeredocLaws.WordCharacters` | coding_tools_mcp/server.py:8629-8630 | the ASCII characters that end a word |
| `HeredocLaws.NoWord` | coding_tools_mcp/server.py:8704-8712 | `<<` without a word announces nothing |
| `HeredocLaws.WrittenIsKept` | coding_tools_mcp/server.py:8704-8712 | an operator with optional dash and blanks stays and announces its delimiter |
| `HeredocLaws.ClosingLine` | coding_tools_mcp/server.py:8721-8724 | a closing line may end in carriage returns, and start with tabs if and only if the operator had a dash |
| `HeredocLaws.BodiesVanish` | coding_tools_mcp/server.py:8716-8724 | the bodies of several operators follow each other in order, and all of them go |
| `HeredocLaws.LineEndDropsBodies` | coding_tools_mcp/server.py:8713-8726 | at a live newline they are dropped, and what follows is scanned as code |

## Left out

- Directories, symbolic links, `fsync` and errors from it, hard links: files are a flat map from paths to content and mode, and created parent directories are not tracked.
- `BaseException` during a commit skips rollback (coding_tools_mcp/patching.py:142); only `Exception` failures are modelled.
- AtomicPatch.Commit: assumes that nobody else writes to the files during the commit, and that no name `mkstemp` draws happens to be a target.
- Staging.ApplyPatch: resolution of paths, plan mode and dry runs are not modelled.
- Ledger.PatchLedger.CommitStagedFiles: the deletions mirrored to a sandbox after a commit (coding_tools_mcp/server.py:4340-4352) are not modelled.
- `parse_patch`, unified diffs and risk percentages of `_analyze_patch`: text assembly on top of what is modelled, or resting on `difflib`.
- ContextRuns.LeasesKept: a region that pops several jobs is modelled as that many single pops.
- ContextRuns.WorkspaceExclusivity: applying a context on a Runtime is one step, although the source sets two fields one after the other; a torn pair needs another context on the same Runtime, which the condition excludes.
- GuardRuns.InvAlways: callbacks change only the workspace their Runtime shows; `exec_command`'s own guarded path, and a preflight that runs its callback without comparing because no baseline could be written (coding_tools_mcp/stateful_server.py:696-716), are not modelled.
- StateGuard.Guard.Guarded: one operation at a time; a snapshot or checkpoint that fails after the callback is a step of `GuardRuns` (`Lose`).
- HttpSessions.EveryInterleaving: a request is released once for each time it entered, as the HTTP handlers do.
- FilePaging.PagesPartitionFile: for files without CR; with CR the lines counted by the file iterator and those counted by the cut differ.
- FilePaging.ReadFile: `max_lines` as a way of writing `end_line`, and the byte count taken from the file's metadata, are not modelled.
- RollingOutput.OutputStream.SnapshotSinceCursor: one stream; the second one is handled alike, and cutting the text for display is `Truncation.TruncateTextTail`.
- Git, worktrees, subprocesses, signals, terminals and sandboxes: foreign calls that appear only as values or as steps that may fail.
- OAuth, JSON-RPC dispatch, tool schemas, policy, telemetry, audit log, configuration, tasks, image sniffing: single-branch facts and tables that would only add easy members.
- Secret and path filters based on regular expressions: the expression engine is not part of this model.
