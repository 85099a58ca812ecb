/**
 From patch operations to staged files.  Staging looks at the disk as it is before the
 patch, while a reader of the patch thinks of its operations as done one after another.
 How a hunk list edits a text does not matter here: `edit` stands for any such function.
 */
module Staging {
  import opened Prelude
  import opened FileSystems
  import opened AtomicPatch
  import opened Utf8
  import opened Ledger
  import PatchText

  datatype Operation<H> =
    | Add(path: Path, content: string)
    | Update(path: Path, hunks: H)
    | Delete(path: Path)
    | Move(path: Path, target: Path)
  {
    predicate Touches(p: Path) {
      path == p || (Move? && target == p)
    }
  }

  type Edit<!H> = (string, H) -> Option<string>

  const DEFAULT_MODE := 0x1A4

  // ----- staging -----

  datatype Draft = Draft(path: Path, content: Option<string>, baseline: Option<File>, mode: Option<nat>) {
    function Staged(): StagedFile {
      StagedFile(path, if content.None? then None else Some(Encode(content.value)), baseline, mode)
    }
  }

  /** `staged.get(path)` */
  function Find(staged: seq<Draft>, p: Path): (r: Option<Draft>)
    ensures r.Some? ==> r.value.path == p
  {
    if staged == [] then None else if staged[0].path == p then Some(staged[0]) else Find(staged[1..], p)
  }

  /** `staged[path] = draft`: in place, or at the end. */
  function Put(staged: seq<Draft>, d: Draft): seq<Draft> {
    if staged == [] then [d] else if staged[0].path == d.path then [d] + staged[1..] else [staged[0]] + Put(staged[1..], d)
  }

  function Text(f: Option<File>): Option<string> {
    if f.None? then Some([]) else Decode(f.value.data)
  }

  /** One turn of the loop of `_analyze_patch`; nothing stands for a refused patch. */
  function StageOp<H>(disk: Files, staged: seq<Draft>, op: Operation<H>, edit: Edit<H>): Option<seq<Draft>> {
    match op
    case Add(p, content) =>
      if p in disk then None else Some(Put(staged, Draft(p, Some(content), Get(disk, p), None)))
    case Update(p, hunks) =>
      if p !in disk then None
      else
        var prior := Find(staged, p);
        if prior.Some? && prior.value.content.None? then None
        else
          var baseline := if prior.Some? then prior.value.baseline else Get(disk, p);
          var original := if prior.Some? then prior.value.content else Text(baseline);
          if original.None? then None
          else
            var updated := edit(original.value, hunks);
            if updated.None? then None
            else Some(Put(staged, Draft(p, updated, baseline, if baseline.Some? then Some(baseline.value.mode) else None)))
    case Delete(p) =>
      if p !in disk then None else Some(Put(staged, Draft(p, None, Get(disk, p), None)))
    case Move(p, target) =>
      if p !in disk || target in disk then None
      else
        var text := Text(Get(disk, p));
        if text.None? then None
        else
          Some(Put(Put(staged, Draft(p, None, Get(disk, p), None)),
                   Draft(target, text, Get(disk, target), Some(disk[p].mode))))
  }

  function Stage<H>(disk: Files, ops: seq<Operation<H>>, edit: Edit<H>): Option<seq<Draft>> {
    if ops == [] then Some([])
    else
      var staged := Stage(disk, ops[..|ops| - 1], edit);
      if staged.None? then None else StageOp(disk, staged.value, ops[|ops| - 1], edit)
  }

  // ----- one operation after another -----

  function Perform<H>(files: Files, op: Operation<H>, edit: Edit<H>): Option<Files> {
    match op
    case Add(p, content) =>
      if p in files then None else Some(files[p := File(Encode(content), DEFAULT_MODE)])
    case Update(p, hunks) =>
      if p !in files || Edited(files[p], hunks, edit).None? then None
      else Some(files[p := files[p].(data := Encode(Edited(files[p], hunks, edit).value))])
    case Delete(p) =>
      if p !in files then None else Some(files - {p})
    case Move(p, target) =>
      if Movable(files, p, target) then Some((files - {p})[target := files[p]]) else None
  }

  function Edited<H>(f: File, hunks: H, edit: Edit<H>): Option<string> {
    var text := Decode(f.data);
    if text.None? then None else edit(text.value, hunks)
  }

  predicate Movable(files: Files, p: Path, target: Path) {
    p in files && target !in files && Decode(files[p].data).Some?
  }

  function Run<H>(files: Files, ops: seq<Operation<H>>, edit: Edit<H>): Option<Files> {
    if ops == [] then Some(files)
    else
      var before := Run(files, ops[..|ops| - 1], edit);
      if before.None? then None else Perform(before.value, ops[|ops| - 1], edit)
  }

  // ----- what the staged files amount to -----

  function Wanted(d: Draft): Option<File> {
    d.Staged().Wanted()
  }

  function Seen(disk: Files, staged: seq<Draft>, p: Path): Option<File> {
    var d := Find(staged, p);
    if d.Some? then Wanted(d.value) else Get(disk, p)
  }

  /** `files` is the disk with the staged changes made. */
  ghost predicate Shows(disk: Files, staged: seq<Draft>, files: Files) {
    forall p {:trigger Seen(disk, staged, p)} :: Get(files, p) == Seen(disk, staged, p)
  }

  ghost predicate WellDrafted(disk: Files, d: Draft) {
    && d.baseline == Get(disk, d.path)
    && (d.path in disk && d.content.Some? ==> d.mode == Some(disk[d.path].mode))
  }

  ghost predicate WellStaged(disk: Files, staged: seq<Draft>) {
    && (forall i, j :: 0 <= i < j < |staged| ==> staged[i].path != staged[j].path)
    && (forall i :: 0 <= i < |staged| ==> WellDrafted(disk, staged[i]))
  }

  lemma {:induction false} FindPut(staged: seq<Draft>, d: Draft, p: Path)
    ensures Find(Put(staged, d), p) == if p == d.path then Some(d) else Find(staged, p)
    decreases |staged|
  {
    if staged != [] && staged[0].path != d.path { FindPut(staged[1..], d, p); }
  }

  lemma {:induction false} FindIndex(staged: seq<Draft>, p: Path)
    ensures Find(staged, p).Some? ==> Find(staged, p).value in staged
    ensures Find(staged, p).None? ==> forall i :: 0 <= i < |staged| ==> staged[i].path != p
    decreases |staged|
  {
    if staged != [] && staged[0].path != p { FindIndex(staged[1..], p); }
  }

  lemma {:induction false} PutWellStaged(disk: Files, staged: seq<Draft>, d: Draft)
    requires WellStaged(disk, staged) && WellDrafted(disk, d)
    ensures WellStaged(disk, Put(staged, d))
    ensures forall i :: 0 <= i < |Put(staged, d)| ==> Put(staged, d)[i] == d || Put(staged, d)[i] in staged
    decreases |staged|
  {
    if staged != [] && staged[0].path != d.path {
      PutWellStaged(disk, staged[1..], d);
      var r := Put(staged[1..], d);
      assert forall i :: 0 <= i < |r| ==> r[i].path != staged[0].path;
    }
  }

  lemma PutShows(disk: Files, staged: seq<Draft>, files: Files, d: Draft, files': Files)
    requires Shows(disk, staged, files)
    requires forall q :: q != d.path ==> Get(files', q) == Get(files, q)
    ensures Shows(disk, Put(staged, d), files') <==> Get(files', d.path) == Wanted(d)
  {
    hide Find, Put;
    FindPut(staged, d, d.path);
    assert Seen(disk, Put(staged, d), d.path) == Wanted(d);
    forall q ensures q != d.path ==> Get(files', q) == Seen(disk, Put(staged, d), q) {
      FindPut(staged, d, q);
      assert Get(files, q) == Seen(disk, staged, q);
    }
  }

  /** The two readings of an operation agree: both refuse it, or both end with the same files. */
  ghost predicate Agree(disk: Files, staged: Option<seq<Draft>>, files: Option<Files>) {
    (staged.Some? <==> files.Some?) && (staged.Some? ==> Shows(disk, staged.value, files.value))
  }

  /** What the operation looks at is on the disk as it would be after the operations before it. */
  predicate SeesSame<H>(disk: Files, files: Files, op: Operation<H>, edit: Edit<H>) {
    match op
    case Add(p, _) => p in disk <==> p in files
    case Update(p, hunks) => p in disk || p !in files || Edited(files[p], hunks, edit).None?
    case Delete(p) => p in disk <==> p in files
    case Move(p, target) =>
      (Movable(disk, p, target) <==> Movable(files, p, target)) && (Movable(disk, p, target) ==> disk[p] == files[p])
  }

  lemma AddAgrees<H>(disk: Files, staged: seq<Draft>, files: Files, op: Operation<H>, edit: Edit<H>)
    requires Shows(disk, staged, files) && op.Add?
    ensures Agree(disk, StageOp(disk, staged, op, edit), Perform(files, op, edit)) <==> SeesSame(disk, files, op, edit)
  {
    hide Encode, Put, Find, Shows;
    if op.path !in disk && op.path !in files {
      PutShows(disk, staged, files, Draft(op.path, Some(op.content), None, None), Perform(files, op, edit).value);
    }
  }

  lemma DeleteAgrees<H>(disk: Files, staged: seq<Draft>, files: Files, op: Operation<H>, edit: Edit<H>)
    requires Shows(disk, staged, files) && op.Delete?
    ensures Agree(disk, StageOp(disk, staged, op, edit), Perform(files, op, edit)) <==> SeesSame(disk, files, op, edit)
  {
    hide Encode, Put, Find, Shows;
    if op.path in disk && op.path in files {
      PutShows(disk, staged, files, Draft(op.path, None, Get(disk, op.path), None), files - {op.path});
    }
  }

  lemma UpdateAgrees<H>(disk: Files, staged: seq<Draft>, files: Files, op: Operation<H>, edit: Edit<H>)
    requires WellStaged(disk, staged) && Shows(disk, staged, files) && op.Update?
    ensures Agree(disk, StageOp(disk, staged, op, edit), Perform(files, op, edit)) <==> SeesSame(disk, files, op, edit)
  {
    hide Encode, Decode, Put, Find, WellStaged;
    var p := op.path;
    assert Get(files, p) == Seen(disk, staged, p);
    FoundIsWellDrafted(disk, staged, p);
    var prior := Find(staged, p);
    if p in disk && prior.Some? && prior.value.content.Some? { DecodeEncode(prior.value.content.value); }
    if p in disk && p in files && Edited(files[p], op.hunks, edit).Some? {
      var d := Draft(p, Edited(files[p], op.hunks, edit), Get(disk, p), Some(disk[p].mode));
      assert StageOp(disk, staged, op, edit) == Some(Put(staged, d));
      PutShows(disk, staged, files, d, Perform(files, op, edit).value);
    }
  }

  lemma FoundIsWellDrafted(disk: Files, staged: seq<Draft>, p: Path)
    requires WellStaged(disk, staged)
    ensures Find(staged, p).Some? ==> WellDrafted(disk, Find(staged, p).value)
  {
    FindIndex(staged, p);
  }

  lemma MoveAgrees<H>(disk: Files, staged: seq<Draft>, files: Files, op: Operation<H>, edit: Edit<H>)
    requires Shows(disk, staged, files) && op.Move?
    ensures Agree(disk, StageOp(disk, staged, op, edit), Perform(files, op, edit)) <==> SeesSame(disk, files, op, edit)
  {
    hide Encode, Decode, Put, Find, Shows;
    var p, target := op.path, op.target;
    if Movable(disk, p, target) && Movable(files, p, target) {
      EncodeDecode(disk[p].data);
      var gone := Draft(p, None, Get(disk, p), None);
      var come := Draft(target, Decode(disk[p].data), None, Some(disk[p].mode));
      PutShows(disk, staged, files, gone, files - {p});
      PutShows(disk, Put(staged, gone), files - {p}, come, Perform(files, op, edit).value);
    }
  }

  /** Exactly when staging an operation means what doing it next would mean. */
  lemma StepAgrees<H>(disk: Files, staged: seq<Draft>, files: Files, op: Operation<H>, edit: Edit<H>)
    requires WellStaged(disk, staged) && Shows(disk, staged, files)
    ensures Agree(disk, StageOp(disk, staged, op, edit), Perform(files, op, edit)) <==> SeesSame(disk, files, op, edit)
  {
    hide Shows, WellStaged, StageOp, Perform, SeesSame;
    match op
    case Add(_, _) => AddAgrees(disk, staged, files, op, edit);
    case Update(_, _) => UpdateAgrees(disk, staged, files, op, edit);
    case Delete(_) => DeleteAgrees(disk, staged, files, op, edit);
    case Move(_, _) => MoveAgrees(disk, staged, files, op, edit);
  }

  lemma StageOpWellStaged<H>(disk: Files, staged: seq<Draft>, op: Operation<H>, edit: Edit<H>)
    requires WellStaged(disk, staged)
    ensures var r := StageOp(disk, staged, op, edit); r.Some? ==> WellStaged(disk, r.value)
  {
    hide Encode, Decode, Put, Find, WellStaged;
    FoundIsWellDrafted(disk, staged, op.path);
    forall d | WellDrafted(disk, d) ensures WellStaged(disk, Put(staged, d)) { PutWellStaged(disk, staged, d); }
    if op.Move? && op.path in disk && op.target !in disk {
      var gone := Draft(op.path, None, Get(disk, op.path), None);
      PutWellStaged(disk, staged, gone);
      PutWellStaged(disk, Put(staged, gone), Draft(op.target, Text(Get(disk, op.path)), None, Some(disk[op.path].mode)));
    }
  }

  // ----- whole patches -----

  /** Operations on one path: any number of updates, then perhaps a delete; or one operation of any kind. */
  ghost predicate Orderly<H(!new)>(ops: seq<Operation<H>>) {
    forall i, j, p :: 0 <= i < j < |ops| && ops[i].Touches(p) && ops[j].Touches(p) ==>
                        ops[i].Update? && (ops[j].Update? || ops[j].Delete?)
  }

  /** What staging has recorded about path `p` after the operations `ops`. */
  ghost predicate Recorded<H(!new)>(disk: Files, ops: seq<Operation<H>>, staged: seq<Draft>, p: Path) {
    && ((forall i :: 0 <= i < |ops| ==> !ops[i].Touches(p)) ==> Find(staged, p).None?)
    && ((forall i :: 0 <= i < |ops| && ops[i].Touches(p) ==> ops[i].Update?) ==>
          Find(staged, p).Some? ==> p in disk && Find(staged, p).value.content.Some?)
  }

  lemma RecordedAfter<H(!new)>(disk: Files, ops: seq<Operation<H>>, op: Operation<H>, staged: seq<Draft>, edit: Edit<H>, p: Path)
    requires Recorded(disk, ops, staged, p) && StageOp(disk, staged, op, edit).Some?
    ensures Recorded(disk, ops + [op], StageOp(disk, staged, op, edit).value, p)
  {
    hide Put, Find, Encode, Decode;
    forall d ensures Find(Put(staged, d), p) == if p == d.path then Some(d) else Find(staged, p) { FindPut(staged, d, p); }
    if op.Move? {
      var gone := Draft(op.path, None, Get(disk, op.path), None);
      FindPut(Put(staged, gone), Draft(op.target, Text(Get(disk, op.path)), Get(disk, op.target), Some(disk[op.path].mode)), p);
    }
    var all := ops + [op];
    assert all[|ops|] == op;
    assert forall i :: 0 <= i < |ops| ==> all[i] == ops[i];
  }

  lemma OrderlySees<H(!new)>(
    disk: Files, ops: seq<Operation<H>>, op: Operation<H>, staged: seq<Draft>, files: Files, edit: Edit<H>)
    requires Orderly(ops + [op]) && Shows(disk, staged, files)
    requires Recorded(disk, ops, staged, op.path) && (op.Move? ==> Recorded(disk, ops, staged, op.target))
    ensures SeesSame(disk, files, op, edit)
  {
    hide Find, Encode, Decode;
    var all := ops + [op];
    assert all[|ops|] == op;
    assert forall i :: 0 <= i < |ops| ==> all[i] == ops[i];
    assert Get(files, op.path) == Seen(disk, staged, op.path);
    if op.Move? { assert Get(files, op.target) == Seen(disk, staged, op.target); }
    forall i, p | 0 <= i < |ops| && ops[i].Touches(p) && op.Touches(p)
      ensures ops[i].Update? && (op.Update? || op.Delete?)
    {
      assert all[i].Touches(p) && all[|ops|].Touches(p);
    }
  }

  lemma LastOp<H>(disk: Files, ops: seq<Operation<H>>, k: nat, edit: Edit<H>)
    requires k < |ops|
    ensures Stage(disk, ops[..k + 1], edit) ==
            if Stage(disk, ops[..k], edit).None? then None else StageOp(disk, Stage(disk, ops[..k], edit).value, ops[k], edit)
    ensures Run(disk, ops[..k + 1], edit) ==
            if Run(disk, ops[..k], edit).None? then None else Perform(Run(disk, ops[..k], edit).value, ops[k], edit)
  {
    assert ops[..k + 1][..k] == ops[..k];
  }

  lemma {:induction false} StageWellStaged<H>(disk: Files, ops: seq<Operation<H>>, k: nat, edit: Edit<H>)
    requires k <= |ops|
    ensures var r := Stage(disk, ops[..k], edit); r.Some? ==> WellStaged(disk, r.value)
  {
    hide StageOp;
    if k > 0 {
      LastOp(disk, ops, k - 1, edit);
      StageWellStaged(disk, ops, k - 1, edit);
      var before := Stage(disk, ops[..k - 1], edit);
      if before.Some? { StageOpWellStaged(disk, before.value, ops[k - 1], edit); }
    }
  }

  ghost predicate AgreeAfter<H>(disk: Files, ops: seq<Operation<H>>, edit: Edit<H>, k: nat)
    requires k <= |ops|
  {
    Agree(disk, Stage(disk, ops[..k], edit), Run(disk, ops[..k], edit))
  }

  ghost predicate SeesSameAt<H>(disk: Files, ops: seq<Operation<H>>, edit: Edit<H>, k: nat)
    requires k < |ops|
  {
    var files := Run(disk, ops[..k], edit);
    files.Some? ==> SeesSame(disk, files.value, ops[k], edit)
  }

  lemma OneMoreOp<H>(disk: Files, ops: seq<Operation<H>>, edit: Edit<H>, k: nat)
    requires k < |ops| && AgreeAfter(disk, ops, edit, k)
    ensures AgreeAfter(disk, ops, edit, k + 1) <==> SeesSameAt(disk, ops, edit, k)
  {
    hide Stage, Run, StageOp, Perform, SeesSame, Shows, WellStaged;
    LastOp(disk, ops, k, edit);
    StageWellStaged(disk, ops, k, edit);
    var staged, files := Stage(disk, ops[..k], edit), Run(disk, ops[..k], edit);
    if files.Some? { StepAgrees(disk, staged.value, files.value, ops[k], edit); }
  }

  /** Staging follows sequential application all along exactly when each operation sees on the disk what it would see in sequence. */
  lemma StagingFollowsSequence<H(!new)>(disk: Files, ops: seq<Operation<H>>, edit: Edit<H>)
    ensures (forall k :: 0 <= k <= |ops| ==> AgreeAfter(disk, ops, edit, k)) <==>
            (forall k :: 0 <= k < |ops| ==> SeesSameAt(disk, ops, edit, k))
  {
    hide AgreeAfter, SeesSameAt;
    AgreeAtStart(disk, ops, edit);
    if forall k :: 0 <= k <= |ops| ==> AgreeAfter(disk, ops, edit, k) {
      forall k | 0 <= k < |ops| ensures SeesSameAt(disk, ops, edit, k) { OneMoreOp(disk, ops, edit, k); }
    }
    if forall k :: 0 <= k < |ops| ==> SeesSameAt(disk, ops, edit, k) {
      for k := 0 to |ops|
        invariant forall j :: 0 <= j <= k ==> AgreeAfter(disk, ops, edit, j)
      {
        OneMoreOp(disk, ops, edit, k);
      }
    }
  }

  lemma AgreeAtStart<H>(disk: Files, ops: seq<Operation<H>>, edit: Edit<H>)
    ensures AgreeAfter(disk, ops, edit, 0)
  {}

  lemma {:induction false} AllRecorded<H(!new)>(disk: Files, ops: seq<Operation<H>>, edit: Edit<H>, k: nat, p: Path)
    requires k <= |ops| && Stage(disk, ops[..k], edit).Some?
    ensures Recorded(disk, ops[..k], Stage(disk, ops[..k], edit).value, p)
  {
    hide *;
    if k > 0 {
      LastOp(disk, ops, k - 1, edit);
      AllRecorded(disk, ops, edit, k - 1, p);
      RecordedAfter(disk, ops[..k - 1], ops[k - 1], Stage(disk, ops[..k - 1], edit).value, edit, p);
      assert ops[..k - 1] + [ops[k - 1]] == ops[..k];
    } else {
      NothingRecorded(disk, ops[..k], edit, p);
    }
  }

  lemma NothingRecorded<H(!new)>(disk: Files, ops: seq<Operation<H>>, edit: Edit<H>, p: Path)
    requires ops == []
    ensures Stage(disk, ops, edit) == Some([]) && Recorded(disk, ops, [], p)
  {}

  /** An orderly patch: staged and committed, it does what its operations do one after another. */
  lemma OrderlyIsSequential<H(!new)>(disk: Files, ops: seq<Operation<H>>, edit: Edit<H>)
    requires Orderly(ops)
    ensures Agree(disk, Stage(disk, ops, edit), Run(disk, ops, edit))
  {
    hide AgreeAfter, Orderly;
    AgreeAtStart(disk, ops, edit);
    for k := 0 to |ops|
      invariant AgreeAfter(disk, ops, edit, k)
    {
      OrderlySeesAt(disk, ops, edit, k);
      OneMoreOp(disk, ops, edit, k);
    }
    AgreeAtEnd(disk, ops, edit);
  }

  lemma AgreeAtEnd<H>(disk: Files, ops: seq<Operation<H>>, edit: Edit<H>)
    requires AgreeAfter(disk, ops, edit, |ops|)
    ensures Agree(disk, Stage(disk, ops, edit), Run(disk, ops, edit))
  {
    assert ops[..|ops|] == ops;
  }

  lemma OrderlySeesAt<H(!new)>(disk: Files, ops: seq<Operation<H>>, edit: Edit<H>, k: nat)
    requires Orderly(ops) && k < |ops| && AgreeAfter(disk, ops, edit, k)
    ensures SeesSameAt(disk, ops, edit, k)
  {
    hide Stage, Run, SeesSame, Shows, Recorded;
    var staged, files := Stage(disk, ops[..k], edit), Run(disk, ops[..k], edit);
    if files.Some? {
      AllRecorded(disk, ops, edit, k, ops[k].path);
      if ops[k].Move? { AllRecorded(disk, ops, edit, k, ops[k].target); }
      assert ops[..k] + [ops[k]] == ops[..k + 1];
      OrderlySees(disk, ops[..k], ops[k], staged.value, files.value, edit);
    }
  }

  // ----- where the two readings part -----

  /** An update followed by a move of the same file: the update is lost. */
  lemma UpdateThenMoveLosesUpdate<H>(disk: Files, a: Path, b: Path, hunks: H, edit: Edit<H>)
    requires a in disk && b !in disk && Decode(disk[a].data).Some?
    requires var u := Edited(disk[a], hunks, edit); u.Some? && u != Decode(disk[a].data)
    ensures var ops := [Update(a, hunks), Move(a, b)];
            && Stage(disk, ops, edit).Some? && Run(disk, ops, edit).Some?
            && Seen(disk, Stage(disk, ops, edit).value, b) == Some(disk[a])
            && Get(Run(disk, ops, edit).value, b) == Some(disk[a].(data := Encode(Edited(disk[a], hunks, edit).value)))
            && Get(Run(disk, ops, edit).value, b) != Some(disk[a])
  {
    hide Encode, Decode, Put, Find;
    var up: Operation<H>, move: Operation<H> := Update(a, hunks), Move(a, b);
    var ops, u := [up, move], Edited(disk[a], hunks, edit).value;
    LastOp(disk, ops, 0, edit);
    LastOp(disk, ops, 1, edit);
    assert ops[..2] == ops && ops[..0] == [];
    NothingFound(a);
    DecodeEncode(u);
    EncodeDecode(disk[a].data);
    var d := Draft(a, Some(u), Some(disk[a]), Some(disk[a].mode));
    var gone := Draft(a, None, Some(disk[a]), None);
    FindPut(Put(Put([], d), gone), Draft(b, Decode(disk[a].data), None, Some(disk[a].mode)), b);
  }

  lemma NothingFound(p: Path)
    ensures Find([], p) == None
  {}

  /** Two moves to one target: staged without complaint, although the second one would be refused. */
  lemma TwoMovesToOneTarget<H>(disk: Files, a: Path, b: Path, c: Path, edit: Edit<H>)
    requires a != b && a in disk && b in disk && c !in disk && Decode(disk[a].data).Some? && Decode(disk[b].data).Some?
    ensures var ops := [Move(a, c), Move(b, c)];
            && Run(disk, ops, edit).None?
            && Stage(disk, ops, edit).Some? && Seen(disk, Stage(disk, ops, edit).value, a) == None
            && Seen(disk, Stage(disk, ops, edit).value, c) == Some(disk[b])
  {
    hide Encode, Decode, Put, Find;
    var one: Operation<H>, two: Operation<H> := Move(a, c), Move(b, c);
    var ops := [one, two];
    LastOp(disk, ops, 0, edit);
    LastOp(disk, ops, 1, edit);
    assert ops[..2] == ops && ops[..0] == [];
    EncodeDecode(disk[b].data);
    var aGone, bGone := Draft(a, None, Some(disk[a]), None), Draft(b, None, Some(disk[b]), None);
    var first := Draft(c, Decode(disk[a].data), None, Some(disk[a].mode));
    var second := Draft(c, Decode(disk[b].data), None, Some(disk[b].mode));
    var s1 := Put([], aGone);
    var s2 := Put(s1, first);
    var s3 := Put(s2, bGone);
    FindPut([], aGone, a);
    FindPut(s1, first, a);
    FindPut(s2, bGone, a);
    FindPut(s3, second, a);
    FindPut(s3, second, c);
  }

  // ----- the tool -----

  method AnalyzePatch<H>(disk: Files, ops: seq<Operation<H>>, edit: Edit<H>) returns (r: Option<seq<Draft>>)
    ensures r == if ops == [] then None else Stage(disk, ops, edit)
  {
    if ops == [] { return None; }
    var staged: seq<Draft> := [];
    for k := 0 to |ops|
      invariant Stage(disk, ops[..k], edit) == Some(staged)
    {
      LastOp(disk, ops, k, edit);
      var next := StageOp(disk, staged, ops[k], edit);
      if next.None? {
        StageStaysRefused(disk, ops, k + 1, edit);
        return None;
      }
      staged := next.value;
    }
    assert ops[..|ops|] == ops;
    return Some(staged);
  }

  lemma {:induction false} StageStaysRefused<H>(disk: Files, ops: seq<Operation<H>>, k: nat, edit: Edit<H>)
    requires k <= |ops| && Stage(disk, ops[..k], edit).None?
    ensures Stage(disk, ops, edit).None?
    decreases |ops| - k
  {
    if k < |ops| {
      LastOp(disk, ops, k, edit);
      StageStaysRefused(disk, ops, k + 1, edit);
    } else {
      assert ops[..k] == ops;
    }
  }

  function Changes(staged: seq<Draft>): (cs: seq<StagedFile>)
    ensures |cs| == |staged| && forall i :: 0 <= i < |cs| ==> cs[i] == staged[i].Staged()
  {
    seq(|staged|, i requires 0 <= i < |staged| => staged[i].Staged())
  }

  lemma PatchedShows(disk: Files, staged: seq<Draft>, files: Files)
    requires WellStaged(disk, staged) && ExactlyPatched(Changes(staged), disk, files)
    ensures Shows(disk, staged, files)
  {
    hide Encode, Find;
    var cs := Changes(staged);
    forall p ensures Get(files, p) == Seen(disk, staged, p) {
      FindIndex(staged, p);
      if Find(staged, p).Some? {
        var i :| 0 <= i < |staged| && staged[i] == Find(staged, p).value;
        assert Get(files, cs[i].path) == cs[i].Wanted();
      } else {
        assert !Target(cs, p);
      }
    }
  }

  lemma SameFiles(disk: Files, staged: seq<Draft>, a: Files, b: Files)
    requires Shows(disk, staged, a) && Shows(disk, staged, b)
    ensures a == b
  {
    forall p ensures Get(a, p) == Get(b, p) { assert Get(a, p) == Seen(disk, staged, p); }
    assert forall p :: p in a <==> Get(a, p).Some?;
    assert forall p :: p in b <==> Get(b, p).Some?;
    forall p | p in a ensures p in b && a[p] == b[p] { assert Get(a, p) == Get(b, p); }
    forall p | p in b ensures p in a { assert Get(a, p) == Get(b, p); }
  }

  /** No name that `mkstemp` comes up with is in the patch. */
  ghost predicate UndrawnOps<H>(fs: FileSystem, ops: seq<Operation<H>>) {
    forall i :: 0 <= i < |ops| ==> !fs.Draws(ops[i].path) && (ops[i].Move? ==> !fs.Draws(ops[i].target))
  }

  lemma {:induction false} StagedAreUndrawn<H>(fs: FileSystem, disk: Files, ops: seq<Operation<H>>, edit: Edit<H>, k: nat)
    requires UndrawnOps(fs, ops) && k <= |ops| && Stage(disk, ops[..k], edit).Some?
    ensures UndrawnDrafts(fs, Stage(disk, ops[..k], edit).value)
  {
    hide Hidden, Find, Put, Encode, Decode, UndrawnDrafts;
    if k > 0 {
      LastOp(disk, ops, k - 1, edit);
      StagedAreUndrawn(fs, disk, ops, edit, k - 1);
      var s, op := Stage(disk, ops[..k - 1], edit).value, ops[k - 1];
      forall d: Draft | d.path == op.path ensures UndrawnDrafts(fs, Put(s, d)) { PutUndrawn(fs, s, d); }
      if op.Move? {
        PutUndrawn(fs, Put(s, Draft(op.path, None, Get(disk, op.path), None)),
                   Draft(op.target, Text(Get(disk, op.path)), Get(disk, op.target), Some(disk[op.path].mode)));
      }
    } else {
      NoDraftsUndrawn(fs);
    }
  }

  ghost predicate UndrawnDrafts(fs: FileSystem, staged: seq<Draft>) {
    forall i :: 0 <= i < |staged| ==> !fs.Draws(staged[i].path)
  }

  lemma NoDraftsUndrawn(fs: FileSystem)
    ensures UndrawnDrafts(fs, [])
  {}

  lemma {:induction false} PutUndrawn(fs: FileSystem, staged: seq<Draft>, d: Draft)
    requires UndrawnDrafts(fs, staged) && !fs.Draws(d.path)
    ensures UndrawnDrafts(fs, Put(staged, d))
    decreases |staged|
  {
    hide Hidden;
    if staged != [] && staged[0].path != d.path { PutUndrawn(fs, staged[1..], d); }
  }

  datatype PatchResult = Refused | Attempted(result: CommitResult)

  /** `apply_patch`: analysis and commit under the patch lock. */
  /** The outcome of a commit: the ledger's new record, and what a committed path and any other path holds. */
  ghost predicate TakesEffect(disk: Files, staged: seq<Draft>, files: Files, outcome: Outcome, past: seq<Patch>, past': seq<Patch>) {
    && past' == past + [Patch(disk, Changes(staged), outcome.Committed?)]
    && OthersUntouched(Changes(staged), disk, files)
    && (outcome.Committed? ==> forall i :: 0 <= i < |staged| ==> Get(files, staged[i].path) == Wanted(staged[i]))
  }

  lemma EffectOf(disk: Files, staged: seq<Draft>, files: Files, outcome: Outcome, past: seq<Patch>, past': seq<Patch>)
    requires past' == past + [Patch(disk, Changes(staged), outcome.Committed?)]
    requires OthersUntouched(Changes(staged), disk, files) && (outcome.Committed? ==> AllInstalled(Changes(staged), files))
    ensures TakesEffect(disk, staged, files, outcome, past, past')
  {
    hide OthersUntouched;
    var changes := Changes(staged);
    assert forall i :: 0 <= i < |staged| ==> changes[i] == staged[i].Staged();
  }

  method ApplyPatch<H(!new)>(fs: FileSystem, ledger: PatchLedger, ops: seq<Operation<H>>, edit: Edit<H>) returns (r: PatchResult)
    requires UndrawnOps(fs, ops) && ledger.Valid()
    modifies fs, ledger
    ensures ledger.Valid()
    ensures r.Refused? <==> ops == [] || Stage(old(fs.files), ops, edit).None?
    ensures r.Refused? || r.result.LimitReached? ==>
              fs.files == old(fs.files) && ledger.entries == old(ledger.entries) && ledger.past == old(ledger.past)
    ensures r.Attempted? && r.result.Tried? && fs.faults == old(fs.faults) ==> r.result.outcome.Committed?
    ensures old(fs.failed) <= fs.failed
    // What is committed is what was staged, and the ledger learns of it.
    ensures r.Attempted? ==>
              && (r.result.LimitReached? <==> OverLimit(old(ledger.entries), old(ledger.bytes), Changes(Stage(old(fs.files), ops, edit).value)))
              && (r.result.Tried? ==> TakesEffect(old(fs.files), Stage(old(fs.files), ops, edit).value, fs.files, r.result.outcome, old(ledger.past), ledger.past))
              && LeftBehind(Changes(Stage(old(fs.files), ops, edit).value), old(fs.files), fs.files, fs.failed[|old(fs.failed)|..],
                            if r.result.Tried? && r.result.outcome.RollbackFailed? then r.result.outcome.recovery else map[])
    // An orderly patch that meets no fault leaves what its operations leave one after another.
    ensures Orderly(ops) && ops != [] && Run(old(fs.files), ops, edit).None? ==> r.Refused?
    ensures Orderly(ops) && r.Attempted? && r.result.Tried? && fs.faults == old(fs.faults) ==>
              Run(old(fs.files), ops, edit) == Some(fs.files)
    // Whatever fails: all of the patch, or none of it, or every lost original in a named backup.
    ensures r.Attempted? && r.result.Tried? ==>
              match r.result.outcome
              case Committed => Orderly(ops) ==> SameVisible(Changes(Stage(old(fs.files), ops, edit).value), fs.files, Run(old(fs.files), ops, edit).value)
              case RollbackFailed(_, recovery) =>
                && Recoverable(Changes(Stage(old(fs.files), ops, edit).value), old(fs.files), recovery, fs.files)
                && OthersUntouched(Changes(Stage(old(fs.files), ops, edit).value), old(fs.files), fs.files)
                && RolledBackElsewhere(Changes(Stage(old(fs.files), ops, edit).value), old(fs.files), r.result.outcome, fs.files)
                && fs.faults > old(fs.faults) + |r.result.outcome.errors|
              case _ => SameVisible(Changes(Stage(old(fs.files), ops, edit).value), fs.files, old(fs.files))
  {
    hide TakesEffect, LeftBehind, OverLimit, Stage, Run, Orderly, Shows, SameVisible, AllInstalled, AllOriginal, OthersUntouched, Recoverable, NeverDrawn, UndrawnDrafts, RolledBackElsewhere;
    var staged := AnalyzePatch(fs.files, ops, edit);
    if Orderly(ops) { OrderlyIsSequential(fs.files, ops, edit); }
    if staged.None? { return Refused; }
    ghost var disk := fs.files;
    assert ops[..|ops|] == ops;
    StageWellStaged(disk, ops, |ops|, edit);
    StagedAreUndrawn(fs, disk, ops, edit, |ops|);
    var changes := Changes(staged.value);
    ReadyToCommit(disk, staged.value);
    NoneDrawn(fs, staged.value);
    var result := ledger.CommitStagedFiles(fs, changes);
    if result.Tried? { EffectOf(disk, staged.value, fs.files, result.outcome, old(ledger.past), ledger.past); }
    if result.Tried? { VisibleOutcome(disk, staged.value, fs.files, ops, edit); }
    if result.Tried? && fs.faults == old(fs.faults) {
      PatchedShows(disk, staged.value, fs.files);
      if Orderly(ops) { SameFiles(disk, staged.value, fs.files, Run(disk, ops, edit).value); }
    }
    r := Attempted(result);
  }

  /** Apart from hidden names, unless the patch is about them, the two hold the same files. */
  ghost predicate SameVisible(changes: seq<StagedFile>, a: Files, b: Files) {
    forall p {:trigger Get(a, p)} :: !Hidden(p) || Target(changes, p) ==> Get(a, p) == Get(b, p)
  }

  lemma VisibleOutcome<H(!new)>(disk: Files, staged: seq<Draft>, files: Files, ops: seq<Operation<H>>, edit: Edit<H>)
    requires WellStaged(disk, staged) && OthersUntouched(Changes(staged), disk, files)
    ensures AllOriginal(Changes(staged), disk, files) ==> SameVisible(Changes(staged), files, disk)
    ensures AllInstalled(Changes(staged), files) && Run(disk, ops, edit).Some? && Shows(disk, staged, Run(disk, ops, edit).value) ==>
              SameVisible(Changes(staged), files, Run(disk, ops, edit).value)
  {
    hide Run, Hidden, OthersUntouched, WellStaged, AllOriginal, AllInstalled, Target;
    var cs := Changes(staged);
    if AllOriginal(cs, disk, files) {
      forall p | !Hidden(p) || Target(cs, p) ensures Get(files, p) == Get(disk, p) { VisibleAt(disk, staged, files, p); }
    }
    if AllInstalled(cs, files) && Run(disk, ops, edit).Some? && Shows(disk, staged, Run(disk, ops, edit).value) {
      var run := Run(disk, ops, edit).value;
      forall p | !Hidden(p) || Target(cs, p) ensures Get(files, p) == Get(run, p) {
        VisibleAt(disk, staged, files, p);
        assert Get(run, p) == Seen(disk, staged, p);
      }
    }
  }

  lemma VisibleAt(disk: Files, staged: seq<Draft>, files: Files, p: Path)
    requires WellStaged(disk, staged) && OthersUntouched(Changes(staged), disk, files)
    requires !Hidden(p) || Target(Changes(staged), p)
    ensures AllOriginal(Changes(staged), disk, files) ==> Get(files, p) == Get(disk, p)
    ensures AllInstalled(Changes(staged), files) ==> Get(files, p) == Seen(disk, staged, p)
  {
    hide Encode, Find, Hidden;
    var cs := Changes(staged);
    FindIndex(staged, p);
    if Find(staged, p).Some? {
      var i :| 0 <= i < |staged| && staged[i] == Find(staged, p).value;
      assert cs[i].path == p;
    } else {
      assert !Target(cs, p);
    }
  }

  lemma NoneDrawn(fs: FileSystem, staged: seq<Draft>)
    requires UndrawnDrafts(fs, staged)
    ensures NeverDrawn(fs, Changes(staged))
  {}

  lemma ReadyToCommit(disk: Files, staged: seq<Draft>)
    requires WellStaged(disk, staged)
    ensures Distinct(Changes(staged)) && BaselinesHold(Changes(staged), disk)
  {}

  /** The tool as it is: updates are edited by `apply_update_hunks`. */
  method ApplyTextPatch(fs: FileSystem, ledger: PatchLedger, ops: seq<Operation<seq<seq<string>>>>) returns (r: PatchResult)
    requires UndrawnOps(fs, ops) && ledger.Valid()
    modifies fs, ledger
    ensures ledger.Valid()
    ensures r.Refused? <==> ops == [] || Stage(old(fs.files), ops, PatchText.EditText).None?
    ensures r.Refused? || r.result.LimitReached? ==>
              fs.files == old(fs.files) && ledger.entries == old(ledger.entries) && ledger.past == old(ledger.past)
    ensures r.Attempted? && r.result.Tried? && fs.faults == old(fs.faults) ==> r.result.outcome.Committed?
    ensures old(fs.failed) <= fs.failed
    // What is committed is what was staged, and the ledger learns of it.
    ensures r.Attempted? ==>
              && (r.result.LimitReached? <==> OverLimit(old(ledger.entries), old(ledger.bytes), Changes(Stage(old(fs.files), ops, PatchText.EditText).value)))
              && (r.result.Tried? ==> TakesEffect(old(fs.files), Stage(old(fs.files), ops, PatchText.EditText).value, fs.files, r.result.outcome, old(ledger.past), ledger.past))
              && LeftBehind(Changes(Stage(old(fs.files), ops, PatchText.EditText).value), old(fs.files), fs.files, fs.failed[|old(fs.failed)|..],
                            if r.result.Tried? && r.result.outcome.RollbackFailed? then r.result.outcome.recovery else map[])
    ensures Orderly(ops) && ops != [] && Run(old(fs.files), ops, PatchText.EditText).None? ==> r.Refused?
    ensures Orderly(ops) && r.Attempted? && r.result.Tried? && fs.faults == old(fs.faults) ==>
              Run(old(fs.files), ops, PatchText.EditText) == Some(fs.files)
    ensures r.Attempted? && r.result.Tried? ==>
              match r.result.outcome
              case Committed => Orderly(ops) ==> SameVisible(Changes(Stage(old(fs.files), ops, PatchText.EditText).value), fs.files, Run(old(fs.files), ops, PatchText.EditText).value)
              case RollbackFailed(_, recovery) =>
                && Recoverable(Changes(Stage(old(fs.files), ops, PatchText.EditText).value), old(fs.files), recovery, fs.files)
                && OthersUntouched(Changes(Stage(old(fs.files), ops, PatchText.EditText).value), old(fs.files), fs.files)
                && RolledBackElsewhere(Changes(Stage(old(fs.files), ops, PatchText.EditText).value), old(fs.files), r.result.outcome, fs.files)
                && fs.faults > old(fs.faults) + |r.result.outcome.errors|
              case _ => SameVisible(Changes(Stage(old(fs.files), ops, PatchText.EditText).value), fs.files, old(fs.files))
  {
    hide Run, Stage, Orderly, TakesEffect, LeftBehind, OverLimit;
    if Orderly(ops) { OrderlyIsSequential(fs.files, ops, PatchText.EditText); }
    r := ApplyPatch(fs, ledger, ops, PatchText.EditText);
  }
}
