/** The record of what patched files held before their first patch, with its memory limits. */
module Ledger {
  import opened Prelude
  import opened FileSystems
  import opened AtomicPatch
  import opened Utf8

  const MAX_PATCH_BASELINE_BYTES := 64 * 1024 * 1024
  const MAX_PATCH_BASELINE_FILES := 4096

  /** A path and its text before the first patch; nothing if there was no file. */
  datatype Entry = Entry(path: Path, text: Option<string>) {
    function Size(): nat {
      if text.None? then 0 else Utf8.Size(text.value)
    }
  }

  function TextOf(f: Option<File>): Option<string> {
    if f.None? then None else Some(DecodeLossy(f.value.data))
  }

  function Lookup(entries: seq<Entry>, p: Path): (r: Option<Entry>)
    ensures r.Some? ==> r.value.path == p
  {
    if entries == [] then None else if entries[0].path == p then Some(entries[0]) else Lookup(entries[1..], p)
  }

  function Total(entries: seq<Entry>): nat {
    if entries == [] then 0 else entries[0].Size() + Total(entries[1..])
  }

  /** The entries a patch would add. */
  function NewEntries(entries: seq<Entry>, changes: seq<StagedFile>): seq<Entry> {
    if changes == [] then []
    else
      var rest := NewEntries(entries, changes[1..]);
      if Lookup(entries, changes[0].path).Some? then rest else [Entry(changes[0].path, TextOf(changes[0].baseline))] + rest
  }

  // ----- what the ledger means -----

  /** A patch that was tried: the files it found, its changes, and whether it was committed. */
  datatype Patch = Patch(before: Files, changes: seq<StagedFile>, committed: bool)

  ghost predicate Changed(patch: Patch, p: Path) {
    patch.committed && Target(patch.changes, p)
  }

  /** What the first committed patch of `p` found there. */
  ghost function FirstFound(past: seq<Patch>, p: Path): Option<Option<File>> {
    if past == [] then None
    else
      var earlier, last := FirstFound(past[..|past| - 1], p), past[|past| - 1];
      if earlier.None? && Changed(last, p) then Some(Get(last.before, p)) else earlier
  }

  /** It is the first one indeed. */
  lemma {:induction false} FirstFoundIsFirst(past: seq<Patch>, p: Path)
    ensures FirstFound(past, p).None? <==> forall k :: 0 <= k < |past| ==> !Changed(past[k], p)
    ensures FirstFound(past, p).Some? ==>
              exists k :: 0 <= k < |past| && Changed(past[k], p) && FirstFound(past, p).value == Get(past[k].before, p)
                          && forall j :: 0 <= j < k ==> !Changed(past[j], p)
    decreases |past|
  {
    if past != [] {
      var n := |past| - 1;
      FirstFoundIsFirst(past[..n], p);
      if FirstFound(past[..n], p).Some? {
        var k :| 0 <= k < n && Changed(past[..n][k], p) && FirstFound(past[..n], p).value == Get(past[..n][k].before, p)
                 && forall j :: 0 <= j < k ==> !Changed(past[..n][j], p);
        assert Changed(past[k], p);
        forall j | 0 <= j < k ensures !Changed(past[j], p) { assert !Changed(past[..n][j], p); }
      } else {
        forall j | 0 <= j < n ensures !Changed(past[j], p) { assert !Changed(past[..n][j], p); }
      }
    }
  }

  ghost function Expected(past: seq<Patch>, p: Path): Option<Entry> {
    var found := FirstFound(past, p);
    if found.None? then None else Some(Entry(p, TextOf(found.value)))
  }

  ghost predicate Records(entries: seq<Entry>, past: seq<Patch>) {
    && (forall p {:trigger Lookup(entries, p)} :: Lookup(entries, p) == Expected(past, p))
    && (forall i, j :: 0 <= i < j < |entries| ==> entries[i].path != entries[j].path)
  }

  /** A file of text is recorded as that text, and a file that was not there as absent. */
  ghost predicate TellsText(entries: seq<Entry>, past: seq<Patch>) {
    forall p {:trigger Lookup(entries, p)} ::
      var found := FirstFound(past, p);
      && (found == Some(None) ==> Lookup(entries, p) == Some(Entry(p, None)))
      && (found.Some? && found.value.Some? && Decode(found.value.value.data).Some? ==>
            Lookup(entries, p) == Some(Entry(p, Decode(found.value.value.data))))
  }

  lemma RecordsTellText(entries: seq<Entry>, past: seq<Patch>)
    requires Records(entries, past)
    ensures TellsText(entries, past)
  {
    hide Lookup, Decode, DecodeLossy, FirstFound;
    forall p ensures var found := FirstFound(past, p);
                     && (found == Some(None) ==> Lookup(entries, p) == Some(Entry(p, None)))
                     && (found.Some? && found.value.Some? && Decode(found.value.value.data).Some? ==>
                           Lookup(entries, p) == Some(Entry(p, Decode(found.value.value.data)))) {
      assert Lookup(entries, p) == Expected(past, p);
      var found := FirstFound(past, p);
      if found.Some? && found.value.Some? && Decode(found.value.value.data).Some? { EncodeDecode(found.value.value.data); }
    }
  }

  /** In particular whatever text was written to a file is what its first patch records. */
  lemma WrittenTextIsRecorded(entries: seq<Entry>, past: seq<Patch>, p: Path, text: string, mode: nat)
    requires Records(entries, past) && FirstFound(past, p) == Some(Some(File(Encode(text), mode)))
    ensures Lookup(entries, p) == Some(Entry(p, Some(text)))
  {
    hide Lookup, Decode, FirstFound;
    RecordsTellText(entries, past);
    DecodeEncode(text);
    assert Lookup(entries, p) == Expected(past, p);
  }

  /** The bytes of the files that a patch touches for the first time. */
  function FoundBytes(entries: seq<Entry>, changes: seq<StagedFile>): nat {
    if changes == [] then 0
    else
      var c := changes[0];
      (if Lookup(entries, c.path).None? && c.baseline.Some? then |c.baseline.value.data| else 0) + FoundBytes(entries, changes[1..])
  }

  predicate AllText(changes: seq<StagedFile>) {
    forall i :: 0 <= i < |changes| && changes[i].baseline.Some? ==> Decode(changes[i].baseline.value.data).Some?
  }

  lemma {:induction false} CounterIsBytes(entries: seq<Entry>, changes: seq<StagedFile>)
    requires AllText(changes)
    ensures Total(NewEntries(entries, changes)) == FoundBytes(entries, changes)
    decreases |changes|
  {
    hide Lookup, Decode, DecodeLossy, Encode;
    if changes != [] {
      var c := changes[0];
      CounterIsBytes(entries, changes[1..]);
      if c.baseline.Some? { EncodeDecode(c.baseline.value.data); }
      var rest := NewEntries(entries, changes[1..]);
      assert ([Entry(c.path, TextOf(c.baseline))] + rest)[1..] == rest;
    }
  }

  // ----- proofs about the additions -----

  lemma {:induction false} TotalConcat(a: seq<Entry>, b: seq<Entry>)
    ensures Total(a + b) == Total(a) + Total(b)
    decreases |a|
  {
    if a == [] {
      assert a + b == b;
    } else {
      TotalConcat(a[1..], b);
      assert (a + b)[1..] == a[1..] + b;
    }
  }

  lemma {:induction false} LookupConcat(a: seq<Entry>, b: seq<Entry>, p: Path)
    ensures Lookup(a + b, p) == if Lookup(a, p).Some? then Lookup(a, p) else Lookup(b, p)
    decreases |a|
  {
    if a == [] {
      assert a + b == b;
    } else {
      LookupConcat(a[1..], b, p);
      assert (a + b)[1..] == a[1..] + b;
    }
  }

  lemma {:induction false} LookupNew(entries: seq<Entry>, changes: seq<StagedFile>, before: Files, p: Path)
    requires Distinct(changes) && BaselinesHold(changes, before)
    ensures Lookup(NewEntries(entries, changes), p) ==
            if Lookup(entries, p).None? && Target(changes, p) then Some(Entry(p, TextOf(Get(before, p)))) else None
    decreases |changes|
  {
    if changes != [] {
      var c, rest := changes[0], changes[1..];
      LookupNew(entries, rest, before, p);
      assert c.baseline == Get(before, c.path);
      if Target(changes, p) && c.path != p {
        var i :| 0 <= i < |changes| && changes[i].path == p;
        assert rest[i - 1].path == p;
      }
      if Target(rest, p) {
        var i :| 0 <= i < |rest| && rest[i].path == p;
        assert changes[i + 1].path == p;
      }
    }
  }

  lemma {:induction false} NewEntriesDistinct(entries: seq<Entry>, changes: seq<StagedFile>, i: nat, j: nat)
    requires Distinct(changes) && i < j < |NewEntries(entries, changes)|
    ensures NewEntries(entries, changes)[i].path != NewEntries(entries, changes)[j].path
    decreases |changes|
  {
    var rest := changes[1..];
    if Lookup(entries, changes[0].path).Some? {
      NewEntriesDistinct(entries, rest, i, j);
    } else if i > 0 {
      NewEntriesDistinct(entries, rest, i - 1, j - 1);
    } else {
      NewEntryPath(entries, rest, j - 1);
    }
  }

  lemma {:induction false} NewEntryPath(entries: seq<Entry>, changes: seq<StagedFile>, j: nat)
    requires j < |NewEntries(entries, changes)|
    ensures var p := NewEntries(entries, changes)[j].path;
            Lookup(entries, p).None? && exists k :: 0 <= k < |changes| && changes[k].path == p
    decreases |changes|
  {
    var rest := changes[1..];
    var known := Lookup(entries, changes[0].path).Some?;
    if known || j > 0 {
      var i := if known then j else j - 1;
      NewEntryPath(entries, rest, i);
      var k :| 0 <= k < |rest| && rest[k].path == NewEntries(entries, rest)[i].path;
      assert changes[k + 1].path == NewEntries(entries, changes)[j].path;
    } else {
      assert changes[0].path == NewEntries(entries, changes)[0].path;
    }
  }

  lemma {:induction false} LookupFindsAll(entries: seq<Entry>, i: nat)
    requires i < |entries|
    ensures Lookup(entries, entries[i].path).Some?
    decreases |entries|
  {
    if i > 0 { LookupFindsAll(entries[1..], i - 1); }
  }

  lemma CommitRecords(entries: seq<Entry>, past: seq<Patch>, patch: Patch)
    requires Records(entries, past)
    requires patch.committed && Distinct(patch.changes) && BaselinesHold(patch.changes, patch.before)
    ensures Records(entries + NewEntries(entries, patch.changes), past + [patch])
  {
    hide Lookup, NewEntries, Target, Distinct, BaselinesHold;
    var added := NewEntries(entries, patch.changes);
    var all := entries + added;
    assert (past + [patch])[..|past|] == past;
    forall p ensures Lookup(all, p) == Expected(past + [patch], p) {
      LookupConcat(entries, added, p);
      LookupNew(entries, patch.changes, patch.before, p);
      assert Lookup(entries, p) == Expected(past, p);
    }
    forall i, j | 0 <= i < j < |all| ensures all[i].path != all[j].path {
      if i >= |entries| {
        NewEntriesDistinct(entries, patch.changes, i - |entries|, j - |entries|);
      } else if j >= |entries| {
        LookupFindsAll(entries, i);
        NewEntryPath(entries, patch.changes, j - |entries|);
      }
    }
  }

  lemma FailureRecords(entries: seq<Entry>, past: seq<Patch>, patch: Patch)
    requires Records(entries, past) && !patch.committed
    ensures Records(entries, past + [patch])
  {}

  // ----- the runtime's part -----

  /** What a patch would add does not fit. */
  predicate OverLimit(entries: seq<Entry>, bytes: nat, changes: seq<StagedFile>) {
    var added := NewEntries(entries, changes);
    bytes + Total(added) > MAX_PATCH_BASELINE_BYTES || |entries| + |added| > MAX_PATCH_BASELINE_FILES
  }

  datatype CommitResult = LimitReached | Tried(outcome: Outcome)

  class PatchLedger {
    var entries: seq<Entry>
    var bytes: nat
    /** Every patch tried since the project was opened. */
    ghost var past: seq<Patch>

    ghost predicate Valid()
      reads this
    {
      && Records(entries, past)
      && bytes == Total(entries) <= MAX_PATCH_BASELINE_BYTES
      && |entries| <= MAX_PATCH_BASELINE_FILES
    }

    constructor ()
      ensures Valid() && past == [] && entries == []
    {
      entries, bytes, past := [], 0, [];
    }

    /** Opening another project. */
    method Clear()
      modifies this
      ensures Valid() && past == [] && entries == []
    {
      entries, bytes, past := [], 0, [];
    }

    method CommitStagedFiles(fs: FileSystem, changes: seq<StagedFile>) returns (r: CommitResult)
      requires Valid() && NeverDrawn(fs, changes)
      modifies this, fs
      ensures Valid()
      ensures var added := NewEntries(old(entries), changes);
              && (r.LimitReached? <==> OverLimit(old(entries), old(bytes), changes))
              && entries == (if r == Tried(Committed) then old(entries) + added else old(entries))
      // For files of text: what is recorded, and what it costs.
      ensures TellsText(entries, past)
      ensures AllText(changes) ==>
                var found := FoundBytes(old(entries), changes);
                && (r.LimitReached? <==>
                    || old(bytes) + found > MAX_PATCH_BASELINE_BYTES
                    || |old(entries)| + |NewEntries(old(entries), changes)| > MAX_PATCH_BASELINE_FILES)
                && bytes == old(bytes) + (if r == Tried(Committed) then found else 0)
      ensures r.LimitReached? ==> past == old(past) && fs.files == old(fs.files)
      ensures r.Tried? ==> past == old(past) + [Patch(old(fs.files), changes, r.outcome.Committed?)]
      ensures r == Tried(Committed) ==> AllInstalled(changes, fs.files)
      ensures r.Tried? && fs.faults == old(fs.faults) && Distinct(changes) && BaselinesHold(changes, old(fs.files)) ==>
                r.outcome.Committed? && ExactlyPatched(changes, old(fs.files), fs.files)
      ensures r.Tried? && (r.outcome.Reverted? || r.outcome.DuplicatePath?) ==> AllOriginal(changes, old(fs.files), fs.files)
      ensures r.Tried? && r.outcome.RollbackFailed? ==> Recoverable(changes, old(fs.files), r.outcome.recovery, fs.files)
      ensures r.Tried? && r.outcome.RollbackFailed? ==>
                && RolledBackElsewhere(changes, old(fs.files), r.outcome, fs.files)
                && fs.faults >= old(fs.faults) + |r.outcome.errors| + if BaselinesHold(changes, old(fs.files)) then 1 else 0
      ensures OthersUntouched(changes, old(fs.files), fs.files)
      ensures old(fs.failed) <= fs.failed
      ensures LeftBehind(changes, old(fs.files), fs.files, fs.failed[|old(fs.failed)|..],
                         if r.Tried? && r.outcome.RollbackFailed? then r.outcome.recovery else map[])
    {
      hide LeftBehind, Records, NeverDrawn, NewEntries, Lookup, Total, AllInstalled, AllOriginal, Distinct, BaselinesHold, ExactlyPatched, Recoverable, OthersUntouched, RolledBackElsewhere, TellsText, AllText, FoundBytes;
      var added, size: nat, i := [], 0, 0;
      NothingNew(entries);
      while i < |changes|
        invariant 0 <= i <= |changes|
        invariant added + NewEntries(entries, changes[i..]) == NewEntries(entries, changes)
        invariant size == Total(added) && entries == old(entries) && fs.files == old(fs.files) && fs.faults == old(fs.faults) && fs.failed == old(fs.failed)
        invariant bytes == old(bytes) && past == old(past)
      {
        NextNew(entries, changes, i);
        if Lookup(entries, changes[i].path).None? {
          var entry := Entry(changes[i].path, TextOf(changes[i].baseline));
          TotalSnoc(added, entry);
          added := added + [entry];
          size := size + entry.Size();
        }
        i := i + 1;
      }
      assert changes[i..] == [];
      assert added == NewEntries(entries, changes);
      if AllText(changes) { CounterIsBytes(entries, changes); }
      RecordsTellText(entries, past);
      if bytes + size > MAX_PATCH_BASELINE_BYTES || |entries| + |added| > MAX_PATCH_BASELINE_FILES {
        NothingTouched(changes, fs.files);
        NothingBehind(changes, fs.files, fs.failed[|fs.failed|..], map[]);
        return LimitReached;
      }
      ghost var before := fs.files;
      var outcome, _, _ := Commit(fs, changes);
      ghost var patch := Patch(before, changes, outcome.Committed?);
      if outcome.Committed? {
        CommitRecords(entries, past, patch);
        TotalConcat(entries, added);
        entries := entries + added;
        bytes := bytes + size;
      } else {
        FailureRecords(entries, past, patch);
      }
      past := past + [patch];
      RecordsTellText(entries, past);
      r := Tried(outcome);
    }
  }

  lemma NothingTouched(changes: seq<StagedFile>, files: Files)
    ensures OthersUntouched(changes, files, files)
  {}

  lemma NothingNew(entries: seq<Entry>)
    ensures NewEntries(entries, []) == [] && Total([]) == 0
  {}

  lemma TotalSnoc(entries: seq<Entry>, e: Entry)
    ensures Total(entries + [e]) == Total(entries) + e.Size()
  {
    TotalConcat(entries, [e]);
  }

  lemma NextNew(entries: seq<Entry>, changes: seq<StagedFile>, i: nat)
    requires i < |changes|
    ensures NewEntries(entries, changes[i..]) ==
            (if Lookup(entries, changes[i].path).Some? then [] else [Entry(changes[i].path, TextOf(changes[i].baseline))])
            + NewEntries(entries, changes[i + 1..])
  {}
}
