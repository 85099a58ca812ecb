/**
 A flat file system whose primitives may fail.

 Every primitive consults an arbitrary schedule of faults; a primitive that fails
 leaves the files alone.  Contracts never mention the schedule, so whatever is proved
 from them holds for every schedule.
 */
module FileSystems {
  import opened Prelude

  const PATCH_TEMP_PREFIX := ".coding-tools-patch-"
  const PATCH_BACKUP_PREFIX := ".coding-tools-backup-"

  datatype Path = Path(dir: string, name: string)

  datatype File = File(data: Bytes, mode: nat)

  type Files = map<Path, File>

  /** What `mkstemp` draws: eight characters out of 37. */
  predicate IsToken(s: string) {
    |s| == 8 && forall i :: 0 <= i < 8 ==> s[i] in "abcdefghijklmnopqrstuvwxyz0123456789_"
  }

  type Token = s: string | IsToken(s) witness "aaaaaaaa"

  /** Names that the committer's own `mkstemp` calls can produce: a prefix and a token. */
  predicate Hidden(p: Path) {
    || (PATCH_TEMP_PREFIX <= p.name && IsToken(p.name[|PATCH_TEMP_PREFIX|..]))
    || (PATCH_BACKUP_PREFIX <= p.name && IsToken(p.name[|PATCH_BACKUP_PREFIX|..]))
  }

  class FileSystem {
    var files: Files
    var clock: nat
    const failsAt: nat -> bool
    const randomName: nat -> Token
    /** Number of primitives that failed although their arguments allowed them to succeed. */
    ghost var faults: nat
    /** The paths that an `unlink` failed to remove, one for each time. */
    ghost var failed: seq<Path>
    /** The files after each primitive performed so far. */
    ghost var history: seq<Files>

    /** `mkstemp` may come up with this name. */
    ghost predicate Draws(p: Path) {
      exists k: nat :: p.name == PATCH_TEMP_PREFIX + randomName(k) || p.name == PATCH_BACKUP_PREFIX + randomName(k)
    }

    constructor (files: Files, failsAt: nat -> bool, randomName: nat -> Token)
      ensures this.files == files && faults == 0 && failed == [] && history == []
    {
      this.files := files;
      this.clock := 0;
      this.failsAt := failsAt;
      this.randomName := randomName;
      this.faults := 0;
      this.failed := [];
      this.history := [];
    }

    /** A primitive without effect on files: creating directories, reading, statting. */
    method Touch() returns (ok: bool)
      modifies this
      ensures files == old(files) && failed == old(failed)
      ensures history == old(history) + [files]
      ensures faults >= old(faults) && (!ok ==> faults > old(faults))
    {
      ok := !failsAt(clock);
      clock := clock + 1;
      if !ok { faults := faults + 1; }
      history := history + [files];
    }

    /** `os.replace`: atomic rename that overwrites its destination. */
    method Replace(src: Path, dst: Path) returns (ok: bool)
      requires src != dst
      modifies this
      ensures failed == old(failed)
      ensures ok ==> src in old(files) && files == old(files)[dst := old(files)[src]] - {src}
      ensures !ok ==> files == old(files)
      ensures history == old(history) + [files]
      ensures faults >= old(faults) && (!ok && src in old(files) ==> faults > old(faults))
    {
      ok := !failsAt(clock);
      clock := clock + 1;
      if !ok { faults := faults + 1; }
      ok := ok && src in files;
      if ok {
        files := files[dst := files[src]] - {src};
      }
      history := history + [files];
    }

    /** `Path.unlink(missing_ok=True)`. */
    method Unlink(p: Path) returns (ok: bool)
      modifies this
      ensures ok ==> files == old(files) - {p} && failed == old(failed)
      ensures !ok ==> files == old(files) && failed == old(failed) + [p]
      ensures history == old(history) + [files]
      ensures faults >= old(faults) && (!ok ==> faults > old(faults))
    {
      ok := !failsAt(clock);
      clock := clock + 1;
      if !ok {
        faults := faults + 1;
        failed := failed + [p];
      } else {
        files := files - {p};
      }
      history := history + [files];
    }

    /** `tempfile.mkstemp`: an empty file under a random name nobody uses yet. */
    method MakeTemp(prefix: string, dir: string) returns (r: Option<Path>)
      requires prefix == PATCH_TEMP_PREFIX || prefix == PATCH_BACKUP_PREFIX
      modifies this
      ensures failed == old(failed)
      ensures r.Some? ==>
                && Hidden(r.value) && Draws(r.value) && r.value !in old(files)
                && files == old(files)[r.value := File([], 0x180)]
      ensures r.None? ==> files == old(files)
      ensures history == old(history) + [files]
      ensures faults >= old(faults) && (r.None? ==> faults > old(faults))
    {
      var p := Path(dir, prefix + randomName(clock));
      assert prefix <= p.name && p.name[|prefix|..] == randomName(clock);
      if failsAt(clock) || p in files {
        faults := faults + 1;
        r := None;
      } else {
        files := files[p := File([], 0x180)];
        r := Some(p);
      }
      clock := clock + 1;
      history := history + [files];
    }

    /** Writing, syncing and `chmod`-ing a temporary file, as one primitive. */
    method Fill(p: Path, file: File) returns (ok: bool)
      requires p in files
      modifies this
      ensures failed == old(failed)
      ensures ok ==> files == old(files)[p := file]
      ensures !ok ==> p in files && files == old(files)[p := files[p]]
      ensures history == old(history) + [files]
      ensures faults >= old(faults) && (!ok ==> faults > old(faults))
    {
      ok := !failsAt(clock);
      clock := clock + 1;
      if ok {
        files := files[p := file];
      } else {
        faults := faults + 1;
        var partial := File(file.data[..|file.data| / 2], 0x180);
        files := files[p := partial];
      }
      history := history + [files];
    }
  }
}
