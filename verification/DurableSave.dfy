/** Saving a show: a backup of the version before, then a write to a file beside the show that takes its
    place only when it is whole. Every state the disk passes through is kept, for a crash may leave any. */
module DurableSave {
  import opened Prelude
  import opened ShowFile

  /** A file holds a whole document, or bytes that are none. */
  datatype File = Whole(doc: Document) | Torn(bytes: string)

  type Files = map<string, File>

  /** Where a write fails, if it does. */
  datatype Fault = NoFault | AtCreate | AtWrite | AtSync | AtClose | AtRename

  function DecodeFile(f: File): Option<Patch>
  {
    match f
    case Torn(_) => None
    case Whole(d) => (match Decode(d) case Ok(p) => Some(p) case Err(_) => None)
  }

  function BackupOf(path: string): string { path + ".bak" }

  class Disk {
    var files: Files
    /** Every state of the disk so far, the present one last. */
    ghost var seen: seq<Files>

    ghost predicate Valid()
      reads this
    {
      |seen| > 0 && seen[|seen| - 1] == files
    }

    constructor (files: Files)
      ensures Valid() && this.files == files
    {
      this.files, seen := files, [files];
    }

    method Put(path: string, f: File)
      requires Valid()
      modifies this
      ensures Valid() && files == old(files)[path := f] && seen == old(seen) + [files]
    {
      files := files[path := f];
      seen := seen + [files];
    }

    method Remove(path: string)
      requires Valid()
      modifies this
      ensures Valid() && files == old(files) - {path} && seen == old(seen) + [files]
    {
      files := files - {path};
      seen := seen + [files];
    }

    /** The one step that replaces a file. */
    method Rename(from: string, to: string)
      requires Valid() && from in files && from != to
      modifies this
      ensures Valid() && files == (old(files) - {from})[to := old(files)[from]] && seen == old(seen) + [files]
    {
      files := (files - {from})[to := files[from]];
      seen := seen + [files];
    }
  }

  // ---------------------------------------------------------------- one atomic write

  /** Apart from the temporary file the disk is as before, or as before with f whole at path. */
  ghost predicate OldOrNew(before: Files, s: Files, path: string, temp: string, f: File)
  {
    s - {temp} == before || s - {temp} == before[path := f]
  }

  ghost predicate AllOldOrNew(before: Files, seen: seq<Files>, n: nat, path: string, temp: string, f: File)
  {
    n <= |seen| && forall i :: n <= i < |seen| ==> OldOrNew(before, seen[i], path, temp, f)
  }

  lemma TempShows(before: Files, path: string, temp: string, f: File, x: File)
    requires temp !in before && temp != path
    ensures OldOrNew(before, before[temp := x], path, temp, f) && OldOrNew(before, before, path, temp, f)
    ensures before[temp := x] - {temp} == before
    ensures OldOrNew(before, before[path := f], path, temp, f)
  {
    assert before[temp := x] - {temp} == before && before - {temp} == before && before[path := f] - {temp} == before[path := f];
  }

  method AtomicWrite(disk: Disk, path: string, temp: string, f: File, fault: Fault) returns (ok: bool)
    requires disk.Valid() && temp !in disk.files && temp != path
    modifies disk
    ensures disk.Valid() && (ok <==> fault.NoFault?)
    ensures disk.files == if ok then old(disk.files)[path := f] else old(disk.files)
    ensures old(disk.seen) <= disk.seen && AllOldOrNew(old(disk.files), disk.seen, |old(disk.seen)|, path, temp, f)
  {
    ghost var before, n := disk.files, |disk.seen|;
    TempShows(before, path, temp, f, Torn(""));
    TempShows(before, path, temp, f, Torn("part"));
    TempShows(before, path, temp, f, f);
    hide OldOrNew;
    if fault.AtCreate? {
      return false;
    }
    disk.Put(temp, Torn(""));
    disk.Put(temp, Torn("part"));
    assert disk.files == before[temp := Torn("part")] && AllOldOrNew(before, disk.seen, n, path, temp, f);
    if fault.AtWrite? {
      disk.Remove(temp);
      return false;
    }
    disk.Put(temp, f);
    assert disk.files == before[temp := f] && AllOldOrNew(before, disk.seen, n, path, temp, f);
    if fault.AtSync? || fault.AtClose? || fault.AtRename? {
      disk.Remove(temp);
      return false;
    }
    disk.Rename(temp, path);
    return true;
  }

  // ---------------------------------------------------------------- saving a show

  datatype SaveError = DamagedFile | Unreadable | BackupFailed | WriteFailed

  /** The state s of the disk is safe: the show is the version before or the new one, whole; the backup is
      the one before or the show before; every other file but the two temporary ones is as it was. */
  ghost predicate Safe(before: Files, s: Files, path: string, temps: set<string>, f: File)
  {
    (s.Keys - temps - {path, BackupOf(path)} == before.Keys - temps - {path, BackupOf(path)}) &&
    (forall q :: q in s && q !in temps && q != path && q != BackupOf(path) ==> q in before && s[q] == before[q]) &&
    (if path in s then s[path] == f || (path in before && s[path] == before[path]) else path !in before) &&
    (if BackupOf(path) in s
     then (path in before && s[BackupOf(path)] == before[path]) || (BackupOf(path) in before && s[BackupOf(path)] == before[BackupOf(path)])
     else BackupOf(path) !in before)
  }

  lemma SafeBackup(before: Files, s: Files, path: string, temp: string, temps: set<string>, f: File)
    requires path in before && temp in temps && path !in temps && BackupOf(path) !in temps
    requires OldOrNew(before, s, BackupOf(path), temp, before[path])
    ensures Safe(before, s, path, temps, f)
  {
    var clean := s - {temp};
    assert forall q :: q in s && q != temp ==> q in clean && clean[q] == s[q];
    assert forall q :: q in clean ==> q in s;
  }

  lemma SafeWrite(before: Files, middle: Files, s: Files, path: string, temp: string, temps: set<string>, f: File)
    requires temp in temps && path !in temps && BackupOf(path) !in temps
    requires middle == before || (path in before && middle == before[BackupOf(path) := before[path]])
    requires OldOrNew(middle, s, path, temp, f)
    ensures Safe(before, s, path, temps, f)
  {
    var clean := s - {temp};
    assert forall q :: q in s && q != temp ==> q in clean && clean[q] == s[q];
    assert forall q :: q in clean ==> q in s;
    assert path in middle <==> path in before;
    assert path in before ==> middle[path] == before[path];
  }

  ghost predicate AllSafe(before: Files, seen: seq<Files>, n: nat, path: string, temps: set<string>, f: File)
  {
    n <= |seen| && forall i :: n <= i < |seen| ==> Safe(before, seen[i], path, temps, f)
  }

  /** At every point, whether a step failed or the machine did, the show on the disk is the whole version
      before or the whole new one. A file that cannot be decoded is never changed; saved over a readable
      show, the version before is in the backup. */
  method SavePatch(disk: Disk, path: string, p: Patch, readable: bool, temps: (string, string), faults: (Fault, Fault)) returns (err: Option<SaveError>)
    requires disk.Valid() && path != ""
    requires temps.0 !in disk.files && temps.1 !in disk.files && path !in {temps.0, temps.1} && BackupOf(path) !in {temps.0, temps.1}
    modifies disk
    ensures disk.Valid() && old(disk.seen) <= disk.seen
    ensures AllSafe(old(disk.files), disk.seen, |old(disk.seen)|, path, {temps.0, temps.1}, Whole(Encode(p)))
    ensures var before := old(disk.files);
            var blocked := path in before && (!readable || DecodeFile(before[path]).None?);
            (blocked ==> err.Some? && disk.files == before) &&
            (err.None? <==> !blocked && (path in before ==> faults.0.NoFault?) && faults.1.NoFault?) &&
            (err.None? ==> disk.files == (if path in before then before[BackupOf(path) := before[path]] else before)[path := Whole(Encode(p))]) &&
            (err.Some? ==> (path in disk.files <==> path in before) && (path in before ==> disk.files[path] == before[path]))
  {
    hide Encode, DecodeFile, Safe;
    ghost var before, all := disk.files, {temps.0, temps.1};
    var doc := EncodeShowFile(p);
    if path in disk.files {
      if !readable {
        return Some(Unreadable);
      }
      var previous := disk.files[path];
      if DecodeFile(previous).None? {
        return Some(DamagedFile);
      }
      var ok := AtomicWrite(disk, BackupOf(path), temps.0, previous, faults.0);
      forall i | |old(disk.seen)| <= i < |disk.seen| ensures Safe(before, disk.seen[i], path, all, Whole(doc)) {
        SafeBackup(before, disk.seen[i], path, temps.0, all, Whole(doc));
      }
      if !ok {
        return Some(BackupFailed);
      }
    }
    ghost var middle, first := disk.files, disk.seen;
    var ok := AtomicWrite(disk, path, temps.1, Whole(doc), faults.1);
    forall i | |first| <= i < |disk.seen| ensures Safe(before, disk.seen[i], path, all, Whole(doc)) {
      SafeWrite(before, middle, disk.seen[i], path, temps.1, all, Whole(doc));
    }
    if !ok {
      return Some(WriteFailed);
    }
    return None;
  }

  /** Wherever a crash strikes, a show that could be read before can be read after, and is the old or the new one. */
  lemma ReadableAfterCrash(before: Files, s: Files, path: string, temps: set<string>, p: Patch)
    requires Safe(before, s, path, temps, Whole(Encode(p))) && path in before && DecodeFile(before[path]).Some? && p.schema <= CURRENT_SCHEMA
    ensures path in s && DecodeFile(s[path]).Some?
    ensures DecodeFile(s[path]) == DecodeFile(before[path]) || DecodeFile(s[path]) == Some(Patch(CURRENT_SCHEMA, p.rest, StoredAll(p.entries)))
  {
    RoundTrip(p);
    hide Encode, Decode;
  }

  // ---------------------------------------------------------------- the store in memory

  /** The show on the disk at path is p as the file keeps it. */
  ghost predicate OnDisk(files: Files, path: string, p: Patch)
  {
    path in files && files[path] == Whole(Encode(p))
  }

  /** What a saved show decodes to, and when that is what is in memory. */
  lemma DiskDecodes(files: Files, path: string, p: Patch)
    requires OnDisk(files, path, p) && p.schema == CURRENT_SCHEMA
    ensures DecodeFile(files[path]) == Some(Patch(CURRENT_SCHEMA, p.rest, StoredAll(p.entries)))
    ensures DecodeFile(files[path]) == Some(p) <==> forall i :: 0 <= i < |p.entries| ==> Survives(p.entries[i])
  {
    RoundTrip(p);
    NothingLost(p);
    hide Encode, Decode, Survives;
  }

  /** There is a backup that can be read and decoded. */
  predicate Recoverable(files: Files, path: string, readable: bool)
  {
    path != "" && readable && BackupOf(path) in files && DecodeFile(files[BackupOf(path)]).Some?
  }

  /** A save goes through: nothing is saved without a path, a file in the way can be read and decoded, and
      no step fails. */
  predicate Savable(files: Files, path: string, readable: bool, faults: (Fault, Fault))
  {
    path == "" ||
    ((path in files ==> readable && DecodeFile(files[path]).Some? && faults.0.NoFault?) && faults.1.NoFault?)
  }

  class ShowStore {
    var patch: Option<Patch>
    const disk: Disk
    const path: string

    constructor (disk: Disk, path: string)
      ensures this.disk == disk && this.path == path && patch == None
    {
      this.disk, this.path, patch := disk, path, None;
    }

    /** Memory changes only with the disk: a change that cannot be saved is not made. */
    method Install(next: Patch, readable: bool, temps: (string, string), faults: (Fault, Fault)) returns (ok: bool)
      requires disk.Valid() && temps.0 !in disk.files && temps.1 !in disk.files && path !in {temps.0, temps.1} && BackupOf(path) !in {temps.0, temps.1}
      modifies this, disk
      ensures disk.Valid() && patch == if ok then Some(next) else old(patch)
      ensures ok && path != "" ==> OnDisk(disk.files, path, next)
      ensures ok && path in old(disk.files) && path != "" ==> BackupOf(path) in disk.files && disk.files[BackupOf(path)] == old(disk.files)[path]
      ensures !ok ==> (path in disk.files <==> path in old(disk.files)) && (path in disk.files ==> disk.files[path] == old(disk.files)[path])
      ensures path == "" ==> disk.files == old(disk.files)
      ensures ok <==> Savable(old(disk.files), path, readable, faults)
      ensures ok <==> path == "" || ((path in old(disk.files) ==> readable && DecodeFile(old(disk.files)[path]).Some? && faults.0.NoFault?) && faults.1.NoFault?)
    {
      if path != "" {
        var err := SavePatch(disk, path, next, readable, temps, faults);
        if err.Some? {
          return false;
        }
      }
      patch := Some(next);
      return true;
    }

    /** Runs change on a copy of the show in memory and installs the result. */
    method Mutate(change: Patch -> Option<Patch>, readable: bool, temps: (string, string), faults: (Fault, Fault)) returns (ok: bool)
      requires disk.Valid() && temps.0 !in disk.files && temps.1 !in disk.files && path !in {temps.0, temps.1} && BackupOf(path) !in {temps.0, temps.1}
      modifies this, disk
      ensures disk.Valid()
      ensures ok ==> old(patch).Some? && change(old(patch).value).Some? && patch == change(old(patch).value) && (path != "" ==> OnDisk(disk.files, path, patch.value))
      ensures !ok ==> patch == old(patch) && (path in disk.files <==> path in old(disk.files)) && (path in disk.files ==> disk.files[path] == old(disk.files)[path])
      ensures ok <==> old(patch).Some? && change(old(patch).value).Some? && Savable(old(disk.files), path, readable, faults)
    {
      hide OnDisk;
      if patch.None? {
        return false;
      }
      var next := change(patch.value);
      if next.None? {
        return false;
      }
      ok := Install(next.value, readable, temps, faults);
    }

    /** Makes p the show, in the present schema. */
    method ReplaceChecked(p: Patch, readable: bool, temps: (string, string), faults: (Fault, Fault)) returns (ok: bool)
      requires disk.Valid() && temps.0 !in disk.files && temps.1 !in disk.files && path !in {temps.0, temps.1} && BackupOf(path) !in {temps.0, temps.1}
      modifies this, disk
      ensures disk.Valid() && patch == if ok then Some(p.(schema := CURRENT_SCHEMA)) else old(patch)
      ensures ok && path != "" ==> OnDisk(disk.files, path, p.(schema := CURRENT_SCHEMA))
      ensures ok <==> Savable(old(disk.files), path, readable, faults)
    {
      hide OnDisk;
      ok := Install(p.(schema := CURRENT_SCHEMA), readable, temps, faults);
    }

    /** Puts the version before back, from the backup; what can not be read is not taken. At every point
        the file is whole: as it was, or the version before; and the backup is not touched. */
    method RecoverActive(readable: bool, temp: string, fault: Fault) returns (ok: bool)
      requires disk.Valid() && temp !in disk.files && temp != path
      modifies this, disk
      ensures disk.Valid()
      ensures ok ==> path != "" && BackupOf(path) in old(disk.files) && DecodeFile(old(disk.files)[BackupOf(path)]) == patch && patch.Some? && OnDisk(disk.files, path, patch.value)
      ensures !ok ==> patch == old(patch) && disk.files == old(disk.files)
      ensures ok <==> path != "" && readable && BackupOf(path) in old(disk.files) && DecodeFile(old(disk.files)[BackupOf(path)]).Some? && fault.NoFault?
      ensures old(disk.seen) <= disk.seen
      ensures if Recoverable(old(disk.files), path, readable)
              then AllOldOrNew(old(disk.files), disk.seen, |old(disk.seen)|, path, temp, Whole(Encode(DecodeFile(old(disk.files)[BackupOf(path)]).value)))
              else disk.seen == old(disk.seen)
    {
      hide DecodeFile, Encode;
      if path == "" {
        return false;
      }
      if !readable || BackupOf(path) !in disk.files {
        return false;
      }
      var p := DecodeFile(disk.files[BackupOf(path)]);
      if p.None? {
        return false;
      }
      var doc := EncodeShowFile(p.value);
      ok := AtomicWrite(disk, path, temp, Whole(doc), fault);
      if ok {
        patch := p;
      }
    }
  }
}
