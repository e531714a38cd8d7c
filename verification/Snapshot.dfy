/** Replacing a provider catalog on disk: a snapshot is staged beside the live directory,
    swapped in, and rolled back when the swap fails. Every file-system call may fail. */
module Snapshot {
  import opened Common
  import opened Text
  import opened Ordering
  import opened ConfCodec

  datatype Entry = File(text: string) | Directory

  type Content = map<string, Entry>

  type Dirs = map<string, Content>

  datatype Stat = Found | Missing | StatFailed

  /** What listing a directory finds: each name, and whether it is a directory. */
  datatype Read = Listed(entries: map<string, bool>) | NoDirectory | ListFailed

  datatype Loaded = Text(text: string) | NoFile | LoadFailed

  function EntriesOf(content: Content): map<string, bool> { map n | n in content.Keys :: content[n].Directory? }

  /** Directories by path. `past` records them after every call that may change them. */
  class FileSystem {
    var dirs: Dirs
    ghost var past: seq<Dirs>

    constructor (dirs: Dirs)
      ensures this.dirs == dirs && past == []
    {
      this.dirs, past := dirs, [];
    }

    method StatDir(path: string) returns (r: Stat)
      ensures r.Found? ==> path in dirs
      ensures r.Missing? ==> path !in dirs
    {
      var fails: bool := *;
      r := if fails then StatFailed else if path in dirs then Found else Missing;
    }

    method ReadDir(path: string) returns (r: Read)
      ensures r.Listed? ==> path in dirs && r.entries == EntriesOf(dirs[path])
      ensures r.NoDirectory? ==> path !in dirs
    {
      var fails: bool := *;
      r := if fails then ListFailed else if path in dirs then Listed(EntriesOf(dirs[path])) else NoDirectory;
    }

    method ReadFile(path: string, name: string) returns (r: Loaded)
      ensures r.Text? ==> path in dirs && name in dirs[path] && dirs[path][name] == File(r.text)
      ensures r.NoFile? ==> path !in dirs || name !in dirs[path] || dirs[path][name].Directory?
    {
      var fails: bool := *;
      if fails { return LoadFailed; }
      if path !in dirs || name !in dirs[path] || dirs[path][name].Directory? { return NoFile; }
      return Text(dirs[path][name].text);
    }

    /** Move a directory to a path that is free or holds an empty directory. */
    method Rename(from: string, to: string) returns (ok: bool)
      requires from != to
      modifies this
      ensures past == old(past) + [dirs]
      ensures ok ==> from in old(dirs) && (to !in old(dirs) || old(dirs[to]) == map[])
      ensures ok ==> dirs == (old(dirs) - {from})[to := old(dirs[from])]
      ensures !ok ==> dirs == old(dirs)
    {
      var fails: bool := *;
      ok := !fails && from in dirs && (to !in dirs || dirs[to] == map[]);
      if ok {
        dirs := (dirs - {from})[to := dirs[from]];
      }
      past := past + [dirs];
    }

    /** Remove a directory; a failure may leave anything of it. */
    method RemoveAll(path: string) returns (ok: bool)
      modifies this
      ensures past == old(past) + [dirs]
      ensures forall p :: p != path ==> (p in dirs <==> p in old(dirs)) && (p in dirs ==> dirs[p] == old(dirs[p]))
      ensures ok ==> path !in dirs
      ensures !ok ==> path in old(dirs)
    {
      var fails: bool := *;
      if fails && path in dirs {
        var left: Content := *;
        dirs := dirs[path := left];
        ok := false;
      } else {
        dirs := dirs - {path};
        ok := true;
      }
      past := past + [dirs];
    }

    /** Write one file into a directory, through a temporary name: it is there whole, or
        not at all. */
    method WriteFile(path: string, name: string, text: string) returns (ok: bool)
      modifies this
      ensures past == old(past) + [dirs]
      ensures ok ==> path in old(dirs) && dirs == old(dirs)[path := old(dirs[path])[name := File(text)]]
      ensures !ok ==> dirs == old(dirs)
    {
      var fails: bool := *;
      ok := !fails && path in dirs;
      if ok {
        dirs := dirs[path := dirs[path][name := File(text)]];
      }
      past := past + [dirs];
    }

    /** Create an empty directory at a free path. */
    method MakeDir(path: string) returns (ok: bool)
      modifies this
      ensures past == old(past) + [dirs]
      ensures ok ==> path !in old(dirs) && dirs == old(dirs)[path := map[]]
      ensures !ok ==> dirs == old(dirs)
    {
      var fails: bool := *;
      ok := !fails && path !in dirs;
      if ok {
        dirs := dirs[path := map[]];
      }
      past := past + [dirs];
    }
  }

  // ---------------------------------------------------------------------
  // The swap.

  datatype Outcome = Installed | Unknown | InstallFailed | PreserveFailed | Unrestored | CleanupFailed

  function BackupOf(stage: string): string { stage + ".previous" }

  /** What readers of `dir` may find: the old catalog, the new one, or nothing, while
      the old one waits under the backup path. */
  ghost predicate Safe(dirs: Dirs, before: Dirs, dir: string, stage: string, staged: Content) {
    || (dir in dirs && dir in before && dirs[dir] == before[dir])
    || (dir in dirs && dirs[dir] == staged)
    || (dir !in dirs && dir !in before)
    || (dir !in dirs && dir in before && BackupOf(stage) in dirs && dirs[BackupOf(stage)] == before[dir])
  }

  ghost predicate AllSafe(past: seq<Dirs>, from: nat, before: Dirs, dir: string, stage: string, staged: Content)
  {
    forall i :: from <= i < |past| ==> Safe(past[i], before, dir, stage, staged)
  }

  /** The path holds what it held before. */
  ghost predicate SameAt(dirs: Dirs, before: Dirs, p: string) {
    (p in dirs <==> p in before) && (p in dirs ==> dirs[p] == before[p])
  }

  /** Paths the swap has nothing to do with are left alone. */
  ghost predicate OthersKept(dirs: Dirs, before: Dirs, dir: string, stage: string) {
    forall p :: p != dir && p != stage && p != BackupOf(stage) ==> SameAt(dirs, before, p)
  }

  /** Swap the staged snapshot in. The live directory becomes the new snapshot, or stays
      the old one, or, after two failures in a row, waits under the backup path; readers
      never find a mixture, at any moment. */
  method ReplaceSnapshot(fs: FileSystem, dir: string, stage: string) returns (outcome: Outcome)
    requires dir != stage && dir != BackupOf(stage) && stage in fs.dirs
    modifies fs
    ensures old(|fs.past|) <= |fs.past| && fs.past[..old(|fs.past|)] == old(fs.past)
    ensures AllSafe(fs.past, old(|fs.past|), old(fs.dirs), dir, stage, old(fs.dirs[stage]))
    ensures OthersKept(fs.dirs, old(fs.dirs), dir, stage)
    ensures match outcome
            case Installed =>
              && dir in fs.dirs && fs.dirs[dir] == old(fs.dirs[stage]) && stage !in fs.dirs
              && (dir in old(fs.dirs) ==> BackupOf(stage) !in fs.dirs)
            case CleanupFailed => dir in fs.dirs && fs.dirs[dir] == old(fs.dirs[stage]) && stage !in fs.dirs
            case Unknown => fs.dirs == old(fs.dirs)
            case PreserveFailed => fs.dirs == old(fs.dirs)
            case InstallFailed => fs.dirs == if dir in old(fs.dirs) then old(fs.dirs) - {BackupOf(stage)}
                else old(fs.dirs)
            case Unrestored =>
              && dir in old(fs.dirs) && dir !in fs.dirs
              && BackupOf(stage) in fs.dirs && fs.dirs[BackupOf(stage)] == old(fs.dirs[dir])
  {
    ghost var before, staged := fs.dirs, fs.dirs[stage];
    var backup := BackupOf(stage);
    assert |backup| > |stage|;
    var found := fs.StatDir(dir);
    if found.StatFailed? { return Unknown; }
    if found.Missing? {
      var moved := fs.Rename(stage, dir);
      assert Safe(fs.dirs, before, dir, stage, staged);
      return if moved then Installed else InstallFailed;
    }
    var ok := fs.Rename(dir, backup);
    assert Safe(fs.dirs, before, dir, stage, staged);
    if !ok { return PreserveFailed; }
    ghost var preserved := fs.dirs;
    ok := fs.Rename(stage, dir);
    assert Safe(fs.dirs, before, dir, stage, staged);
    if !ok {
      ok := fs.Rename(backup, dir);
      assert Safe(fs.dirs, before, dir, stage, staged);
      if !ok { return Unrestored; }
      RestoredSame(before, dir, backup);
      return InstallFailed;
    }
    ok := fs.RemoveAll(backup);
    assert Safe(fs.dirs, before, dir, stage, staged);
    return if ok then Installed else CleanupFailed;
  }

  /** Moving a directory away and back restores the file system. */
  lemma RestoredSame(before: Dirs, dir: string, backup: string)
    requires dir in before && dir != backup
    ensures ((before - {dir})[backup := before[dir]] - {backup})[dir := before[dir]] == before - {backup}
  {
    var moved := (before - {dir})[backup := before[dir]];
    var back := (moved - {backup})[dir := before[dir]];
    assert back.Keys == (before - {backup}).Keys;
  }

  // ---------------------------------------------------------------------
  // Writing a snapshot.

  const MANIFEST: string := ".global-egress-nordvpn"
  const HEADER: string := "global-egress-provider=nordvpn"

  function ManifestOf(names: seq<string>): string { HEADER + "\n" + Join(names, "\n") + "\n" }

  /** The names of all slots, or nothing if one is refused. */
  function NamesOf(slots: seq<Slot>): Option<seq<string>> {
    if slots == [] then Some([])
    else
      match (FileName(slots[0]), NamesOf(slots[1..]))
      case (Some(name), Some(rest)) => Some([name] + rest)
      case _ => None
  }

  /** The first `n` files of a snapshot; a later file of the same name replaces an
      earlier one. */
  function FilesOf(lib: NetLibrary, slots: seq<Slot>, names: seq<string>, n: nat): Content
    requires n <= |slots| == |names|
  {
    if n == 0 then map[]
    else FilesOf(lib, slots, names, n - 1)[names[n - 1] := File(RenderedConf(lib, slots[n - 1]))]
  }

  function SnapshotOf(lib: NetLibrary, slots: seq<Slot>, names: seq<string>): Content
    requires |slots| == |names|
  {
    FilesOf(lib, slots, names, |slots|)[MANIFEST := File(ManifestOf(Sort(names)))]
  }

  /** The directory may be replaced: it is missing, empty, or holds only files its own
      manifest lists. */
  predicate Owned(dirs: Dirs, dir: string) {
    dir !in dirs || dirs[dir] == map[] || OwnedContent(dirs[dir])
  }

  predicate OwnedContent(content: Content) {
    && MANIFEST in content && content[MANIFEST].File?
    && var lines := Split(TrimSpace(content[MANIFEST].text), '\n');
       && lines[0] == HEADER
       && forall name | name in content.Keys :: name == MANIFEST || (content[name].File? && name in lines[1..])
  }

  datatype Ownership = Ours | Foreign | Unlistable | Unreadable

  /** Whether the directory may be replaced, unless looking fails. */
  method CheckOwnership(fs: FileSystem, dir: string) returns (r: Ownership)
    ensures r.Ours? ==> Owned(fs.dirs, dir)
    ensures r.Foreign? ==> !Owned(fs.dirs, dir)
  {
    hide Split;
    hide TrimSpace;
    var read := fs.ReadDir(dir);
    match read {
      case NoDirectory => return Ours;
      case ListFailed => return Unlistable;
      case Listed(entries) =>
        assert entries.Keys == fs.dirs[dir].Keys;
        if entries == map[] { return Ours; }
        var manifest := fs.ReadFile(dir, MANIFEST);
        match manifest {
          case NoFile => return Foreign;
          case LoadFailed => return Unreadable;
          case Text(text) =>
            var lines := Split(TrimSpace(text), '\n');
            if lines[0] != HEADER { return Foreign; }
            var todo := entries.Keys;
            while todo != {}
              invariant todo <= entries.Keys
              invariant forall name :: name in entries.Keys - todo ==>
                          name == MANIFEST || (!entries[name] && name in lines[1..])
            {
              var name :| name in todo;
              if name != MANIFEST && (entries[name] || name !in lines[1..]) {
                assert name in fs.dirs[dir].Keys;
                return Foreign;
              }
              todo := todo - {name};
            }
            assert entries.Keys - todo == entries.Keys;
            return Ours;
        }
    }
  }

  datatype WriteOutcome =
    | Written | Suspicious | NotOwned | CatalogUnreadable | StagingFailed | Swapped(outcome: Outcome)

  method CollectNames(slots: seq<Slot>) returns (names: Option<seq<string>>)
    ensures names == NamesOf(slots)
    ensures names.Some? ==> |names.value| == |slots|
  {
    var out: seq<string> := [];
    assert slots[0..] == slots && slots[|slots|..] == [] && NamesOf([]) == Some([]);
    PrefixedNone(NamesOf(slots));
    for i := 0 to |slots|
      invariant |out| == i
      invariant Prefixed(out, NamesOf(slots[i..])) == NamesOf(slots)
    {
      assert slots[i..][0] == slots[i] && slots[i..][1..] == slots[i + 1..];
      match FileName(slots[i]) {
        case None => return None;
        case Some(name) =>
          PrefixedMore(out, name, NamesOf(slots[i + 1..]));
          out := out + [name];
      }
    }
    assert out + [] == out;
    return Some(out);
  }

  lemma FilesStep(lib: NetLibrary, slots: seq<Slot>, names: seq<string>, i: nat)
    requires i < |slots| == |names|
    ensures FilesOf(lib, slots, names, i + 1) == FilesOf(lib, slots, names,
            i)[names[i] := File(RenderedConf(lib, slots[i]))]
  {}

  /** The directories differ at one path only. */
  ghost predicate OnlyAt(dirs: Dirs, before: Dirs, path: string) {
    forall p :: p != path ==> SameAt(dirs, before, p)
  }

  lemma OnlyAtChain(a: Dirs, b: Dirs, c: Dirs, path: string)
    requires OnlyAt(b, a, path) && OnlyAt(c, b, path)
    ensures OnlyAt(c, a, path)
  {
    forall p | p != path ensures SameAt(c, a, p) {
      assert SameAt(b, a, p) && SameAt(c, b, p);
    }
  }

  lemma WrittenOnlyAt(dirs: Dirs, path: string, content: Content)
    ensures OnlyAt(dirs[path := content], dirs, path) && OnlyAt(dirs, dirs, path)
  {}

  lemma SnapshotParts(lib: NetLibrary, slots: seq<Slot>, names: seq<string>)
    requires |slots| == |names|
    ensures FilesOf(lib, slots, names, 0) == map[]
    ensures SnapshotOf(lib, slots, names) == FilesOf(lib, slots, names,
            |slots|)[MANIFEST := File(ManifestOf(Sort(names)))]
  {}

  /** Since `from`, only this path was touched. */
  ghost predicate AllOnlyAt(past: seq<Dirs>, from: nat, before: Dirs, path: string) {
    forall i :: from <= i < |past| ==> OnlyAt(past[i], before, path)
  }

  /** The history has grown. */
  ghost predicate Extends(past: seq<Dirs>, before: seq<Dirs>) {
    |before| <= |past| && past[..|before|] == before
  }

  /** Write every file and the manifest into the staging directory. */
  method StageFiles(fs: FileSystem, lib: NetLibrary, stage: string, slots: seq<Slot>, names: seq<string>)
    returns (ok: bool)
    requires |slots| == |names| && stage in fs.dirs && fs.dirs[stage] == map[]
    modifies fs
    ensures stage in fs.dirs
    ensures OnlyAt(fs.dirs, old(fs.dirs), stage)
    ensures Extends(fs.past, old(fs.past)) && AllOnlyAt(fs.past, old(|fs.past|), old(fs.dirs), stage)
    ensures ok ==> fs.dirs[stage] == SnapshotOf(lib, slots, names)
  {
    SnapshotParts(lib, slots, names);
    WrittenOnlyAt(fs.dirs, stage, map[]);
    hide SnapshotOf;
    hide FilesOf;
    hide RenderedConf;
    hide ManifestOf;
    hide Sort;
    hide OnlyAt;
    ok := true;
    var i := 0;
    while ok && i < |slots|
      invariant 0 <= i <= |slots| && stage in fs.dirs
      invariant OnlyAt(fs.dirs, old(fs.dirs), stage)
      invariant Extends(fs.past, old(fs.past)) && AllOnlyAt(fs.past, old(|fs.past|), old(fs.dirs), stage)
      invariant ok ==> fs.dirs[stage] == FilesOf(lib, slots, names, i)
    {
      FilesStep(lib, slots, names, i);
      ok := StageOne(fs, stage, names[i], RenderedConf(lib, slots[i]), old(fs.dirs), old(|fs.past|));
      i := i + 1;
    }
    if ok {
      ok := StageOne(fs, stage, MANIFEST, ManifestOf(Sort(names)), old(fs.dirs), old(|fs.past|));
    }
  }

  /** Write one file into the staging directory. */
  method StageOne(fs: FileSystem, stage: string, name: string, text: string, ghost before: Dirs, ghost from: nat)
    returns (ok: bool)
    requires stage in fs.dirs && OnlyAt(fs.dirs, before, stage) && AllOnlyAt(fs.past, from, before, stage)
    modifies fs
    ensures stage in fs.dirs && OnlyAt(fs.dirs, before, stage) && AllOnlyAt(fs.past, from, before, stage)
    ensures Extends(fs.past, old(fs.past))
    ensures ok ==> fs.dirs[stage] == old(fs.dirs[stage])[name := File(text)]
  {
    hide OnlyAt;
    ghost var sofar := fs.dirs;
    ok := fs.WriteFile(stage, name, text);
    if ok {
      WrittenOnlyAt(sofar, stage, fs.dirs[stage]);
      OnlyAtChain(before, sofar, fs.dirs, stage);
    }
  }

  /** The swap, with what is left of the staging directory cleaned up. */
  method SwapIn(fs: FileSystem, dir: string, stage: string) returns (outcome: Outcome)
    requires dir != stage && dir != BackupOf(stage) && stage in fs.dirs
    modifies fs
    ensures OthersKept(fs.dirs, old(fs.dirs), dir, stage)
    ensures Extends(fs.past, old(fs.past))
    ensures AllSafe(fs.past, old(|fs.past|), old(fs.dirs), dir, stage, old(fs.dirs[stage]))
    ensures outcome.Installed? || outcome.CleanupFailed? ==> dir in fs.dirs && fs.dirs[dir] == old(fs.dirs[stage])
    ensures outcome in {Unknown, InstallFailed, PreserveFailed} ==> SameAt(fs.dirs, old(fs.dirs), dir)
    ensures outcome.Unrestored? ==>
              dir in old(fs.dirs) && dir !in fs.dirs
              && BackupOf(stage) in fs.dirs && fs.dirs[BackupOf(stage)] == old(fs.dirs[dir])
  {
    hide AllSafe;
    ghost var before, staged := fs.dirs, fs.dirs[stage];
    outcome := ReplaceSnapshot(fs, dir, stage);
    assert outcome in {Unknown, InstallFailed, PreserveFailed} ==> SameAt(fs.dirs, before, dir);
    ghost var after, sofar := fs.dirs, fs.past;
    SwapEnds(outcome, after, before, dir, stage, staged);
    var _ := fs.RemoveAll(stage);
    assert |BackupOf(stage)| > |stage|;
    forall p | p != dir && p != stage && p != BackupOf(stage) ensures SameAt(fs.dirs, before, p) {
      assert SameAt(after, before, p);
    }
    SafeCleaned(fs.dirs, after, before, dir, stage, staged);
    SafeMore(sofar, old(|fs.past|), fs.dirs, before, dir, stage, staged);
  }

  /** Where the swap ends is a safe place. */
  lemma SwapEnds(outcome: Outcome, after: Dirs, before: Dirs, dir: string, stage: string, staged: Content)
    requires outcome.Installed? || outcome.CleanupFailed? ==> dir in after && after[dir] == staged
    requires outcome in {Unknown, InstallFailed, PreserveFailed} ==> SameAt(after, before, dir)
    requires outcome.Unrestored? ==>
               dir in before && dir !in after && BackupOf(stage) in after && after[BackupOf(stage)] == before[dir]
    ensures Safe(after, before, dir, stage, staged)
  {}

  /** Removing the staging directory is safe. */
  lemma SafeCleaned(dirs: Dirs, after: Dirs, before: Dirs, dir: string, stage: string, staged: Content)
    requires Safe(after, before, dir, stage, staged) && dir != stage && BackupOf(stage) != stage
    requires SameAt(dirs, after, dir) && SameAt(dirs, after, BackupOf(stage))
    ensures Safe(dirs, before, dir, stage, staged)
  {}

  lemma SafeMore(past: seq<Dirs>, from: nat, dirs: Dirs, before: Dirs, dir: string, stage: string, staged: Content)
    requires AllSafe(past, from, before, dir, stage, staged) && Safe(dirs, before, dir, stage, staged)
    ensures AllSafe(past + [dirs], from, before, dir, stage, staged)
  {
    hide Safe;
  }

  /** Make the staging directory and fill it; after a failure it is removed again. */
  method Stage(fs: FileSystem, lib: NetLibrary, stage: string, slots: seq<Slot>, names: seq<string>) returns (ok: bool)
    requires |slots| == |names|
    modifies fs
    ensures OnlyAt(fs.dirs, old(fs.dirs), stage)
    ensures Extends(fs.past, old(fs.past)) && AllOnlyAt(fs.past, old(|fs.past|), old(fs.dirs), stage)
    ensures ok ==> stage in fs.dirs && fs.dirs[stage] == SnapshotOf(lib, slots, names)
  {
    hide SnapshotOf;
    hide OnlyAt;
    ghost var before := fs.dirs;
    WrittenOnlyAt(before, stage, map[]);
    ok := fs.MakeDir(stage);
    if !ok { return false; }
    ghost var made, sofar := fs.dirs, fs.past;
    ok := StageFiles(fs, lib, stage, slots, names);
    OnlyAtChain(before, made, fs.dirs, stage);
    StagedSince(sofar, fs.past, old(|fs.past|), before, made, stage);
    if !ok {
      ghost var staged := fs.dirs;
      var _ := fs.RemoveAll(stage);
      assert OnlyAt(fs.dirs, staged, stage) by { RemovedOnlyAt(fs.dirs, staged, stage); }
      OnlyAtChain(before, staged, fs.dirs, stage);
    }
  }

  lemma RemovedOnlyAt(dirs: Dirs, before: Dirs, path: string)
    requires forall p :: p != path ==> (p in dirs <==> p in before) && (p in dirs ==> dirs[p] == before[p])
    ensures OnlyAt(dirs, before, path)
  {}

  /** The directory was made, then only it was touched. */
  lemma StagedSince(sofar: seq<Dirs>, past: seq<Dirs>, from: nat, before: Dirs, made: Dirs, stage: string)
    requires from < |sofar| && AllOnlyAt(sofar, from, before, stage) && OnlyAt(made, before, stage)
    requires Extends(past, sofar) && AllOnlyAt(past, |sofar|, made, stage)
    ensures AllOnlyAt(past, from, before, stage)
  {
    hide OnlyAt;
    forall i | from <= i < |past| ensures OnlyAt(past[i], before, stage) {
      if i < |sofar| {
        assert past[i] == sofar[i];
      } else {
        OnlyAtChain(before, made, past[i], stage);
      }
    }
  }

  /** Nothing but the staging directory was touched, then the swap was safe: so was the
      whole. */
  lemma SafeThroughout(sofar: seq<Dirs>, past: seq<Dirs>, from: nat, before: Dirs, filled: Dirs, dir: string,
                       stage: string, staged: Content)
    requires dir != stage && from <= |sofar| && AllOnlyAt(sofar, from, before, stage) && OnlyAt(filled, before, stage)
    requires Extends(past, sofar) && AllSafe(past, |sofar|, filled, dir, stage, staged)
    ensures AllSafe(past, from, before, dir, stage, staged)
  {
    assert SameAt(filled, before, dir);
    forall i | from <= i < |past| ensures Safe(past[i], before, dir, stage, staged) {
      if i < |sofar| {
        assert past[i] == sofar[i] && SameAt(sofar[i], before, dir);
      } else {
        assert Safe(past[i], filled, dir, stage, staged);
      }
    }
  }

  lemma StagingIsSafe(past: seq<Dirs>, from: nat, before: Dirs, dir: string, stage: string, staged: Content)
    requires dir != stage && AllOnlyAt(past, from, before, stage)
    ensures AllSafe(past, from, before, dir, stage, staged)
  {
    forall i | from <= i < |past| ensures Safe(past[i], before, dir, stage, staged) {
      assert SameAt(past[i], before, dir);
    }
  }

  /** What the synchronization promises of its files, whatever fails: the snapshot of the
      slots, if they have names. */
  function NewContent(lib: NetLibrary, slots: seq<Slot>): Content {
    match NamesOf(slots)
    case Some(names) => if |names| == |slots| then SnapshotOf(lib, slots, names) else map[]
    case None => map[]
  }

  /** Write all slots beside the live directory and swap them in. The live directory
      holds exactly the new snapshot after success, and is untouched after every failure
      but an unrestored swap; readers never find a mixture, at any moment. */
  method WriteCatalog(fs: FileSystem, lib: NetLibrary, dir: string, stage: string, slots: seq<Slot>)
    returns (outcome: WriteOutcome)
    requires dir != stage && dir != BackupOf(stage) && stage !in fs.dirs
    modifies fs
    ensures OthersKept(fs.dirs, old(fs.dirs), dir, stage)
    ensures Extends(fs.past, old(fs.past))
    ensures AllSafe(fs.past, old(|fs.past|), old(fs.dirs), dir, stage, NewContent(lib, slots))
    ensures outcome.Written? || outcome == Swapped(CleanupFailed) ==>
              NamesOf(slots).Some? && |NamesOf(slots).value| == |slots|
              && dir in fs.dirs && fs.dirs[dir] == SnapshotOf(lib, slots, NamesOf(slots).value)
    ensures outcome.Suspicious? <==> NamesOf(slots).None?
    ensures outcome.NotOwned? ==> !Owned(old(fs.dirs), dir)
    ensures !outcome.Suspicious? && !outcome.CatalogUnreadable? && !outcome.NotOwned? ==> Owned(old(fs.dirs), dir)
    ensures outcome in {Suspicious, NotOwned, CatalogUnreadable} ==> fs.dirs == old(fs.dirs)
    ensures outcome in {StagingFailed, Swapped(Unknown), Swapped(InstallFailed), Swapped(PreserveFailed)} ==>
              SameAt(fs.dirs, old(fs.dirs), dir)
    ensures outcome == Swapped(Unrestored) ==>
              dir in old(fs.dirs) && dir !in fs.dirs
              && BackupOf(stage) in fs.dirs && fs.dirs[BackupOf(stage)] == old(fs.dirs[dir])
  {
    hide SnapshotOf;
    hide NamesOf;
    hide Owned;
    hide AllSafe;
    hide AllOnlyAt;
    ghost var before, past := fs.dirs, fs.past;
    StagingStarts(past, before, stage);
    StagingIsSafe(past, |past|, before, dir, stage, NewContent(lib, slots));
    var collected := CollectNames(slots);
    if collected.None? { return Suspicious; }
    var names := collected.value;
    var owned := CheckOwnership(fs, dir);
    if owned.Foreign? { return NotOwned; }
    if !owned.Ours? { return CatalogUnreadable; }
    var ok := Stage(fs, lib, stage, slots, names);
    if !ok {
      StagingIsSafe(fs.past, |past|, before, dir, stage, NewContent(lib, slots));
      assert SameAt(fs.dirs, before, dir);
      return StagingFailed;
    }
    ghost var filled, sofar := fs.dirs, fs.past;
    assert SameAt(filled, before, dir);
    var swapped := SwapIn(fs, dir, stage);
    SafeThroughout(sofar, fs.past, |past|, before, filled, dir, stage, NewContent(lib, slots));
    forall p | p != dir && p != stage && p != BackupOf(stage) ensures SameAt(fs.dirs, before, p) {
      assert SameAt(filled, before, p) && SameAt(fs.dirs, filled, p);
    }
    return if swapped == Installed then Written else Swapped(swapped);
  }

  lemma StagingStarts(past: seq<Dirs>, before: Dirs, stage: string)
    ensures AllOnlyAt(past, |past|, before, stage)
  {}

  // ---------------------------------------------------------------------
  // A written snapshot is owned again.

  lemma {:induction false} FilesNamed(lib: NetLibrary, slots: seq<Slot>, names: seq<string>, n: nat)
    requires n <= |slots| == |names|
    ensures forall name :: name in FilesOf(lib, slots, names, n) <==> name in names[..n]
    ensures forall name :: name in FilesOf(lib, slots, names, n) ==> FilesOf(lib, slots, names, n)[name].File?
  {
    hide RenderedConf;
    if n > 0 {
      FilesNamed(lib, slots, names, n - 1);
      FilesStep(lib, slots, names, n - 1);
      assert names[..n] == names[..n - 1] + [names[n - 1]];
      hide FilesOf;
    }
  }

  lemma HeaderIsPlain()
    ensures '\n' !in HEADER && HEADER != "" && !IsSpace(HEADER[0]) && !IsSpace(HEADER[|HEADER| - 1])
  {}

  lemma {:induction false} JoinLast(names: seq<string>)
    requires names != [] && forall i :: 0 <= i < |names| ==> names[i] != "" && !IsSpace(names[i][|names[i]| - 1])
    ensures var s := Join(names, "\n"); s != "" && !IsSpace(s[|s| - 1])
  {
    if |names| > 1 { JoinLast(names[1..]); }
  }

  /** The lines of a manifest are the header and the names. */
  lemma ManifestLines(names: seq<string>)
    requires forall i :: 0 <= i < |names| ==> names[i] != "" && '\n' !in names[i] && !IsSpace(names[i][|names[i]| - 1])
    ensures Split(TrimSpace(ManifestOf(names)), '\n') == [HEADER] + names
  {
    HeaderIsPlain();
    var header := HEADER;
    assert ManifestOf(names) == header + "\n" + Join(names, "\n") + "\n";
    hide ManifestOf;
    HeadedLines(header, names);
  }

  lemma HeadedLines(header: string, names: seq<string>)
    requires '\n' !in header && header != "" && !IsSpace(header[0]) && !IsSpace(header[|header| - 1])
    requires forall i :: 0 <= i < |names| ==> names[i] != "" && '\n' !in names[i] && !IsSpace(names[i][|names[i]| - 1])
    ensures Split(TrimSpace(header + "\n" + Join(names, "\n") + "\n"), '\n') == [header] + names
  {
    hide Split;
    hide TrimSpace;
    var parts := [header] + names;
    forall i | 0 <= i < |parts|
      ensures parts[i] != "" && '\n' !in parts[i] && !IsSpace(parts[i][|parts[i]| - 1])
    {
      if i > 0 { assert parts[i] == names[i - 1]; }
    }
    PartsBack(parts);
    assert parts[1..] == names;
    assert Join(parts, "\n") == if names == [] then header else header + "\n" + Join(names, "\n");
    assert names == [] ==> header + "\n" + Join(names, "\n") == header + "\n";
  }

  lemma PartsBack(parts: seq<string>)
    requires parts != [] && forall i :: 0 <= i < |parts| ==>
             parts[i] != "" && '\n' !in parts[i] && !IsSpace(parts[i][|parts[i]| - 1])
    requires !IsSpace(parts[0][0])
    ensures Split(TrimSpace(Join(parts, "\n") + "\n"), '\n') == parts
    ensures Split(TrimSpace(Join(parts, "\n") + "\n" + "\n"), '\n') == parts
  {
    forall i | 0 <= i < |parts| ensures NoneIn(parts[i], {'\n'}) {}
    SplitOfJoin(parts, '\n');
    JoinLast(parts);
    var body := Join(parts, "\n");
    assert body[0] == parts[0][0];
    TrimBreaks(body);
    hide Join;
    hide Split;
    hide TrimSpace;
  }

  lemma TrimBreaks(s: string)
    requires s != "" && Trimmed(s)
    ensures TrimSpace(s + "\n") == s && TrimSpace(s + "\n" + "\n") == s
  {
    hide TrimLeft;
    hide TrimRight;
    TrimBlanks(s, '\n');
    var one, two := s + "\n", s + "\n" + "\n";
    assert two == one + ['\n'] && one == s + ['\n'] && two[0] == s[0];
    TrimRightOf(s, '\n');
    TrimRightOf(one, '\n');
    TrimRightKept(s);
    TrimLeftKept(two);
  }

  lemma {:induction false} NamesEnd(slots: seq<Slot>)
    requires NamesOf(slots).Some?
    ensures |NamesOf(slots).value| == |slots|
    ensures forall i :: 0 <= i < |slots| ==>
              var name := NamesOf(slots).value[i];
              name != "" && name != MANIFEST && !IsSpace(name[|name| - 1])
  {
    hide FileName;
    if slots != [] {
      NameEnds(slots[0]);
      NamesEnd(slots[1..]);
      assert NamesOf(slots).value == [FileName(slots[0]).value] + NamesOf(slots[1..]).value;
    }
  }

  lemma NameEnds(slot: Slot)
    requires FileName(slot).Some?
    ensures var name := FileName(slot).value; name != "" && name != MANIFEST && !IsSpace(name[|name| - 1])
  {
    var name := FileName(slot).value;
    assert name[|name| - 1] == 'f';
    var manifest := MANIFEST;
    assert manifest[|manifest| - 1] == 'n';
    hide BaseName;
  }

  lemma {:induction false} SplitHasNone(s: string, sep: char)
    ensures forall part :: part in Split(s, sep) ==> sep !in part
  {
    forall part | part in Split(s, sep) ensures sep !in part {
      var i :| 0 <= i < |Split(s, sep)| && Split(s, sep)[i] == part;
      assert NoneIn(Split(s, sep)[i], {sep});
    }
  }

  /** A snapshot is accepted as owned by the next synchronization exactly when no file
      name contains a line break. */
  lemma WrittenIsOwned(lib: NetLibrary, slots: seq<Slot>)
    requires NamesOf(slots).Some? && |NamesOf(slots).value| == |slots|
    ensures OwnedContent(SnapshotOf(lib, slots, NamesOf(slots).value)) <==>
            forall name :: name in NamesOf(slots).value ==> '\n' !in name
  {
    var names := NamesOf(slots).value;
    NamesEnd(slots);
    FilesNamed(lib, slots, names, |slots|);
    assert names[..|slots|] == names;
    hide NamesOf;
    hide FilesOf;
    SortNames(names);
    var files := FilesOf(lib, slots, names, |slots|);
    var content := files[MANIFEST := File(ManifestOf(Sort(names)))];
    assert content == SnapshotOf(lib, slots, names);
    hide SnapshotOf;
    hide OwnedContent;
    assert content[MANIFEST].text == ManifestOf(Sort(names));
    forall name ensures name in content <==> name in names || name == MANIFEST {}
    forall name | name in content && name != MANIFEST ensures content[name].File? {}
    hide ManifestOf;
    if forall name :: name in names ==> '\n' !in name {
      var sorted := Sort(names);
      forall i | 0 <= i < |sorted| ensures sorted[i] != "" && '\n' !in sorted[i]
          && !IsSpace(sorted[i][|sorted[i]| - 1]) {
        assert sorted[i] in names;
      }
      hide Sort;
      ManifestLines(sorted);
      ListedIsOwned(content, sorted);
    } else {
      var name :| name in names && '\n' in name;
      assert name in content && name != MANIFEST;
      hide Sort;
      BrokenIsNotOwned(content, name);
    }
  }

  lemma ListedIsOwned(content: Content, names: seq<string>)
    requires MANIFEST in content && content[MANIFEST].File?
    requires Split(TrimSpace(content[MANIFEST].text), '\n') == [HEADER] + names
    requires forall name :: name in content && name != MANIFEST ==> content[name].File? && name in names
    ensures OwnedContent(content)
  {
    hide Split;
    hide TrimSpace;
    assert ([HEADER] + names)[1..] == names;
  }

  lemma BrokenIsNotOwned(content: Content, name: string)
    requires name in content && name != MANIFEST && '\n' in name
    ensures !OwnedContent(content)
  {
    if MANIFEST in content && content[MANIFEST].File? {
      var lines := Split(TrimSpace(content[MANIFEST].text), '\n');
      SplitHasNone(TrimSpace(content[MANIFEST].text), '\n');
      assert name !in lines;
      hide Split;
      hide TrimSpace;
      assert forall part :: part in lines[1..] ==> part in lines;
    }
  }

  lemma SortNames(names: seq<string>)
    ensures forall name :: name in Sort(names) <==> name in names
  {
    forall name ensures name in Sort(names) <==> name in names {
      assert name in Sort(names) <==> name in multiset(Sort(names));
    }
  }
}
