/** The files a run writes before it starts, and how they are taken back. File operations
    fail where a script says so, and a failed write leaves any content behind. Paths are
    spellings: which file a path names is the platform's business, and two may name one. */
module OwnedFiles {
  import opened Utf8
  import opened Wrappers

  type Bytes = seq<Byte>

  type File = nat

  /** The file each path names: links, dots and letter case are resolved here. */
  type Names = string -> File

  /** What is on disk: the content of every file that exists. */
  type Content = map<File, Bytes>

  datatype Policy = Persistent | OnCompletion | OnSuccess

  datatype ProcessFile = ProcessFile(path: string, data: Bytes, cleanup: Policy)

  /** What this invocation wrote to, and what had been there. */
  datatype OwnedFile = OwnedFile(path: string, previous: Option<Bytes>, cleanup: Policy)

  /** How the operations on one file go. */
  datatype Fate = Succeeds | ReadFails | MkdirFails | WriteFails(left: Option<Bytes>)

  /** How one restoring operation goes. */
  datatype Restore = Restored | NotRestored(left: Option<Bytes>)

  datatype Attempt = Attempt(disk: Content, owned: seq<OwnedFile>, done: bool)

  function Lookup(disk: Content, file: File): Option<Bytes> {
    if file in disk then Some(disk[file]) else None
  }

  function Put(disk: Content, file: File, content: Option<Bytes>): (after: Content)
    ensures Lookup(after, file) == content
    ensures forall f :: f != file ==> Lookup(after, f) == Lookup(disk, f)
  {
    if content.None? then map f | f in disk && f != file :: disk[f] else disk[file := content.value]
  }

  function FateOf(fates: seq<Fate>): Fate {
    if fates == [] then Succeeds else fates[0]
  }

  function Rest<T>(s: seq<T>): seq<T> {
    if s == [] then [] else s[1..]
  }

  function Owning(disk: Content, f: ProcessFile, names: Names): OwnedFile {
    OwnedFile(f.path, Lookup(disk, names(f.path)), f.cleanup)
  }

  /** Files are read, given a directory and written one after the other, up to the first
      failure; a file is owned from just before its write. */
  function WriteAll(disk: Content, owned: seq<OwnedFile>, files: seq<ProcessFile>, fates: seq<Fate>,
      names: Names): Attempt
    decreases |files|
  {
    if files == [] then Attempt(disk, owned, true)
    else
      var f := files[0];
      var owning := owned + [Owning(disk, f, names)];
      match FateOf(fates)
      case ReadFails => Attempt(disk, owned, false)
      case MkdirFails => Attempt(disk, owned, false)
      case WriteFails(left) => Attempt(Put(disk, names(f.path), left), owning, false)
      case Succeeds => WriteAll(Put(disk, names(f.path), Some(f.data)), owning, files[1..], Rest(fates), names)
  }

  predicate Released(o: OwnedFile, success: bool, rollback: bool) {
    rollback || o.cleanup == OnCompletion || (o.cleanup == OnSuccess && success)
  }

  function CleanedUp(disk: Content, owned: seq<OwnedFile>, success: bool, rollback: bool,
      restores: seq<Restore>, names: Names): Content
    decreases |owned|
  {
    if owned == [] then disk
    else
      var o := owned[0];
      var failed := restores != [] && restores[0].NotRestored?;
      var disk := if !Released(o, success, rollback) then disk
        else if failed then Put(disk, names(o.path), restores[0].left)
        else Put(disk, names(o.path), o.previous);
      CleanedUp(disk, owned[1..], success, rollback, Rest(restores), names)
  }

  predicate AcceptablePaths(files: seq<ProcessFile>, isAbsolute: string -> bool) {
    && (forall f :: f in files ==> f.path != "" && '\0' !in f.path && isAbsolute(f.path))
    && DistinctPaths(files)
  }

  predicate DistinctPaths(files: seq<ProcessFile>) {
    forall i, j :: 0 <= i < j < |files| ==> files[i].path != files[j].path
  }

  class FileStore {
    var disk: Content

    constructor (disk: Content)
      ensures this.disk == disk
    {
      this.disk := disk;
    }

    method Store(file: File, content: Option<Bytes>)
      modifies this
      ensures disk == Put(old(disk), file, content)
    {
      disk := Put(disk, file, content);
    }
  }

  /** No file that is named again was first written with other content than it had. */
  predicate RewritesNothing(disk: Content, files: seq<ProcessFile>, names: Names) {
    forall i, j :: 0 <= i < j < |files| && names(files[i].path) == names(files[j].path) ==>
      Lookup(disk, names(files[i].path)) == Some(files[i].data)
  }

  /** All files written and owned, or nothing owned and every written file taken back. */
  method MaterializeFiles(store: FileStore, files: seq<ProcessFile>, isAbsolute: string -> bool,
      fates: seq<Fate>, restores: seq<Restore>, names: Names) returns (owned: seq<OwnedFile>, ok: bool)
    modifies store
    ensures !AcceptablePaths(files, isAbsolute) ==> !ok && owned == [] && store.disk == old(store.disk)
    ensures AcceptablePaths(files, isAbsolute) ==>
      var a := WriteAll(old(store.disk), [], files, fates, names);
      && ok == a.done
      && owned == (if a.done then a.owned else [])
      && store.disk == (if a.done then a.disk else CleanedUp(a.disk, a.owned, false, true, restores, names))
    ensures !ok && EveryRestoreSucceeds(restores) && RewritesNothing(old(store.disk), files, names) ==>
      store.disk == old(store.disk)
  {
    owned := [];
    var acceptable := CheckPaths(files, isAbsolute);
    if !acceptable {
      return [], false;
    }
    var i := 0;
    ghost var start := store.disk;
    while i < |files|
      invariant 0 <= i <= |files|
      invariant WriteAll(start, [], files, fates, names)
        == WriteAll(store.disk, owned, files[i..], if i <= |fates| then fates[i..] else [], names)
    {
      var file := files[i];
      var fate := if i < |fates| then fates[i] else Succeeds;
      assert files[i..][1..] == files[i + 1..];
      if fate.ReadFails? || fate.MkdirFails? {
        break;
      }
      owned := owned + [Owning(store.disk, file, names)];
      if fate.WriteFails? {
        store.Store(names(file.path), fate.left);
        break;
      }
      store.Store(names(file.path), Some(file.data));
      i := i + 1;
    }
    ok := i == |files|;
    if !ok {
      assert WriteAll(start, [], files, fates, names) == Attempt(store.disk, owned, false);
      if EveryRestoreSucceeds(restores) && RewritesNothing(start, files, names) {
        RollbackIsIdentity(start, files, fates, restores, names);
      }
      CleanupFiles(store, owned, false, true, restores, names);
      owned := [];
    }
  }

  /** No path is empty, holds a NUL, is relative or comes twice. */
  method CheckPaths(files: seq<ProcessFile>, isAbsolute: string -> bool) returns (ok: bool)
    ensures ok == AcceptablePaths(files, isAbsolute)
  {
    var paths: set<string> := {};
    for i := 0 to |files|
      invariant paths == set j | 0 <= j < i :: files[j].path
      invariant AcceptablePaths(files[..i], isAbsolute)
    {
      var path := files[i].path;
      if path == "" || '\0' in path || !isAbsolute(path) {
        assert files[i] in files;
        return false;
      }
      if path in paths {
        return false;
      }
      paths := paths + {path};
      assert files[..i + 1] == files[..i] + [files[i]];
    }
    assert files[..|files|] == files;
    ok := true;
  }

  method CleanupFiles(store: FileStore, owned: seq<OwnedFile>, success: bool, rollback: bool,
      restores: seq<Restore>, names: Names)
    modifies store
    ensures store.disk == CleanedUp(old(store.disk), owned, success, rollback, restores, names)
  {
    var i := 0;
    while i < |owned|
      invariant 0 <= i <= |owned|
      invariant CleanedUp(old(store.disk), owned, success, rollback, restores, names)
        == CleanedUp(store.disk, owned[i..], success, rollback, if i <= |restores| then restores[i..] else [], names)
    {
      var file := owned[i];
      assert owned[i..][1..] == owned[i + 1..];
      var failed := i < |restores| && restores[i].NotRestored?;
      if Released(file, success, rollback) {
        store.Store(names(file.path), if failed then restores[i].left else file.previous);
      }
      i := i + 1;
    }
  }

  // ---------- what is written, and what is taken back

  ghost predicate Owns(owned: seq<OwnedFile>, file: File, names: Names) {
    exists o :: o in owned && names(o.path) == file
  }

  ghost predicate FromStart(start: Content, owned: seq<OwnedFile>, names: Names) {
    forall o :: o in owned ==> o.previous == Lookup(start, names(o.path))
  }

  /** What is known while files are written over the content `start`: every snapshot is the
      initial content of its file, and only owned files differ from it. */
  ghost predicate Tracks(start: Content, disk: Content, owned: seq<OwnedFile>, names: Names) {
    && FromStart(start, owned, names)
    && (forall file :: !Owns(owned, file, names) ==> Lookup(disk, file) == Lookup(start, file))
  }

  /** The files still to be written have the content they began with. */
  ghost predicate Unharmed(start: Content, disk: Content, files: seq<ProcessFile>, names: Names) {
    forall k :: 0 <= k < |files| ==> Lookup(disk, names(files[k].path)) == Lookup(start, names(files[k].path))
  }

  lemma TracksOneMore(start: Content, disk: Content, owned: seq<OwnedFile>, f: ProcessFile, content: Option<Bytes>,
      names: Names)
    requires Tracks(start, disk, owned, names)
    requires Lookup(disk, names(f.path)) == Lookup(start, names(f.path))
    ensures Tracks(start, Put(disk, names(f.path), content), owned + [Owning(disk, f, names)], names)
  {
    var more := owned + [Owning(disk, f, names)];
    assert Owning(disk, f, names) in more && forall x :: x in owned ==> x in more;
    forall file | !Owns(more, file, names)
      ensures Lookup(Put(disk, names(f.path), content), file) == Lookup(start, file)
    {
      assert !Owns(owned, file, names);
    }
  }

  lemma {:induction false} WriteAllTracks(start: Content, disk: Content, owned: seq<OwnedFile>,
      files: seq<ProcessFile>, fates: seq<Fate>, names: Names)
    requires Tracks(start, disk, owned, names)
    requires RewritesNothing(start, files, names) && Unharmed(start, disk, files, names)
    ensures var a := WriteAll(disk, owned, files, fates, names); Tracks(start, a.disk, a.owned, names)
    decreases |files|
  {
    if files != [] {
      var f, rest := files[0], files[1..];
      match FateOf(fates)
      case WriteFails(left) => TracksOneMore(start, disk, owned, f, left, names);
      case Succeeds =>
        var next := Put(disk, names(f.path), Some(f.data));
        TracksOneMore(start, disk, owned, f, Some(f.data), names);
        forall k | 0 <= k < |rest| ensures Lookup(next, names(rest[k].path)) == Lookup(start, names(rest[k].path)) {
          assert rest[k] == files[k + 1];
        }
        WriteAllTracks(start, next, owned + [Owning(disk, f, names)], rest, Rest(fates), names);
      case ReadFails =>
      case MkdirFails =>
    }
  }

  ghost predicate EveryRestoreSucceeds(restores: seq<Restore>) {
    forall r :: r in restores ==> r.Restored?
  }

  ghost predicate ReleasesFile(owned: seq<OwnedFile>, file: File, success: bool, rollback: bool, names: Names) {
    exists o :: o in owned && names(o.path) == file && Released(o, success, rollback)
  }

  /** Cleanup gives every released file its initial content back and touches nothing else. */
  lemma {:induction false} CleanupRestores(start: Content, disk: Content, owned: seq<OwnedFile>, success: bool,
      rollback: bool, restores: seq<Restore>, names: Names, file: File)
    requires FromStart(start, owned, names) && EveryRestoreSucceeds(restores)
    ensures var after := CleanedUp(disk, owned, success, rollback, restores, names);
      Lookup(after, file) ==
        if ReleasesFile(owned, file, success, rollback, names) then Lookup(start, file) else Lookup(disk, file)
    decreases |owned|
  {
    if owned != [] {
      var o, rest := owned[0], owned[1..];
      var next := if Released(o, success, rollback) then Put(disk, names(o.path), o.previous) else disk;
      assert restores != [] ==> restores[0] in restores;
      assert o in owned && forall x :: x in owned <==> x == o || x in rest;
      CleanupRestores(start, next, rest, success, rollback, Rest(restores), names, file);
      if ReleasesFile(owned, file, success, rollback, names) {
        var x :| x in owned && names(x.path) == file && Released(x, success, rollback);
        assert x != o ==> ReleasesFile(rest, file, success, rollback, names);
      }
    }
  }

  lemma SameContent(a: Content, b: Content)
    requires forall f :: Lookup(a, f) == Lookup(b, f)
    ensures a == b
  {
    forall f ensures f in a <==> f in b {
      assert Lookup(a, f) == Lookup(b, f);
    }
    forall f | f in a ensures a[f] == b[f] {
      assert Lookup(a, f) == Lookup(b, f);
    }
  }

  /** The disk after writing as far as it goes, and rolling all of it back. */
  function RolledBack(disk: Content, files: seq<ProcessFile>, fates: seq<Fate>, restores: seq<Restore>,
      names: Names): Content
  {
    var a := WriteAll(disk, [], files, fates, names);
    CleanedUp(a.disk, a.owned, false, true, restores, names)
  }

  /** Rolling back what was written, wherever the writing stopped, is the identity: for paths
      that name different files, and whenever nothing named again was changed. */
  lemma RollbackIsIdentity(disk: Content, files: seq<ProcessFile>, fates: seq<Fate>, restores: seq<Restore>,
      names: Names)
    requires RewritesNothing(disk, files, names) && EveryRestoreSucceeds(restores)
    ensures RolledBack(disk, files, fates, restores, names) == disk
  {
    WriteAllTracks(disk, disk, [], files, fates, names);
    var a := WriteAll(disk, [], files, fates, names);
    var after := RolledBack(disk, files, fates, restores, names);
    forall file ensures Lookup(after, file) == Lookup(disk, file) {
      CleanupRestores(disk, a.disk, a.owned, false, true, restores, names, file);
      if Owns(a.owned, file, names) {
        var o :| o in a.owned && names(o.path) == file;
        assert Released(o, false, true);
      }
    }
    SameContent(after, disk);
  }

  // ---------- and exactly when

  /** Operations that go well for `n` files and stop before the next. */
  function StopsAfter(n: nat): seq<Fate> {
    if n == 0 then [ReadFails] else [Succeeds] + StopsAfter(n - 1)
  }

  lemma {:induction false} UntouchedFile(disk: Content, owned: seq<OwnedFile>, files: seq<ProcessFile>, n: nat,
      names: Names, file: File)
    requires n <= |files| && forall k :: 0 <= k < n ==> names(files[k].path) != file
    ensures Lookup(WriteAll(disk, owned, files, StopsAfter(n), names).disk, file) == Lookup(disk, file)
    decreases n
  {
    if n > 0 {
      var f := files[0];
      UntouchedFile(Put(disk, names(f.path), Some(f.data)), owned + [Owning(disk, f, names)], files[1..], n - 1,
        names, file);
    }
  }

  lemma {:induction false} LastWriteWins(disk: Content, owned: seq<OwnedFile>, files: seq<ProcessFile>, n: nat,
      names: Names, i: nat)
    requires i < n <= |files|
    requires forall k :: i < k < n ==> names(files[k].path) != names(files[i].path)
    ensures Lookup(WriteAll(disk, owned, files, StopsAfter(n), names).disk, names(files[i].path)) == Some(files[i].data)
    decreases n
  {
    var f := files[0];
    var next, owning := Put(disk, names(f.path), Some(f.data)), owned + [Owning(disk, f, names)];
    if i == 0 {
      UntouchedFile(next, owning, files[1..], n - 1, names, names(f.path));
    } else {
      LastWriteWins(next, owning, files[1..], n - 1, names, i - 1);
    }
  }

  /** The last snapshot is what the writes before it had left. */
  lemma {:induction false} LastSnapshot(disk: Content, owned: seq<OwnedFile>, files: seq<ProcessFile>, n: nat,
      names: Names)
    requires 0 < n <= |files|
    ensures var a := WriteAll(disk, owned, files, StopsAfter(n), names);
      a.owned != [] && a.owned[|a.owned| - 1]
        == Owning(WriteAll(disk, owned, files, StopsAfter(n - 1), names).disk, files[n - 1], names)
    decreases n
  {
    var f := files[0];
    var next, owning := Put(disk, names(f.path), Some(f.data)), owned + [Owning(disk, f, names)];
    if n == 1 {
      assert WriteAll(next, owning, files[1..], StopsAfter(0), names).owned == owning;
    } else {
      LastSnapshot(next, owning, files[1..], n - 1, names);
    }
  }

  /** Restores run first to last, so the last snapshot of a file stays. */
  lemma {:induction false} LastRestoreWins(disk: Content, owned: seq<OwnedFile>, names: Names)
    requires owned != []
    ensures var last := owned[|owned| - 1];
      Lookup(CleanedUp(disk, owned, false, true, [], names), names(last.path)) == last.previous
    decreases |owned|
  {
    if |owned| > 1 {
      LastRestoreWins(Put(disk, names(owned[0].path), owned[0].previous), owned[1..], names);
    } else {
      assert owned[1..] == [];
    }
  }

  lemma {:induction false} NextOfSameFile(files: seq<ProcessFile>, names: Names, i: nat, j: nat) returns (k: nat)
    requires i < j < |files| && names(files[i].path) == names(files[j].path)
    ensures i < k <= j && names(files[i].path) == names(files[k].path)
    ensures forall m :: i < m < k ==> names(files[m].path) != names(files[i].path)
    decreases j
  {
    if m :| i < m < j && names(files[m].path) == names(files[i].path) {
      k := NextOfSameFile(files, names, i, m);
    } else {
      k := j;
    }
  }

  /** Stopping right behind a second write to a file leaves the first one's data. */
  lemma RollbackLeavesData(disk: Content, files: seq<ProcessFile>, names: Names, i: nat, k: nat)
    requires i < k < |files| && names(files[i].path) == names(files[k].path)
    requires forall m :: i < m < k ==> names(files[m].path) != names(files[i].path)
    ensures Lookup(RolledBack(disk, files, StopsAfter(k + 1), [], names), names(files[i].path)) == Some(files[i].data)
  {
    LastWriteWins(disk, [], files, k, names, i);
    LastSnapshot(disk, [], files, k + 1, names);
    var a := WriteAll(disk, [], files, StopsAfter(k + 1), names);
    LastRestoreWins(a.disk, a.owned, names);
  }

  ghost predicate AlwaysRollsBack(disk: Content, files: seq<ProcessFile>, names: Names) {
    forall fates, restores :: EveryRestoreSucceeds(restores) ==> RolledBack(disk, files, fates, restores, names) == disk
  }

  /** Wherever the writing stops, rolling back is the identity exactly when no file that is
      named twice is changed by a write before its last. */
  lemma RollsBackExactlyWhen(disk: Content, files: seq<ProcessFile>, names: Names)
    ensures AlwaysRollsBack(disk, files, names) <==> RewritesNothing(disk, files, names)
  {
    if RewritesNothing(disk, files, names) {
      forall fates, restores | EveryRestoreSucceeds(restores)
        ensures RolledBack(disk, files, fates, restores, names) == disk
      {
        RollbackIsIdentity(disk, files, fates, restores, names);
      }
    } else {
      var i, j :| 0 <= i < j < |files| && names(files[i].path) == names(files[j].path)
        && Lookup(disk, names(files[i].path)) != Some(files[i].data);
      var k := NextOfSameFile(files, names, i, j);
      RollbackLeavesData(disk, files, names, i, k);
      assert RolledBack(disk, files, StopsAfter(k + 1), [], names) != disk;
    }
  }

  /** Two spellings of one new file are accepted, and a rollback leaves the first data. */
  lemma TwoSpellingsLeaveData(names: Names, file: File)
    requires names("/d/f") == names("/d/./f") == file
    ensures var files := [ProcessFile("/d/f", [1], OnCompletion), ProcessFile("/d/./f", [2], OnCompletion)];
      DistinctPaths(files) && Lookup(RolledBack(map[], files, StopsAfter(2), [], names), file) == Some([1])
  {
    var files := [ProcessFile("/d/f", [1], OnCompletion), ProcessFile("/d/./f", [2], OnCompletion)];
    RollbackLeavesData(map[], files, names, 0, 1);
  }

  // ---------- successful writes, and the end of a run

  /** Writing succeeds exactly when no file's operations fail. */
  lemma {:induction false} WriteAllSucceedsExactlyWhen(disk: Content, owned: seq<OwnedFile>,
      files: seq<ProcessFile>, fates: seq<Fate>, names: Names)
    ensures WriteAll(disk, owned, files, fates, names).done
      <==> forall i :: 0 <= i < |files| && i < |fates| ==> fates[i].Succeeds?
    decreases |files|
  {
    if files != [] && FateOf(fates).Succeeds? {
      var f := files[0];
      WriteAllSucceedsExactlyWhen(Put(disk, names(f.path), Some(f.data)), owned + [Owning(disk, f, names)],
        files[1..], Rest(fates), names);
      assert forall i :: 1 <= i < |fates| ==> fates[i] == Rest(fates)[i - 1];
      assert forall i :: 0 <= i < |Rest(fates)| ==> Rest(fates)[i] == fates[i + 1];
    } else if files != [] {
      assert fates[0] == FateOf(fates);
    }
  }

  lemma {:induction false} OtherFilesKept(disk: Content, owned: seq<OwnedFile>, files: seq<ProcessFile>,
      fates: seq<Fate>, names: Names, file: File)
    requires forall k :: 0 <= k < |files| ==> names(files[k].path) != file
    ensures Lookup(WriteAll(disk, owned, files, fates, names).disk, file) == Lookup(disk, file)
    decreases |files|
  {
    if files != [] {
      var f := files[0];
      OtherFilesKept(Put(disk, names(f.path), Some(f.data)), owned + [Owning(disk, f, names)], files[1..],
        Rest(fates), names, file);
    }
  }

  /** A successful write leaves every file with the data written to it last. */
  lemma {:induction false} WrittenData(disk: Content, owned: seq<OwnedFile>, files: seq<ProcessFile>,
      fates: seq<Fate>, names: Names, i: nat)
    requires WriteAll(disk, owned, files, fates, names).done && i < |files|
    requires forall k :: i < k < |files| ==> names(files[k].path) != names(files[i].path)
    ensures Lookup(WriteAll(disk, owned, files, fates, names).disk, names(files[i].path)) == Some(files[i].data)
    decreases |files|
  {
    var f := files[0];
    var next, owning := Put(disk, names(f.path), Some(f.data)), owned + [Owning(disk, f, names)];
    if i == 0 {
      OtherFilesKept(next, owning, files[1..], Rest(fates), names, names(f.path));
    } else {
      WrittenData(next, owning, files[1..], Rest(fates), names, i - 1);
    }
  }

  /** It owns every file under its own path and policy, and touches no other file. */
  lemma {:induction false} WrittenFiles(disk: Content, owned: seq<OwnedFile>, files: seq<ProcessFile>,
      fates: seq<Fate>, names: Names)
    requires WriteAll(disk, owned, files, fates, names).done
    ensures var a := WriteAll(disk, owned, files, fates, names);
      && |a.owned| == |owned| + |files| && owned <= a.owned
      && (forall i :: 0 <= i < |files| ==> OwnedAs(a.owned[|owned| + i], files[i]))
      && (forall file :: (forall k :: 0 <= k < |files| ==> names(files[k].path) != file) ==>
          Lookup(a.disk, file) == Lookup(disk, file))
    decreases |files|
  {
    if files != [] {
      var f, rest := files[0], files[1..];
      var owning := owned + [Owning(disk, f, names)];
      WrittenFiles(Put(disk, names(f.path), Some(f.data)), owning, rest, Rest(fates), names);
      var a := WriteAll(disk, owned, files, fates, names);
      forall i | 0 <= i < |files| ensures OwnedAs(a.owned[|owned| + i], files[i]) {
        if i > 0 {
          assert files[i] == rest[i - 1] && a.owned[|owning| + (i - 1)] == a.owned[|owned| + i];
        } else {
          assert a.owned[|owned|] == owning[|owned|];
        }
      }
      forall file | forall k :: 0 <= k < |files| ==> names(files[k].path) != file
        ensures Lookup(a.disk, file) == Lookup(disk, file)
      {
        OtherFilesKept(disk, owned, files, fates, names, file);
      }
    }
  }

  predicate OwnedAs(o: OwnedFile, f: ProcessFile) {
    o.path == f.path && o.cleanup == f.cleanup
  }

  /** One of the given files releases this file at the end of the run. */
  predicate ReleasedByPolicy(files: seq<ProcessFile>, file: File, success: bool, names: Names) {
    exists k :: 0 <= k < |files| && names(files[k].path) == file
      && (files[k].cleanup == OnCompletion || (files[k].cleanup == OnSuccess && success))
  }

  /** At the end of a run that may have changed any file, a released file has the content it
      had before the run, and every other file keeps what the run left. */
  lemma RunEndRestores(before: Content, files: seq<ProcessFile>, fates: seq<Fate>, after: Content, success: bool,
      restores: seq<Restore>, names: Names, file: File)
    requires RewritesNothing(before, files, names) && EveryRestoreSucceeds(restores)
    requires WriteAll(before, [], files, fates, names).done
    ensures var owned := WriteAll(before, [], files, fates, names).owned;
      var end := CleanedUp(after, owned, success, false, restores, names);
      Lookup(end, file) ==
        if ReleasedByPolicy(files, file, success, names) then Lookup(before, file) else Lookup(after, file)
  {
    var a := WriteAll(before, [], files, fates, names);
    WriteAllTracks(before, before, [], files, fates, names);
    WrittenFiles(before, [], files, fates, names);
    CleanupRestores(before, after, a.owned, success, false, restores, names, file);
    assert forall k :: 0 <= k < |files| ==> OwnedAs(a.owned[0 + k], files[k]);
    if ReleasedByPolicy(files, file, success, names) {
      var k :| 0 <= k < |files| && names(files[k].path) == file
        && (files[k].cleanup == OnCompletion || (files[k].cleanup == OnSuccess && success));
      assert a.owned[0 + k] in a.owned;
    }
    if ReleasesFile(a.owned, file, success, false, names) {
      var o :| o in a.owned && names(o.path) == file && Released(o, success, false);
      var k :| 0 <= k < |a.owned| && a.owned[k] == o;
      assert OwnedAs(a.owned[0 + k], files[k]);
    }
  }

  // ---------- writes and restores that fail

  /** The operations go well for `k` files and fail for the next. */
  predicate FailsAt(fates: seq<Fate>, k: nat) {
    k < |fates| && !fates[k].Succeeds? && forall i :: 0 <= i < k ==> fates[i].Succeeds?
  }

  /** Writing that fails at a file has done what writing only the files before it does; and
      when it was the write itself that failed, that file is owned too and holds what the
      write left there. */
  lemma {:induction false} WritingStopsAt(disk: Content, owned: seq<OwnedFile>, files: seq<ProcessFile>,
      fates: seq<Fate>, names: Names, k: nat)
    requires k < |files| && FailsAt(fates, k)
    ensures var a, b := WriteAll(disk, owned, files, fates, names), WriteAll(disk, owned, files[..k], [], names);
      b.done && !a.done &&
      if fates[k].WriteFails? then
        && a.owned == b.owned + [OwnedFile(files[k].path, Lookup(b.disk, names(files[k].path)), files[k].cleanup)]
        && Lookup(a.disk, names(files[k].path)) == fates[k].left
        && (forall file :: file != names(files[k].path) ==> Lookup(a.disk, file) == Lookup(b.disk, file))
      else a.owned == b.owned && a.disk == b.disk
    decreases k
  {
    var f := files[0];
    if k > 0 {
      var next, owning := Put(disk, names(f.path), Some(f.data)), owned + [Owning(disk, f, names)];
      assert files[..k][1..] == files[1..][..k - 1] && files[..k][0] == f;
      assert fates[0].Succeeds?;
      forall i | 0 <= i < k - 1 ensures Rest(fates)[i].Succeeds? {
        assert Rest(fates)[i] == fates[i + 1];
      }
      WritingStopsAt(next, owning, files[1..], Rest(fates), names, k - 1);
    } else {
      assert files[..0] == [];
    }
  }

  /** Every snapshot is what its file held just before it was written. */
  lemma {:induction false} SnapshotsAreBefore(disk: Content, owned: seq<OwnedFile>, files: seq<ProcessFile>,
      names: Names, k: nat)
    requires k < |files|
    ensures var a := WriteAll(disk, owned, files, [], names);
      |a.owned| == |owned| + |files|
      && a.owned[|owned| + k].previous
         == Lookup(WriteAll(disk, owned, files[..k], [], names).disk, names(files[k].path))
    decreases |files|
  {
    var f := files[0];
    var next, owning := Put(disk, names(f.path), Some(f.data)), owned + [Owning(disk, f, names)];
    WriteAllSucceedsExactlyWhen(disk, owned, files, [], names);
    WriteAllSucceedsExactlyWhen(next, owning, files[1..], [], names);
    WrittenFiles(disk, owned, files, [], names);
    WrittenFiles(next, owning, files[1..], [], names);
    if k > 0 {
      assert files[..k][1..] == files[1..][..k - 1] && files[..k][0] == f;
      SnapshotsAreBefore(next, owning, files[1..], names, k - 1);
    } else {
      assert files[..0] == [];
      assert WriteAll(disk, owned, files, [], names).owned[|owned|] == owning[|owned|];
    }
  }

  /** The last record that is released for a file. */
  predicate LastReleased(owned: seq<OwnedFile>, success: bool, rollback: bool, names: Names, k: nat) {
    && k < |owned| && Released(owned[k], success, rollback)
    && forall j :: k < j < |owned| && Released(owned[j], success, rollback) ==>
         names(owned[j].path) != names(owned[k].path)
  }

  predicate FailsRestore(restores: seq<Restore>, k: nat) {
    k < |restores| && restores[k].NotRestored?
  }

  lemma {:induction false} CleanupSpares(disk: Content, owned: seq<OwnedFile>, success: bool, rollback: bool,
      restores: seq<Restore>, names: Names, file: File)
    requires forall j :: 0 <= j < |owned| && Released(owned[j], success, rollback) ==> names(owned[j].path) != file
    ensures Lookup(CleanedUp(disk, owned, success, rollback, restores, names), file) == Lookup(disk, file)
    decreases |owned|
  {
    if owned != [] {
      var o := owned[0];
      var failed := FailsRestore(restores, 0);
      var next := if !Released(o, success, rollback) then disk
        else Put(disk, names(o.path), if failed then restores[0].left else o.previous);
      CleanupSpares(next, owned[1..], success, rollback, Rest(restores), names, file);
    }
  }

  /** Whatever restores fail, cleanup goes on: a file ends with the snapshot of the last record
      that is released for it, or with what that one's failed restore left. */
  lemma {:induction false} CleanupGoesOn(disk: Content, owned: seq<OwnedFile>, success: bool, rollback: bool,
      restores: seq<Restore>, names: Names, k: nat)
    requires LastReleased(owned, success, rollback, names, k)
    ensures Lookup(CleanedUp(disk, owned, success, rollback, restores, names), names(owned[k].path))
         == if FailsRestore(restores, k) then restores[k].left else owned[k].previous
    decreases |owned|
  {
    var o, rest := owned[0], owned[1..];
    var failed := FailsRestore(restores, 0);
    var next := if !Released(o, success, rollback) then disk
      else Put(disk, names(o.path), if failed then restores[0].left else o.previous);
    if k > 0 {
      CleanupGoesOn(next, rest, success, rollback, Rest(restores), names, k - 1);
    } else {
      CleanupSpares(next, rest, success, rollback, Rest(restores), names, names(o.path));
    }
  }
}
