/** Object identities, owned destinations and pruning. */
module Ownership {
  import opened Wrappers
  import opened FileSystems

  const RECEIPT: Relative := [".dcc-mcp-obs-install.json"]

  /**
    What lstat tells apart. A directory's link count, size and time change with its
    children, so they are not part of its identity.
   */
  datatype Identity =
    | DirectoryIdentity(id: int, mode: int)
    | FileIdentity(id: int, mode: int, mtime: int, size: nat)

  type Identities = map<Relative, Identity>

  datatype Snapshot = Snapshot(data: Bytes, mode: int)

  datatype Error =
    | PluginDrift
    | ReceiptInvalid
    | RecoveryRequired
    | InstallFailed
    | UninstallFailed
    | OsError

  function DirectoryIdentityOf(d: Directory): Identity {
    DirectoryIdentity(d.id, d.mode)
  }

  function FileIdentityOf(f: File): Identity {
    FileIdentity(f.id, f.mode, f.mtime, |f.data|)
  }

  function IdentityAt(files: Files, dirs: Directories, p: Path): Option<Identity> {
    match Lookup(dirs, p)
    case Some(d) => Some(DirectoryIdentityOf(d))
    case None =>
      match Lookup(files, p)
      case Some(f) => Some(FileIdentityOf(f))
      case None => None
  }

  function SnapshotOf(f: File): Snapshot {
    Snapshot(f.data, f.mode)
  }

  /** The bytes and permission bits stored in a file, whatever object holds them. */
  function ContentAt(files: Files, p: Path): Option<Snapshot> {
    match Lookup(files, p)
    case Some(f) => Some(SnapshotOf(f))
    case None => None
  }

  /** Still the same object; a file may have been rewritten in place. */
  predicate SameObject(prior: Identity, current: Identity) {
    if prior.DirectoryIdentity? then current == prior else current.FileIdentity? && current.id == prior.id
  }

  /** The path still holds the file, or the directory with its mode, that was recorded. */
  ghost predicate StillThere(files: Files, dirs: Directories, p: Path, prior: Identity) {
    match prior
    case DirectoryIdentity(id, mode) => p in dirs && dirs[p].id == id && dirs[p].mode == mode
    case FileIdentity(id, _, _, _) => p !in dirs && p in files && files[p].id == id
  }

  lemma SameObjectIsStillThere(files: Files, dirs: Directories, p: Path, prior: Identity)
    ensures StillThere(files, dirs, p, prior) <==>
            IdentityAt(files, dirs, p).Some? && SameObject(prior, IdentityAt(files, dirs, p).value)
  {}

  /** a is one of the directories that have to exist above rel, below the top. */
  predicate IsAncestor(a: Relative, rel: Relative) {
    a != [] && a < rel
  }

  predicate AncestorsAreDirectories(dirs: Directories, top: string, rel: Relative) {
    forall i | 0 < i < |rel| :: Path(top, rel[..i]) in dirs
  }

  predicate NoFileAbove(files: Files, top: string, rel: Relative) {
    forall i | 0 < i < |rel| :: Path(top, rel[..i]) !in files
  }

  /** dirs' has the directories of dirs, and others only among the ancestors of rel in top. */
  ghost predicate GrownAbove(dirs: Directories, dirs': Directories, top: string, rel: Relative) {
    && (forall p | p in dirs :: p in dirs' && dirs'[p] == dirs[p])
    && (forall p | p in dirs' :: p in dirs || (p.top == top && IsAncestor(p.rel, rel)))
  }

  /** Making the directories above rel has come as far as rel[..j], which could not be made. */
  ghost predicate BrokenOff(dirs: Directories, dirs': Directories, top: string, rel: Relative, j: nat) {
    && 0 < j < |rel|
    && forall p | p in dirs' && p !in dirs :: p.top == top && p.rel < rel[..j]
  }

  /** The system lets the first n directories above rel be made, but not the next one. */
  ghost predicate Blocked(mkdirs: Path -> Habit, top: string, rel: Relative, n: nat) {
    && 0 < n && n + 1 < |rel|
    && (forall k | 0 < k <= n :: mkdirs(Path(top, rel[..k])) == Always)
    && mkdirs(Path(top, rel[..n + 1])) == Never
  }

  ghost predicate NothingAbove(files: Files, dirs: Directories, top: string, rel: Relative) {
    forall k | 0 < k < |rel| :: !Exists(files, dirs, Path(top, rel[..k]))
  }

  method PrepareOwnedDestination(fs: FileSystem, top: string, rel: Relative) returns (ok: bool)
    requires fs.Valid() && rel != []
    modifies fs`dirs, fs`faults
    ensures fs.Valid() && old(fs.faults) <= fs.faults <= old(fs.faults) + 1
    ensures ok ==> fs.faults == old(fs.faults)
    ensures GrownAbove(old(fs.dirs), fs.dirs, top, rel)
    ensures ok ==> AncestorsAreDirectories(fs.dirs, top, rel)
    ensures fs.faults == old(fs.faults) && old(Path(top, []) in fs.dirs) ==> ok == NoFileAbove(fs.files, top, rel)
    ensures fs.faults > old(fs.faults) ==> exists j {:trigger BrokenOff(old(fs.dirs), fs.dirs, top, rel, j)} ::
              BrokenOff(old(fs.dirs), fs.dirs, top, rel, j)
    ensures forall n: nat | Blocked(fs.mkdirs, top, rel, n) ::
              old(Path(top, []) in fs.dirs && NothingAbove(fs.files, fs.dirs, top, rel)) ==>
                !ok && fs.faults == old(fs.faults) + 1 && Path(top, rel[..1]) in fs.dirs
  {
    ghost var clear := Path(top, []) in fs.dirs && NothingAbove(fs.files, fs.dirs, top, rel);
    var i := 1;
    while i < |rel|
      invariant 1 <= i <= |rel|
      invariant fs.Valid() && fs.faults == old(fs.faults)
      invariant GrownAbove(old(fs.dirs), fs.dirs, top, rel)
      invariant forall k | 0 < k < i :: Path(top, rel[..k]) in fs.dirs
      invariant forall p | p in fs.dirs && p !in old(fs.dirs) :: p.top == top && p.rel < rel[..i]
      invariant clear ==> Path(top, []) in fs.dirs && forall k | i <= k < |rel| :: !Exists(fs.files, fs.dirs, Path(top, rel[..k]))
      invariant clear ==> forall n: nat | Blocked(fs.mkdirs, top, rel, n) :: i <= n + 1
    {
      var current := Path(top, rel[..i]);
      assert Parent(current) == Path(top, rel[..i - 1]);
      if Exists(fs.files, fs.dirs, current) {
        if current !in fs.dirs {
          return false;
        }
      } else {
        ok := fs.Mkdir(current);
        if !ok {
          assert BrokenOff(old(fs.dirs), fs.dirs, top, rel, i);
          return false;
        }
      }
      i := i + 1;
    }
    ok := true;
  }

  /** Every path of a set, parents before the paths below them. */
  method ByDepth(rels: set<Relative>) returns (order: seq<Relative>)
    ensures forall r :: r in order <==> r in rels
    ensures forall i, j | 0 <= i < j < |order| :: order[i] != order[j] && |order[i]| <= |order[j]|
  {
    order := [];
    var rest := rels;
    while rest != {}
      invariant forall r :: r in rels <==> r in order || r in rest
      invariant forall i | 0 <= i < |order| :: order[i] !in rest
      invariant forall i, j | 0 <= i < j < |order| :: order[i] != order[j] && |order[i]| <= |order[j]|
      invariant forall i, r | 0 <= i < |order| && r in rest :: |order[i]| <= |r|
      decreases rest
    {
      var any :| any in rest;
      ShallowestExists(rest, any);
      var r :| r in rest && forall q | q in rest :: |r| <= |q|;
      order, rest := order + [r], rest - {r};
    }
  }

  lemma {:induction false} ShallowestExists(rels: set<Relative>, any: Relative)
    requires any in rels
    ensures exists r :: r in rels && forall q | q in rels :: |r| <= |q|
    decreases |any|
  {
    if q :| q in rels && |q| < |any| {
      ShallowestExists(rels, q);
    }
  }

  lemma {:induction false} DeepestExists(rels: set<Relative>, any: Relative)
    requires any in rels
    ensures exists r :: r in rels && forall q | q in rels :: |r| >= |q|
    decreases rels
  {
    if q :| q in rels && |q| > |any| {
      var deeper := set s | s in rels && |s| > |any|;
      assert deeper < rels by {
        assert any !in deeper;
      }
      DeepestExists(deeper, q);
    }
  }

  /** The directories that have to exist above some of rels. */
  function AncestorsOf(rels: seq<Relative>): set<Relative> {
    set r, i | r in rels && 0 < i < |r| :: r[..i]
  }

  lemma AncestorsOfMember(rels: seq<Relative>, a: Relative)
    ensures a in AncestorsOf(rels) <==> exists r :: r in rels && IsAncestor(a, r)
  {
    if r :| r in rels && IsAncestor(a, r) {
      assert a == r[..|a|];
    }
  }

  /** dirs' is dirs without some of the directories that gone names in top. */
  ghost predicate ShrunkTo(dirs: Directories, dirs': Directories, top: string, gone: set<Relative>) {
    && (forall p | p in dirs' :: p in dirs && dirs'[p] == dirs[p])
    && (forall p | p in dirs :: p in dirs' || (p.top == top && p.rel in gone))
  }

  /**
    Removes the emptied directories of rels, the deepest first, ignoring failures.
    Without a fault none of them is left empty.
   */
  method PruneEmptyOwnedDirectories(fs: FileSystem, top: string, rels: seq<Relative>)
    requires fs.Valid()
    modifies fs`dirs, fs`faults
    ensures fs.Valid() && fs.faults >= old(fs.faults)
    ensures ShrunkTo(old(fs.dirs), fs.dirs, top, AncestorsOf(rels))
    ensures fs.faults == old(fs.faults) ==> NoneLeftEmpty(fs.files, fs.dirs, top, AncestorsOf(rels))
  {
    PruneDirectories(fs, top, AncestorsOf(rels));
  }

  ghost predicate NoneLeftEmpty(files: Files, dirs: Directories, top: string, rels: set<Relative>) {
    forall a | a in rels && Path(top, a) in dirs :: !IsEmpty(files, dirs, Path(top, a))
  }

  method PruneDirectories(fs: FileSystem, top: string, rels: set<Relative>)
    requires fs.Valid()
    modifies fs`dirs, fs`faults
    ensures fs.Valid() && fs.faults >= old(fs.faults)
    ensures ShrunkTo(old(fs.dirs), fs.dirs, top, rels)
    ensures fs.faults == old(fs.faults) ==> NoneLeftEmpty(fs.files, fs.dirs, top, rels)
  {
    var order := ByDepth(rels);
    var i := |order|;
    while i > 0
      invariant 0 <= i <= |order|
      invariant fs.Valid() && fs.faults >= old(fs.faults)
      invariant ShrunkTo(old(fs.dirs), fs.dirs, top, rels)
      invariant fs.faults == old(fs.faults) ==>
                  forall k | i <= k < |order| && Path(top, order[k]) in fs.dirs ::
                    !IsEmpty(fs.files, fs.dirs, Path(top, order[k]))
    {
      i := i - 1;
      ghost var before := fs.dirs;
      var p := Path(top, order[i]);
      assert p.rel in rels;
      var removed := fs.Rmdir(p);
      if removed {
        forall k | i < k < |order| && !IsEmpty(fs.files, before, Path(top, order[k]))
          ensures !IsEmpty(fs.files, fs.dirs, Path(top, order[k]))
        {
          StillNotEmpty(fs.files, before, p, Path(top, order[k]));
        }
      }
    }
  }

  lemma StillNotEmpty(files: Files, dirs: Directories, p: Path, d: Path)
    requires |p.rel| <= |d.rel| && !IsEmpty(files, dirs, d)
    ensures !IsEmpty(files, dirs - {p}, d)
  {
    if !(exists q :: q in files && IsChild(q, d)) {
      var q :| q in dirs && IsChild(q, d);
      assert q in dirs - {p};
    }
  }

  const MAX_ARCHIVE_BYTES := 256 * 1024 * 1024

  /** What an installation with these files owns: the target, its receipt, each file and the directories above. */
  function OwnedKeys(rels: seq<Relative>): set<Relative> {
    {[]} + PathsTo(rels + [RECEIPT])
  }

  function Prefixes(rel: Relative): set<Relative> {
    set i | 0 < i <= |rel| :: rel[..i]
  }

  /** The paths of rels and every directory above them, below the top. */
  function PathsTo(rels: seq<Relative>): set<Relative> {
    set r, k | r in rels && k in Prefixes(r) :: k
  }

  lemma PathsToOneMore(rels: seq<Relative>, rel: Relative)
    ensures PathsTo(rels + [rel]) == PathsTo(rels) + Prefixes(rel)
    ensures PathsTo([]) == {}
  {}

  lemma PrefixMember(k: Relative, rel: Relative)
    ensures k in Prefixes(rel) <==> (rel != [] && k == rel) || IsAncestor(k, rel)
  {
    if (rel != [] && k == rel) || IsAncestor(k, rel) {
      assert k == rel[..|k|];
    }
  }

  function Capture(files: Files, dirs: Directories, top: string, rels: seq<Relative>): Option<Identities> {
    if forall k | k in OwnedKeys(rels) :: Exists(files, dirs, Path(top, k)) then
      Some(map k | k in OwnedKeys(rels) :: IdentityAt(files, dirs, Path(top, k)).value)
    else
      None
  }

  lemma CaptureStable(files: Files, dirs: Directories, files': Files, dirs': Directories, top: string, rels: seq<Relative>)
    requires forall k: Relative ::
               && Lookup(files, Path(top, k)) == Lookup(files', Path(top, k))
               && Lookup(dirs, Path(top, k)) == Lookup(dirs', Path(top, k))
    ensures Capture(files, dirs, top, rels) == Capture(files', dirs', top, rels)
  {
    hide OwnedKeys;
    forall k: Relative
      ensures Exists(files, dirs, Path(top, k)) == Exists(files', dirs', Path(top, k))
      ensures IdentityAt(files, dirs, Path(top, k)) == IdentityAt(files', dirs', Path(top, k))
    {
      assert Lookup(files, Path(top, k)) == Lookup(files', Path(top, k));
    }
    if forall k | k in OwnedKeys(rels) :: Exists(files, dirs, Path(top, k)) {
      assert Capture(files, dirs, top, rels).value == Capture(files', dirs', top, rels).value;
    }
  }

  predicate DirectoriesCurrent(files: Files, dirs: Directories, top: string, expected: Identities) {
    forall d | d in expected && expected[d].DirectoryIdentity? ::
      IdentityAt(files, dirs, Path(top, d)) == Some(expected[d])
  }

  predicate SourceCurrent(files: Files, dirs: Directories, top: string, rel: Relative, expected: Identities) {
    && DirectoriesCurrent(files, dirs, top, expected)
    && rel in expected
    && IdentityAt(files, dirs, Path(top, rel)) == Some(expected[rel])
  }

  /** rel is still the expected regular file, and small enough to be kept in memory. */
  predicate Snapshotable(files: Files, dirs: Directories, top: string, rel: Relative, expected: Identities) {
    && SourceCurrent(files, dirs, top, rel, expected)
    && Path(top, rel) in files
    && |files[Path(top, rel)].data| <= MAX_ARCHIVE_BYTES
  }

  /** Keeps the bytes and mode of every file, or reports that one is not the expected object. */
  method SnapshotOwnedFiles(fs: FileSystem, top: string, rels: seq<Relative>, expected: Identities)
    returns (ok: bool, snapshot: map<Relative, Snapshot>)
    ensures ok == forall r | r in rels :: Snapshotable(fs.files, fs.dirs, top, r, expected)
    ensures ok ==> forall r :: r in snapshot <==> r in rels
    ensures ok ==> forall r | r in rels :: ContentAt(fs.files, Path(top, r)) == Some(snapshot[r])
  {
    snapshot := map[];
    var i := 0;
    while i < |rels|
      invariant 0 <= i <= |rels|
      invariant forall r | r in rels[..i] :: Snapshotable(fs.files, fs.dirs, top, r, expected)
      invariant forall r :: r in snapshot <==> r in rels[..i]
      invariant forall r | r in rels[..i] :: ContentAt(fs.files, Path(top, r)) == Some(snapshot[r])
    {
      if !Snapshotable(fs.files, fs.dirs, top, rels[i], expected) {
        return false, map[];
      }
      snapshot := snapshot[rels[i] := SnapshotOf(fs.files[Path(top, rels[i])])];
      i := i + 1;
    }
    ok := true;
  }

  /** Exclusive creation, write and chmod; a failure may leave a partial file behind. */
  method RestoreOwnedSnapshot(fs: FileSystem, destination: Path, snapshot: Snapshot) returns (ok: bool)
    requires fs.Valid()
    modifies fs`files, fs`faults
    ensures fs.Valid() && old(fs.faults) <= fs.faults <= old(fs.faults) + 1
    ensures ok ==> fs.faults == old(fs.faults)
    ensures forall p | p != destination :: Lookup(fs.files, p) == old(Lookup(fs.files, p))
    ensures ok ==> !old(Exists(fs.files, fs.dirs, destination)) && ContentAt(fs.files, destination) == Some(snapshot)
    ensures old(Exists(fs.files, fs.dirs, destination)) ==> fs.files == old(fs.files)
    ensures fs.faults == old(fs.faults) ==>
              ok == old(!Exists(fs.files, fs.dirs, destination) && HasParent(fs.dirs, destination))
  {
    ok := fs.WriteExclusive(destination, snapshot.data);
    if ok {
      ok := fs.ChmodFile(destination, snapshot.mode);
    }
  }
}
