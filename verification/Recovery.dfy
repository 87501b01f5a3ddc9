/** The recovery tree that an upgrade or an uninstall keeps until it has committed. */
module Recovery {
  import opened Wrappers
  import opened FileSystems
  import opened Ownership

  /** The objects a recovery tree has to hold, and the publication that allows its retirement. */
  class RecoveryIdentity {
    var entries: Identities
    var publishedTarget: string
    var publishedRelatives: seq<Relative>
    var publishedIdentity: Identities
    var guardActive: bool

    constructor (root: Identity, target: string, relatives: seq<Relative>)
      ensures entries == map[[] := root] && !guardActive
      ensures publishedTarget == target && publishedRelatives == relatives
    {
      entries := map[[] := root];
      publishedTarget, publishedRelatives := target, relatives;
      publishedIdentity, guardActive := map[], false;
    }

    predicate PublishedCurrent(files: Files, dirs: Directories)
      reads this
    {
      guardActive ==> Capture(files, dirs, publishedTarget, publishedRelatives) == Some(publishedIdentity)
    }
  }

  /** The tree named top holds exactly the expected objects, and nothing else. */
  ghost predicate Exact(files: Files, dirs: Directories, top: string, expected: Identities) {
    forall rel: Relative :: IdentityAt(files, dirs, Path(top, rel)) == Lookup(expected, rel)
  }

  ghost predicate NothingIn(files: Files, dirs: Directories, top: string) {
    forall rel: Relative :: !Exists(files, dirs, Path(top, rel))
  }

  function Last(rel: Relative): string
    requires rel != []
  {
    rel[|rel| - 1]
  }

  function Above(rel: Relative): Relative
    requires rel != []
  {
    rel[..|rel| - 1]
  }

  function ChildNames(files: Files, dirs: Directories, p: Path): set<string> {
    set q | q in files.Keys + dirs.Keys && IsChild(q, p) :: Last(q.rel)
  }

  predicate ParentExpected(expected: Identities, rel: Relative) {
    rel == [] || (Above(rel) in expected && expected[Above(rel)].DirectoryIdentity?)
  }

  ghost predicate ParentsExpected(expected: Identities) {
    forall rel {:trigger ParentExpected(expected, rel)} | rel in expected :: ParentExpected(expected, rel)
  }

  lemma ChildNamesMember(files: Files, dirs: Directories, top: string, d: Relative, name: string)
    ensures name in ChildNames(files, dirs, Path(top, d)) <==> Exists(files, dirs, Path(top, d + [name]))
  {
    var q := Path(top, d + [name]);
    assert Parent(q) == Path(top, d) && Last(q.rel) == name;
    if c :| c in files.Keys + dirs.Keys && IsChild(c, Path(top, d)) && Last(c.rel) == name {
      assert c.rel == Above(c.rel) + [Last(c.rel)];
      assert c == q;
    }
    if Exists(files, dirs, q) {
      assert q in files.Keys + dirs.Keys && IsChild(q, Path(top, d));
    }
  }

  /** What the inventory check looks at: one directory listing at a time. */
  ghost predicate ListingsMatch(files: Files, dirs: Directories, top: string, expected: Identities) {
    && (forall rel | rel in expected :: IdentityAt(files, dirs, Path(top, rel)) == Some(expected[rel]))
    && ParentsExpected(expected)
    && (forall d, name | d in expected && expected[d].DirectoryIdentity? ::
          Exists(files, dirs, Path(top, d + [name])) ==> d + [name] in expected)
  }

  lemma ListedIsExpected(
    files: Files, dirs: Directories, top: string, expected: Identities, d: Relative, name: string)
    requires ListingsMatch(files, dirs, top, expected) && d in expected
    requires Lookup(dirs, Path(top, d)).Some? && Lookup(files, Path(top, d)).None?
    requires Exists(files, dirs, Path(top, d + [name]))
    ensures d + [name] in expected
  {
    assert IdentityAt(files, dirs, Path(top, d)) == Some(expected[d]);
  }

  lemma {:induction false} ListedOnlyExpected(files: Files, dirs: Directories, top: string, expected: Identities, rel: Relative)
    requires WellFormed(files, dirs) && [] in expected && ListingsMatch(files, dirs, top, expected)
    requires Exists(files, dirs, Path(top, rel))
    ensures rel in expected
    decreases |rel|
  {
    if rel != [] {
      hide ListingsMatch;
      var d := Above(rel);
      assert HasParent(dirs, Path(top, rel)) && Parent(Path(top, rel)) == Path(top, d);
      assert Lookup(dirs, Path(top, d)).Some? && Lookup(files, Path(top, d)).None?;
      ListedOnlyExpected(files, dirs, top, expected, d);
      assert rel == d + [Last(rel)];
      ListedIsExpected(files, dirs, top, expected, d, Last(rel));
    }
  }

  /** Checking listing by listing decides whether the whole tree is the expected one. */
  lemma ListingsDecideExactness(files: Files, dirs: Directories, top: string, expected: Identities)
    requires WellFormed(files, dirs) && [] in expected
    ensures ListingsMatch(files, dirs, top, expected) <==> Exact(files, dirs, top, expected)
  {
    if ListingsMatch(files, dirs, top, expected) {
      forall rel: Relative
        ensures IdentityAt(files, dirs, Path(top, rel)) == Lookup(expected, rel)
      {
        if Exists(files, dirs, Path(top, rel)) {
          ListedOnlyExpected(files, dirs, top, expected, rel);
        }
      }
    }
    if Exact(files, dirs, top, expected) {
      forall rel | rel in expected && rel != []
        ensures ParentExpected(expected, rel)
      {
        assert IdentityAt(files, dirs, Path(top, rel)) == Lookup(expected, rel);
        assert HasParent(dirs, Path(top, rel)) && Parent(Path(top, rel)) == Path(top, Above(rel));
        assert IdentityAt(files, dirs, Path(top, Above(rel))) == Lookup(expected, Above(rel));
      }
      forall d, name | d in expected && Exists(files, dirs, Path(top, d + [name]))
        ensures d + [name] in expected
      {
        assert IdentityAt(files, dirs, Path(top, d + [name])) == Lookup(expected, d + [name]);
      }
    }
  }

  predicate HasRoot(expected: Identities) {
    [] in expected && expected[[]].DirectoryIdentity?
  }

  type Children = map<Relative, set<string>>

  ghost predicate ChildrenOf(expected: Identities, children: Children) {
    && (forall d :: d in children <==> d in expected && expected[d].DirectoryIdentity?)
    && (forall d, name | d in children :: name in children[d] <==> d + [name] in expected)
  }

  method ExpectedChildren(expected: Identities) returns (ok: bool, children: Children)
    requires HasRoot(expected)
    ensures ok == ParentsExpected(expected)
    ensures ok ==> ChildrenOf(expected, children)
  {
    children := map d | d in expected && expected[d].DirectoryIdentity? :: {};
    var rest := expected.Keys - {[]};
    while rest != {}
      invariant rest <= expected.Keys - {[]}
      invariant forall d :: d in children <==> d in expected && expected[d].DirectoryIdentity?
      invariant forall d, name | d in children :: name in children[d] <==> d + [name] in expected.Keys - rest
      invariant forall rel {:trigger ParentExpected(expected, rel)} | rel in expected && rel !in rest :: ParentExpected(expected, rel)
      decreases rest
    {
      var rel :| rel in rest;
      if Above(rel) !in children {
        assert !ParentExpected(expected, rel);
        return false, children;
      }
      assert rel == Above(rel) + [Last(rel)];
      children := children[Above(rel) := children[Above(rel)] + {Last(rel)}];
      rest := rest - {rel};
    }
    ok := true;
  }

  predicate ListingsEqual(files: Files, dirs: Directories, top: string, children: Children) {
    forall d | d in children :: ChildNames(files, dirs, Path(top, d)) == children[d]
  }

  predicate FilesCurrent(files: Files, dirs: Directories, top: string, expected: Identities) {
    forall rel | rel in expected && rel != [] && expected[rel].FileIdentity? ::
      IdentityAt(files, dirs, Path(top, rel)) == Some(expected[rel])
  }

  lemma ChildrenDecideExactness(files: Files, dirs: Directories, top: string, expected: Identities, children: Children)
    requires WellFormed(files, dirs) && HasRoot(expected) && ParentsExpected(expected) && ChildrenOf(expected, children)
    requires DirectoriesCurrent(files, dirs, top, expected)
    ensures ListingsEqual(files, dirs, top, children) && FilesCurrent(files, dirs, top, expected)
            <==> Exact(files, dirs, top, expected)
  {
    ListingsDecideExactness(files, dirs, top, expected);
    forall d, name
      ensures name in ChildNames(files, dirs, Path(top, d)) <==> Exists(files, dirs, Path(top, d + [name]))
    {
      ChildNamesMember(files, dirs, top, d, name);
    }
    if ListingsEqual(files, dirs, top, children) && FilesCurrent(files, dirs, top, expected) {
      assert ListingsMatch(files, dirs, top, expected);
    }
    if Exact(files, dirs, top, expected) {
      forall d | d in children
        ensures ChildNames(files, dirs, Path(top, d)) == children[d]
      {
        forall name
          ensures name in children[d] <==> name in ChildNames(files, dirs, Path(top, d))
        {
          assert IdentityAt(files, dirs, Path(top, d + [name])) == Lookup(expected, d + [name]);
        }
      }
    }
  }

  method RequireExactRecoveryInventory(fs: FileSystem, top: string, expected: Identities) returns (ok: bool)
    requires fs.Valid() && HasRoot(expected)
    ensures ok == Exact(fs.files, fs.dirs, top, expected)
  {
    ListingsDecideExactness(fs.files, fs.dirs, top, expected);
    ok := DirectoriesCurrent(fs.files, fs.dirs, top, expected);
    if ok {
      var children: Children;
      ok, children := ExpectedChildren(expected);
      if ok {
        ChildrenDecideExactness(fs.files, fs.dirs, top, expected, children);
        ok := ListingsEqual(fs.files, fs.dirs, top, children) && FilesCurrent(fs.files, fs.dirs, top, expected);
      }
    }
  }

  type Snapshots = map<Relative, Snapshot>

  function DirectoriesIn(expected: Identities): set<Relative> {
    set rel | rel in expected && expected[rel].DirectoryIdentity?
  }

  function FilesIn(expected: Identities): set<Relative> {
    set rel | rel in expected && expected[rel].FileIdentity?
  }

  /** The files of original that are still there are the original ones, with the bytes of the snapshots. */
  ghost predicate Intact(files: Files, dirs: Directories, top: string, original: Identities, snapshots: Snapshots) {
    && snapshots.Keys == FilesIn(original)
    && (forall rel | rel in snapshots && Exists(files, dirs, Path(top, rel)) ::
          && IdentityAt(files, dirs, Path(top, rel)) == Some(original[rel])
          && ContentAt(files, Path(top, rel)) == Some(snapshots[rel]))
  }

  /** Whatever is in the tree is one of the original objects. */
  ghost predicate NothingUnexpected(files: Files, dirs: Directories, top: string, original: Identities) {
    forall rel: Relative | Exists(files, dirs, Path(top, rel)) ::
      IdentityAt(files, dirs, Path(top, rel)) == Lookup(original, rel)
  }

  ghost predicate NothingForeign(files: Files, dirs: Directories, top: string, original: Identities) {
    forall rel: Relative | Exists(files, dirs, Path(top, rel)) :: rel in original
  }

  ghost predicate AllContents(files: Files, top: string, snapshots: Snapshots) {
    forall rel | rel in snapshots :: ContentAt(files, Path(top, rel)) == Some(snapshots[rel])
  }

  ghost predicate AllDirectories(dirs: Directories, top: string, original: Identities) {
    forall rel | rel in DirectoriesIn(original) ::
      HasMode(dirs, Path(top, rel), original[rel].mode)
  }

  predicate HasMode(dirs: Directories, p: Path, mode: int) {
    Lookup(dirs, p).Some? && Lookup(dirs, p).value.mode == mode
  }

  method RestoreDirectory(fs: FileSystem, p: Path, prior: Identity) returns (ok: bool)
    requires fs.Valid() && prior.DirectoryIdentity?
    modifies fs`dirs, fs`faults
    ensures fs.Valid() && old(fs.faults) <= fs.faults <= old(fs.faults) + 1
    ensures ok ==> fs.faults == old(fs.faults)
    ensures forall q | q != p || old(p in fs.dirs) :: Lookup(fs.dirs, q) == old(Lookup(fs.dirs, q))
    ensures ok ==> HasMode(fs.dirs, p, prior.mode)
    ensures fs.faults == old(fs.faults) && HasParent(fs.dirs, p)
            && (old(Exists(fs.files, fs.dirs, p)) ==> old(IdentityAt(fs.files, fs.dirs, p)) == Some(prior))
            ==> ok
  {
    if Exists(fs.files, fs.dirs, p) {
      return IdentityAt(fs.files, fs.dirs, p) == Some(prior);
    }
    ok := fs.Mkdir(p);
    if ok {
      ok := fs.ChmodDirectory(p, prior.mode);
    }
  }

  method RestoreDirectories(fs: FileSystem, top: string, original: Identities)
    returns (ok: bool)
    requires fs.Valid()
    modifies fs`dirs, fs`faults
    ensures fs.Valid() && old(fs.faults) <= fs.faults <= old(fs.faults) + 1
    ensures ok ==> fs.faults == old(fs.faults)
    ensures OnlyAdded(old(fs.dirs), fs.dirs, top, DirectoriesIn(original))
    ensures ok ==> AllDirectories(fs.dirs, top, original)
    ensures ParentsExpected(original) && old(NothingUnexpected(fs.files, fs.dirs, top, original))
            && fs.faults == old(fs.faults)
            ==> ok
  {
    hide WellFormed, ParentsExpected, NothingUnexpected, AllDirectories;
    var rest := DirectoriesIn(original);
    while rest != {}
      invariant rest <= DirectoriesIn(original)
      invariant fs.Valid() && fs.faults == old(fs.faults)
      invariant OnlyAdded(old(fs.dirs), fs.dirs, top, DirectoriesIn(original))
      invariant forall rel | rel in rest :: Lookup(fs.dirs, Path(top, rel)) == old(Lookup(fs.dirs, Path(top, rel)))
      invariant forall rel | rel in DirectoriesIn(original) - rest :: HasMode(fs.dirs, Path(top, rel), original[rel].mode)
      decreases rest
    {
      var any :| any in rest;
      ShallowestExists(rest, any);
      var rel :| rel in rest && forall r | r in rest :: |rel| <= |r|;
      if ParentsExpected(original) {
        ParentReady(fs.dirs, top, original, rest, rel);
      }
      StillExpected(fs.files, old(fs.dirs), fs.dirs, top, original, rel);
      ok := RestoreDirectory(fs, Path(top, rel), original[rel]);
      if !ok {
        return;
      }
      rest := rest - {rel};
    }
    ok := true;
    EveryDirectory(fs.dirs, top, original);
  }

  lemma EveryDirectory(dirs: Directories, top: string, original: Identities)
    requires forall rel | rel in DirectoriesIn(original) :: HasMode(dirs, Path(top, rel), original[rel].mode)
    ensures AllDirectories(dirs, top, original)
  {}

  lemma StillExpected(
    files: Files, dirs: Directories, dirs': Directories, top: string, original: Identities, rel: Relative)
    requires rel in original && Lookup(dirs', Path(top, rel)) == Lookup(dirs, Path(top, rel))
    ensures NothingUnexpected(files, dirs, top, original) && Exists(files, dirs', Path(top, rel)) ==>
              IdentityAt(files, dirs', Path(top, rel)) == Some(original[rel])
  {}

  lemma ParentReady(dirs: Directories, top: string, original: Identities, rest: set<Relative>, rel: Relative)
    requires ParentsExpected(original) && rel in original && forall r | r in rest :: |rel| <= |r|
    requires forall r | r in DirectoriesIn(original) - rest :: HasMode(dirs, Path(top, r), original[r].mode)
    ensures HasParent(dirs, Path(top, rel))
  {
    assert ParentExpected(original, rel);
    if rel != [] {
      assert Above(rel) in DirectoriesIn(original) - rest && Parent(Path(top, rel)) == Path(top, Above(rel));
      assert HasMode(dirs, Path(top, Above(rel)), original[Above(rel)].mode);
    }
  }

  method RestoreFile(fs: FileSystem, p: Path, prior: Identity, snapshot: Snapshot) returns (ok: bool)
    requires fs.Valid() && (Exists(fs.files, fs.dirs, p) ==> ContentAt(fs.files, p) == Some(snapshot))
    modifies fs`files, fs`faults
    ensures fs.Valid() && old(fs.faults) <= fs.faults <= old(fs.faults) + 1
    ensures ok ==> fs.faults == old(fs.faults)
    ensures forall q | q != p || old(p in fs.files) :: Lookup(fs.files, q) == old(Lookup(fs.files, q))
    ensures ok ==> ContentAt(fs.files, p) == Some(snapshot)
    ensures fs.faults == old(fs.faults) && HasParent(fs.dirs, p)
            && (old(Exists(fs.files, fs.dirs, p)) ==> old(IdentityAt(fs.files, fs.dirs, p)) == Some(prior))
            ==> ok
  {
    if Exists(fs.files, fs.dirs, p) {
      return IdentityAt(fs.files, fs.dirs, p) == Some(prior);
    }
    ok := RestoreOwnedSnapshot(fs, p, snapshot);
  }

  method RestoreFiles(fs: FileSystem, top: string, original: Identities, snapshots: Snapshots) returns (ok: bool)
    requires fs.Valid() && snapshots.Keys == FilesIn(original)
    requires forall rel | rel in snapshots && Exists(fs.files, fs.dirs, Path(top, rel)) ::
               && IdentityAt(fs.files, fs.dirs, Path(top, rel)) == Some(original[rel])
               && ContentAt(fs.files, Path(top, rel)) == Some(snapshots[rel])
    modifies fs`files, fs`faults
    ensures fs.Valid() && old(fs.faults) <= fs.faults <= old(fs.faults) + 1
    ensures ok ==> fs.faults == old(fs.faults)
    ensures OnlyAdded(old(fs.files), fs.files, top, snapshots.Keys)
    ensures ok ==> AllContents(fs.files, top, snapshots)
    ensures AllDirectories(fs.dirs, top, original) && ParentsExpected(original) && fs.faults == old(fs.faults) ==> ok
  {
    var rest := snapshots.Keys;
    while rest != {}
      invariant rest <= snapshots.Keys
      invariant fs.Valid() && fs.faults == old(fs.faults)
      invariant OnlyAdded(old(fs.files), fs.files, top, snapshots.Keys)
      invariant forall rel | rel in rest :: Lookup(fs.files, Path(top, rel)) == old(Lookup(fs.files, Path(top, rel)))
      invariant forall rel | rel in snapshots.Keys - rest :: ContentAt(fs.files, Path(top, rel)) == Some(snapshots[rel])
      decreases rest
    {
      var rel :| rel in rest;
      assert rel in FilesIn(original);
      if AllDirectories(fs.dirs, top, original) && ParentsExpected(original) {
        ParentRestored(fs.dirs, top, original, rel);
      }
      ok := RestoreFile(fs, Path(top, rel), original[rel], snapshots[rel]);
      if !ok {
        return;
      }
      rest := rest - {rel};
    }
    ok := true;
  }

  lemma ParentRestored(dirs: Directories, top: string, original: Identities, rel: Relative)
    requires AllDirectories(dirs, top, original) && ParentsExpected(original) && rel in original
    ensures HasParent(dirs, Path(top, rel))
  {
    assert ParentExpected(original, rel);
    if rel != [] {
      assert Above(rel) in DirectoriesIn(original);
    }
  }

  /** Every original object is back, rebuilt where it had been removed, and expected describes the result. */
  ghost predicate Rebuilt(
    files: Files, dirs: Directories, top: string, original: Identities, snapshots: Snapshots, expected: Identities)
  {
    && Exact(files, dirs, top, expected)
    && expected.Keys == original.Keys
    && AllDirectories(dirs, top, original)
    && AllContents(files, top, snapshots)
  }

  /** Only paths of the tree that rels names have changed, and none of them was taken before. */
  ghost predicate OnlyAdded<V>(old_: map<Path, V>, new_: map<Path, V>, top: string, rels: set<Relative>) {
    forall p: Path | p.top != top || p.rel !in rels || p in old_ :: Lookup(new_, p) == Lookup(old_, p)
  }

  lemma FilesStillIntact(
    files: Files, dirs: Directories, dirs': Directories, top: string, original: Identities, snapshots: Snapshots)
    requires Intact(files, dirs, top, original, snapshots)
    requires OnlyAdded(dirs, dirs', top, DirectoriesIn(original))
    ensures forall rel | rel in snapshots && Exists(files, dirs', Path(top, rel)) ::
              && IdentityAt(files, dirs', Path(top, rel)) == Some(original[rel])
              && ContentAt(files, Path(top, rel)) == Some(snapshots[rel])
  {
    forall rel | rel in snapshots
      ensures Lookup(dirs', Path(top, rel)) == Lookup(dirs, Path(top, rel))
    {
      assert rel in FilesIn(original) && rel !in DirectoriesIn(original);
    }
  }

  lemma AllThere(files: Files, dirs: Directories, top: string, original: Identities, snapshots: Snapshots)
    requires snapshots.Keys == FilesIn(original)
    requires AllDirectories(dirs, top, original) && AllContents(files, top, snapshots)
    ensures forall rel | rel in original :: Exists(files, dirs, Path(top, rel))
  {
    forall rel | rel in original
      ensures Exists(files, dirs, Path(top, rel))
    {
      assert rel in DirectoriesIn(original) || rel in snapshots;
    }
  }

  lemma StillNothingForeign(
    files: Files, dirs: Directories, files': Files, dirs': Directories, top: string, original: Identities)
    requires OnlyAdded(dirs, dirs', top, DirectoriesIn(original)) && OnlyAdded(files, files', top, FilesIn(original))
    requires NothingUnexpected(files, dirs, top, original)
    ensures NothingForeign(files', dirs', top, original)
  {
    forall rel: Relative | rel !in original
      ensures !Exists(files', dirs', Path(top, rel))
    {
      assert rel !in DirectoriesIn(original) && rel !in FilesIn(original);
      assert !Exists(files, dirs, Path(top, rel));
    }
  }

  method RefreshExpected(fs: FileSystem, top: string, ledger: RecoveryIdentity, original: Identities) returns (ok: bool)
    requires fs.Valid() && HasRoot(original) && Lookup(fs.dirs, Path(top, [])).Some?
    requires forall rel | rel in original :: Exists(fs.files, fs.dirs, Path(top, rel))
    modifies ledger`entries
    ensures ledger.entries.Keys == original.Keys && HasRoot(ledger.entries)
    ensures ok == Exact(fs.files, fs.dirs, top, ledger.entries)
    ensures NothingForeign(fs.files, fs.dirs, top, original) ==> ok
  {
    ledger.entries := map rel | rel in original :: IdentityAt(fs.files, fs.dirs, Path(top, rel)).value;
    ok := RequireExactRecoveryInventory(fs, top, ledger.entries);
  }

  /** Puts back what a failed retirement had already removed. */
  method RestoreComplete(
    fs: FileSystem, top: string, ledger: RecoveryIdentity, original: Identities, snapshots: Snapshots)
    returns (ok: bool)
    requires fs.Valid() && HasRoot(original) && Intact(fs.files, fs.dirs, top, original, snapshots)
    requires HasRoot(ledger.entries)
    modifies fs, ledger`entries
    ensures fs.Valid() && old(fs.faults) <= fs.faults <= old(fs.faults) + 1
    ensures ok ==> fs.faults == old(fs.faults)
    ensures HasRoot(ledger.entries)
    ensures SameOutside(top, old(fs.files), old(fs.dirs), fs.files, fs.dirs)
    ensures ok ==> Rebuilt(fs.files, fs.dirs, top, original, snapshots, ledger.entries)
    ensures ParentsExpected(original) && old(NothingUnexpected(fs.files, fs.dirs, top, original))
            && fs.faults == old(fs.faults)
            ==> ok
  {
    ok := RestoreDirectories(fs, top, original);
    if !ok {
      return;
    }
    FilesStillIntact(fs.files, old(fs.dirs), fs.dirs, top, original, snapshots);
    ok := RestoreFiles(fs, top, original, snapshots);
    if !ok {
      return;
    }
    AllThere(fs.files, fs.dirs, top, original, snapshots);
    assert [] in DirectoriesIn(original);
    ok := RefreshExpected(fs, top, ledger, original);
    if old(NothingUnexpected(fs.files, fs.dirs, top, original)) {
      StillNothingForeign(old(fs.files), old(fs.dirs), fs.files, fs.dirs, top, original);
    }
  }

  /** A retirement under way: entries is what is left of original, and can still be rebuilt. */
  ghost predicate Retiring(
    files: Files, dirs: Directories, top: string, original: Identities, snapshots: Snapshots, entries: Identities)
  {
    && Intact(files, dirs, top, original, snapshots)
    && HasRoot(entries)
    && (forall rel | rel in entries :: rel in original && entries[rel] == original[rel])
  }

  lemma PublishedStable(files: Files, dirs: Directories, files': Files, dirs': Directories, top: string, ledger: RecoveryIdentity)
    requires SameOutside(top, files, dirs, files', dirs') && ledger.publishedTarget != top
    ensures ledger.PublishedCurrent(files, dirs) == ledger.PublishedCurrent(files', dirs')
  {
    CaptureStable(files, dirs, files', dirs', ledger.publishedTarget, ledger.publishedRelatives);
  }

  lemma UnlinkKeepsExact(files: Files, dirs: Directories, top: string, entries: Identities, rel: Relative)
    requires WellFormed(files, dirs) && Exact(files, dirs, top, entries) && Path(top, rel) in files
    ensures Exact(files - {Path(top, rel)}, dirs, top, entries - {rel})
  {
    forall r: Relative
      ensures IdentityAt(files - {Path(top, rel)}, dirs, Path(top, r)) == Lookup(entries - {rel}, r)
    {
      assert IdentityAt(files, dirs, Path(top, r)) == Lookup(entries, r);
    }
  }

  lemma UnlinkKeepsRetiring(
    files: Files, dirs: Directories, top: string, original: Identities, snapshots: Snapshots, entries: Identities, rel: Relative)
    requires Retiring(files, dirs, top, original, snapshots, entries)
    ensures Retiring(files - {Path(top, rel)}, dirs, top, original, snapshots, entries)
    ensures SameOutside(top, files, dirs, files - {Path(top, rel)}, dirs)
    ensures NothingUnexpected(files, dirs, top, original) ==>
              NothingUnexpected(files - {Path(top, rel)}, dirs, top, original)
  {
    forall r: Relative | Exists(files - {Path(top, rel)}, dirs, Path(top, r))
      ensures Exists(files, dirs, Path(top, r))
      ensures IdentityAt(files - {Path(top, rel)}, dirs, Path(top, r)) == IdentityAt(files, dirs, Path(top, r))
    {}
  }

  /** The tree is the expected one and the publication that allows its retirement stands. */
  ghost predicate Ready(files: Files, dirs: Directories, top: string, ledger: RecoveryIdentity)
    reads ledger
  {
    && Exact(files, dirs, top, ledger.entries)
    && ledger.PublishedCurrent(files, dirs)
    && ledger.publishedTarget != top
  }

  method RetireFile(
    fs: FileSystem, top: string, ledger: RecoveryIdentity, rel: Relative,
    ghost original: Identities, ghost snapshots: Snapshots)
    returns (err: Option<Error>)
    requires fs.Valid() && Retiring(fs.files, fs.dirs, top, original, snapshots, ledger.entries)
    requires rel in ledger.entries && ledger.entries[rel].FileIdentity?
    modifies fs`files, fs`faults, ledger`entries
    ensures fs.Valid() && old(fs.faults) <= fs.faults <= old(fs.faults) + 1
    ensures err.None? ==> fs.faults == old(fs.faults)
    ensures Retiring(fs.files, fs.dirs, top, original, snapshots, ledger.entries)
    ensures SameOutside(top, old(fs.files), fs.dirs, fs.files, fs.dirs)
    ensures err.None? ==> ledger.entries == old(ledger.entries) - {rel}
    ensures err.None? ==> old(Exact(fs.files, fs.dirs, top, ledger.entries))
    ensures fs.files == old(fs.files) || fs.files == old(fs.files) - {Path(top, rel)}
    ensures fs.files != old(fs.files) ==> old(ledger.PublishedCurrent(fs.files, fs.dirs))
    ensures err.None? ==> ledger.PublishedCurrent(fs.files, fs.dirs)
    ensures old(NothingUnexpected(fs.files, fs.dirs, top, original)) ==>
              NothingUnexpected(fs.files, fs.dirs, top, original)
    ensures old(Ready(fs.files, fs.dirs, top, ledger)) ==>
              if err.None? then Ready(fs.files, fs.dirs, top, ledger)
              else err == Some(OsError) && fs.faults == old(fs.faults) + 1
  {
    if !ledger.PublishedCurrent(fs.files, fs.dirs) {
      return Some(PluginDrift);
    }
    var exact := RequireExactRecoveryInventory(fs, top, ledger.entries);
    if !exact {
      return Some(RecoveryRequired);
    }
    var ok := fs.Unlink(Path(top, rel));
    if !ok {
      return Some(OsError);
    }
    UnlinkKeepsExact(old(fs.files), fs.dirs, top, ledger.entries, rel);
    UnlinkKeepsRetiring(old(fs.files), fs.dirs, top, original, snapshots, ledger.entries, rel);
    if ledger.publishedTarget != top {
      PublishedStable(old(fs.files), fs.dirs, fs.files, fs.dirs, top, ledger);
    }
    if !ledger.PublishedCurrent(fs.files, fs.dirs) {
      return Some(PluginDrift);
    }
    ledger.entries := ledger.entries - {rel};
    err := None;
  }

  lemma RmdirKeepsExact(files: Files, dirs: Directories, top: string, entries: Identities, rel: Relative)
    requires WellFormed(files, dirs) && Exact(files, dirs, top, entries) && Path(top, rel) in dirs
    ensures Exact(files, dirs - {Path(top, rel)}, top, entries - {rel})
  {
    forall r: Relative
      ensures IdentityAt(files, dirs - {Path(top, rel)}, Path(top, r)) == Lookup(entries - {rel}, r)
    {
      assert IdentityAt(files, dirs, Path(top, r)) == Lookup(entries, r);
    }
  }

  lemma RmdirKeepsRetiring(
    files: Files, dirs: Directories, top: string, original: Identities, snapshots: Snapshots, entries: Identities, rel: Relative)
    requires Retiring(files, dirs, top, original, snapshots, entries)
    requires Path(top, rel) in dirs && files.Keys !! dirs.Keys
    ensures Retiring(files, dirs - {Path(top, rel)}, top, original, snapshots, entries)
    ensures SameOutside(top, files, dirs, files, dirs - {Path(top, rel)})
    ensures NothingUnexpected(files, dirs, top, original) ==>
              NothingUnexpected(files, dirs - {Path(top, rel)}, top, original)
  {
    forall r: Relative | Exists(files, dirs - {Path(top, rel)}, Path(top, r))
      ensures Exists(files, dirs, Path(top, r))
      ensures IdentityAt(files, dirs - {Path(top, rel)}, Path(top, r)) == IdentityAt(files, dirs, Path(top, r))
    {}
  }

  lemma DeepestIsEmpty(files: Files, dirs: Directories, top: string, entries: Identities, rel: Relative)
    requires Exact(files, dirs, top, entries)
    requires forall r | r in entries :: |r| <= |rel|
    ensures IsEmpty(files, dirs, Path(top, rel))
  {
    forall q | q in files || q in dirs
      ensures !IsChild(q, Path(top, rel))
    {
      assert IdentityAt(files, dirs, Path(q.top, q.rel)).Some?;
    }
  }

  method RetireDirectory(
    fs: FileSystem, top: string, ledger: RecoveryIdentity, rel: Relative,
    ghost original: Identities, ghost snapshots: Snapshots)
    returns (err: Option<Error>)
    requires fs.Valid() && Retiring(fs.files, fs.dirs, top, original, snapshots, ledger.entries)
    requires rel in ledger.entries && rel != [] && ledger.entries[rel].DirectoryIdentity?
    modifies fs`dirs, fs`faults, ledger`entries
    ensures fs.Valid() && old(fs.faults) <= fs.faults <= old(fs.faults) + 1
    ensures err.None? ==> fs.faults == old(fs.faults)
    ensures Retiring(fs.files, fs.dirs, top, original, snapshots, ledger.entries)
    ensures SameOutside(top, fs.files, old(fs.dirs), fs.files, fs.dirs)
    ensures fs.dirs == old(fs.dirs) || fs.dirs == old(fs.dirs) - {Path(top, rel)}
    ensures fs.dirs != old(fs.dirs) ==> old(ledger.PublishedCurrent(fs.files, fs.dirs))
    ensures err.None? ==> ledger.PublishedCurrent(fs.files, fs.dirs)
    ensures err.None? ==> ledger.entries == old(ledger.entries) - {rel}
    ensures err.None? ==> old(Exact(fs.files, fs.dirs, top, ledger.entries))
    ensures old(NothingUnexpected(fs.files, fs.dirs, top, original)) ==>
              NothingUnexpected(fs.files, fs.dirs, top, original)
    ensures old(Ready(fs.files, fs.dirs, top, ledger) && IsEmpty(fs.files, fs.dirs, Path(top, rel))) ==>
              if err.None? then Ready(fs.files, fs.dirs, top, ledger)
              else err == Some(OsError) && fs.faults == old(fs.faults) + 1
  {
    if !ledger.PublishedCurrent(fs.files, fs.dirs) {
      return Some(PluginDrift);
    }
    var exact := RequireExactRecoveryInventory(fs, top, ledger.entries);
    if !exact {
      return Some(RecoveryRequired);
    }
    var ok := fs.Rmdir(Path(top, rel));
    if !ok {
      return Some(OsError);
    }
    RmdirKeepsExact(fs.files, old(fs.dirs), top, ledger.entries, rel);
    RmdirKeepsRetiring(fs.files, old(fs.dirs), top, original, snapshots, ledger.entries, rel);
    if ledger.publishedTarget != top {
      PublishedStable(fs.files, old(fs.dirs), fs.files, fs.dirs, top, ledger);
    }
    if !ledger.PublishedCurrent(fs.files, fs.dirs) {
      return Some(PluginDrift);
    }
    ledger.entries := ledger.entries - {rel};
    err := None;
  }

  lemma SameOutsideTransitive(
    top: string, files: Files, dirs: Directories, files': Files, dirs': Directories, files'': Files, dirs'': Directories)
    requires SameOutside(top, files, dirs, files', dirs') && SameOutside(top, files', dirs', files'', dirs'')
    ensures SameOutside(top, files, dirs, files'', dirs'')
  {}

  lemma WithoutFile(entries: Identities, rel: Relative)
    requires rel in entries && entries[rel].FileIdentity?
    ensures FilesIn(entries - {rel}) == FilesIn(entries) - {rel}
  {}

  lemma WithoutDirectory(entries: Identities, rel: Relative)
    requires rel in entries && entries[rel].DirectoryIdentity?
    ensures FilesIn(entries - {rel}) == FilesIn(entries)
    ensures (entries - {rel}).Keys == entries.Keys - {rel}
  {}

  /** What no step of a retirement puts at risk, and what it achieves when nothing fails. */
  twostate predicate RetirementProgress(
    fs: FileSystem, top: string, ledger: RecoveryIdentity, original: Identities, snapshots: Snapshots)
    reads fs, ledger
  {
    && fs.Valid() && old(fs.faults) <= fs.faults <= old(fs.faults) + 1
    && Retiring(fs.files, fs.dirs, top, original, snapshots, ledger.entries)
    && SameOutside(top, old(fs.files), old(fs.dirs), fs.files, fs.dirs)
    && (old(NothingUnexpected(fs.files, fs.dirs, top, original)) ==>
          NothingUnexpected(fs.files, fs.dirs, top, original))
  }

  method RetireFiles(
    fs: FileSystem, top: string, ledger: RecoveryIdentity, ghost original: Identities, ghost snapshots: Snapshots)
    returns (err: Option<Error>)
    requires fs.Valid() && Retiring(fs.files, fs.dirs, top, original, snapshots, ledger.entries)
    modifies fs`files, fs`faults, ledger`entries
    ensures RetirementProgress(fs, top, ledger, original, snapshots)
    ensures err.None? ==> FilesIn(ledger.entries) == {} && fs.faults == old(fs.faults)
    ensures err.None? && Exact(fs.files, fs.dirs, top, ledger.entries) ==> old(Exact(fs.files, fs.dirs, top, ledger.entries))
    ensures old(Ready(fs.files, fs.dirs, top, ledger)) ==>
              if err.None? then Ready(fs.files, fs.dirs, top, ledger)
              else err == Some(OsError) && fs.faults == old(fs.faults) + 1
  {
    hide Capture, Exact, NothingUnexpected, WellFormed, Intact;
    var rest := FilesIn(ledger.entries);
    while rest != {}
      invariant rest == FilesIn(ledger.entries)
      invariant RetirementProgress(fs, top, ledger, original, snapshots)
      invariant fs.faults == old(fs.faults)
      invariant Exact(fs.files, fs.dirs, top, ledger.entries) ==> old(Exact(fs.files, fs.dirs, top, ledger.entries))
      invariant old(Ready(fs.files, fs.dirs, top, ledger)) ==> Ready(fs.files, fs.dirs, top, ledger)
      decreases rest
    {
      var any :| any in rest;
      DeepestExists(rest, any);
      var rel :| rel in rest && forall r | r in rest :: |rel| >= |r|;
      WithoutFile(ledger.entries, rel);
      label before:
      err := RetireFile(fs, top, ledger, rel, original, snapshots);
      SameOutsideTransitive(top, old(fs.files), old(fs.dirs), old@before(fs.files), old@before(fs.dirs), fs.files, fs.dirs);
      if err.Some? {
        return;
      }
      rest := rest - {rel};
    }
    err := None;
  }

  method RetireDirectories(
    fs: FileSystem, top: string, ledger: RecoveryIdentity, ghost original: Identities, ghost snapshots: Snapshots)
    returns (err: Option<Error>)
    requires fs.Valid() && Retiring(fs.files, fs.dirs, top, original, snapshots, ledger.entries)
    requires FilesIn(ledger.entries) == {}
    modifies fs`dirs, fs`faults, ledger`entries
    ensures RetirementProgress(fs, top, ledger, original, snapshots)
    ensures err.None? ==> ledger.entries.Keys == {[]} && fs.faults == old(fs.faults)
    ensures err.None? && Exact(fs.files, fs.dirs, top, ledger.entries) ==> old(Exact(fs.files, fs.dirs, top, ledger.entries))
    ensures old(Ready(fs.files, fs.dirs, top, ledger)) ==>
              if err.None? then Ready(fs.files, fs.dirs, top, ledger)
              else err == Some(OsError) && fs.faults == old(fs.faults) + 1
  {
    hide Capture, Exact, NothingUnexpected, WellFormed, Intact;
    var rest := DirectoriesIn(ledger.entries) - {[]};
    while rest != {}
      invariant rest == ledger.entries.Keys - {[]} && FilesIn(ledger.entries) == {}
      invariant RetirementProgress(fs, top, ledger, original, snapshots)
      invariant fs.faults == old(fs.faults)
      invariant Exact(fs.files, fs.dirs, top, ledger.entries) ==> old(Exact(fs.files, fs.dirs, top, ledger.entries))
      invariant old(Ready(fs.files, fs.dirs, top, ledger)) ==> Ready(fs.files, fs.dirs, top, ledger)
      decreases rest
    {
      var any :| any in rest;
      DeepestExists(rest, any);
      var rel :| rel in rest && forall r | r in rest :: |rel| >= |r|;
      if Ready(fs.files, fs.dirs, top, ledger) {
        DeepestIsEmpty(fs.files, fs.dirs, top, ledger.entries, rel);
      }
      WithoutDirectory(ledger.entries, rel);
      label before:
      err := RetireDirectory(fs, top, ledger, rel, original, snapshots);
      SameOutsideTransitive(top, old(fs.files), old(fs.dirs), old@before(fs.files), old@before(fs.dirs), fs.files, fs.dirs);
      if err.Some? {
        return;
      }
      rest := rest - {rel};
    }
    err := None;
  }

  method RetireRoot(fs: FileSystem, top: string, ledger: RecoveryIdentity, ghost original: Identities, ghost snapshots: Snapshots)
    returns (err: Option<Error>)
    requires fs.Valid() && Retiring(fs.files, fs.dirs, top, original, snapshots, ledger.entries)
    requires ledger.entries.Keys == {[]}
    modifies fs`dirs, fs`faults, ledger`entries
    ensures fs.Valid() && old(fs.faults) <= fs.faults <= old(fs.faults) + 1
    ensures err.None? ==> fs.faults == old(fs.faults)
    ensures err.None? ==> old(Exact(fs.files, fs.dirs, top, ledger.entries))
    ensures SameOutside(top, fs.files, old(fs.dirs), fs.files, fs.dirs)
    ensures old(NothingUnexpected(fs.files, fs.dirs, top, original)) ==>
              NothingUnexpected(fs.files, fs.dirs, top, original)
    ensures err.Some? ==> Retiring(fs.files, fs.dirs, top, original, snapshots, ledger.entries)
    ensures err.None? ==> NothingIn(fs.files, fs.dirs, top)
    ensures fs.dirs != old(fs.dirs) ==> old(ledger.PublishedCurrent(fs.files, fs.dirs))
    ensures err.None? ==> old(ledger.PublishedCurrent(fs.files, fs.dirs)) && ledger.PublishedCurrent(fs.files, fs.dirs)
    ensures old(Ready(fs.files, fs.dirs, top, ledger)) && err.Some? ==>
              err == Some(OsError) && fs.faults == old(fs.faults) + 1
  {
    if !ledger.PublishedCurrent(fs.files, fs.dirs) {
      return Some(PluginDrift);
    }
    var exact := RequireExactRecoveryInventory(fs, top, ledger.entries);
    if !exact {
      return Some(RecoveryRequired);
    }
    DeepestIsEmpty(fs.files, fs.dirs, top, ledger.entries, []);
    var ok := fs.Rmdir(Path(top, []));
    if !ok {
      return Some(OsError);
    }
    RmdirKeepsExact(fs.files, old(fs.dirs), top, ledger.entries, []);
    RmdirKeepsRetiring(fs.files, old(fs.dirs), top, original, snapshots, ledger.entries, []);
    if ledger.publishedTarget != top {
      PublishedStable(fs.files, old(fs.dirs), fs.files, fs.dirs, top, ledger);
    }
    if !ledger.PublishedCurrent(fs.files, fs.dirs) {
      return Some(PluginDrift);
    }
    ledger.entries := map[];
    err := None;
    EmptyIsNothing(fs.files, fs.dirs, top, old(ledger.entries) - {[]});
  }

  lemma EmptyIsNothing(files: Files, dirs: Directories, top: string, entries: Identities)
    requires Exact(files, dirs, top, entries) && entries.Keys == {}
    ensures NothingIn(files, dirs, top)
  {
    forall rel: Relative
      ensures !Exists(files, dirs, Path(top, rel))
    {
      assert IdentityAt(files, dirs, Path(top, rel)) == Lookup(entries, rel);
    }
  }

  method RetireEverything(
    fs: FileSystem, top: string, ledger: RecoveryIdentity, ghost original: Identities, ghost snapshots: Snapshots)
    returns (err: Option<Error>)
    requires fs.Valid() && Retiring(fs.files, fs.dirs, top, original, snapshots, ledger.entries)
    modifies fs, ledger`entries
    ensures fs.Valid() && old(fs.faults) <= fs.faults <= old(fs.faults) + 1
    ensures SameOutside(top, old(fs.files), old(fs.dirs), fs.files, fs.dirs)
    ensures err.None? ==> NothingIn(fs.files, fs.dirs, top) && fs.faults == old(fs.faults)
    ensures err.None? ==> old(Exact(fs.files, fs.dirs, top, ledger.entries))
    ensures err.None? && ledger.publishedTarget != top ==>
              old(ledger.PublishedCurrent(fs.files, fs.dirs)) && ledger.PublishedCurrent(fs.files, fs.dirs)
    ensures err.Some? ==> Retiring(fs.files, fs.dirs, top, original, snapshots, ledger.entries)
    ensures old(NothingUnexpected(fs.files, fs.dirs, top, original)) ==>
              NothingUnexpected(fs.files, fs.dirs, top, original)
    ensures old(Ready(fs.files, fs.dirs, top, ledger)) && err.Some? ==>
              err == Some(OsError) && fs.faults == old(fs.faults) + 1
  {
    hide Capture, Exact, NothingUnexpected, WellFormed, Intact, NothingIn;
    err := RetireFiles(fs, top, ledger, original, snapshots);
    if err.Some? {
      return;
    }
    label files:
    err := RetireDirectories(fs, top, ledger, original, snapshots);
    SameOutsideTransitive(top, old(fs.files), old(fs.dirs), old@files(fs.files), old@files(fs.dirs), fs.files, fs.dirs);
    if err.Some? {
      return;
    }
    label directories:
    if ledger.publishedTarget != top {
      PublishedStable(old(fs.files), old(fs.dirs), fs.files, fs.dirs, top, ledger);
    }
    err := RetireRoot(fs, top, ledger, original, snapshots);
    SameOutsideTransitive(
      top, old(fs.files), old(fs.dirs), old@directories(fs.files), old@directories(fs.dirs), fs.files, fs.dirs);
  }

  /** The same paths hold directories of the same mode and files of the same bytes and mode. */
  ghost predicate SameTree(files: Files, dirs: Directories, files': Files, dirs': Directories, top: string) {
    forall rel: Relative ::
      && ContentAt(files', Path(top, rel)) == ContentAt(files, Path(top, rel))
      && ModeAt(dirs', Path(top, rel)) == ModeAt(dirs, Path(top, rel))
  }

  function ModeAt(dirs: Directories, p: Path): Option<int> {
    match Lookup(dirs, p)
    case Some(d) => Some(d.mode)
    case None => None
  }

  lemma RebuiltIsSameTree(
    files: Files, dirs: Directories, files': Files, dirs': Directories,
    top: string, original: Identities, snapshots: Snapshots, expected: Identities)
    requires WellFormed(files, dirs) && WellFormed(files', dirs')
    requires Exact(files, dirs, top, original) && snapshots.Keys == FilesIn(original)
    requires AllContents(files, top, snapshots)
    requires Rebuilt(files', dirs', top, original, snapshots, expected)
    ensures SameTree(files, dirs, files', dirs', top)
  {
    forall rel: Relative
      ensures ContentAt(files', Path(top, rel)) == ContentAt(files, Path(top, rel))
      ensures ModeAt(dirs', Path(top, rel)) == ModeAt(dirs, Path(top, rel))
    {
      assert IdentityAt(files, dirs, Path(top, rel)) == Lookup(original, rel);
      assert IdentityAt(files', dirs', Path(top, rel)) == Lookup(expected, rel);
      if rel in original {
        assert rel in DirectoriesIn(original) || rel in FilesIn(original);
      }
    }
  }

  lemma ExactIsClosed(files: Files, dirs: Directories, top: string, expected: Identities)
    requires WellFormed(files, dirs) && HasRoot(expected) && Exact(files, dirs, top, expected)
    ensures ParentsExpected(expected) && NothingUnexpected(files, dirs, top, expected)
  {
    ListingsDecideExactness(files, dirs, top, expected);
  }

  /**
    Removes the recovery tree. Either it is gone, or everything in it is back as it was and
    expected describes it, or the error says that recovery is required. One failing call is
    always survived.
   */
  method RetireOwnedRecovery(fs: FileSystem, top: string, ledger: RecoveryIdentity) returns (err: Option<Error>)
    requires fs.Valid() && HasRoot(ledger.entries)
    modifies fs, ledger`entries
    ensures fs.Valid() && old(fs.faults) <= fs.faults
    ensures SameOutside(top, old(fs.files), old(fs.dirs), fs.files, fs.dirs)
    ensures err.None? ==> NothingIn(fs.files, fs.dirs, top) && fs.faults == old(fs.faults)
    ensures err.None? ==> old(Exact(fs.files, fs.dirs, top, ledger.entries))
    ensures err.None? && ledger.publishedTarget != top ==>
              old(ledger.PublishedCurrent(fs.files, fs.dirs)) && ledger.PublishedCurrent(fs.files, fs.dirs)
    ensures err.Some? ==> HasRoot(ledger.entries)
    ensures old(Exact(fs.files, fs.dirs, top, ledger.entries)) && err.Some? && err != Some(RecoveryRequired) ==>
              && Exact(fs.files, fs.dirs, top, ledger.entries)
              && ledger.entries.Keys == old(ledger.entries).Keys
              && SameTree(old(fs.files), old(fs.dirs), fs.files, fs.dirs, top)
    ensures old(Ready(fs.files, fs.dirs, top, ledger) && Keepable(ledger.entries)) ==>
              && (fs.faults == old(fs.faults) ==> err.None?)
              && (fs.faults == old(fs.faults) + 1 ==> err == Some(OsError))
  {
    hide Capture, WellFormed, NothingIn, NothingUnexpected, ParentsExpected;
    var original := ledger.entries;
    if Exact(fs.files, fs.dirs, top, original) {
      ExactIsClosed(fs.files, fs.dirs, top, original);
    }
    var order := ByDepth(FilesIn(original));
    var ok, snapshots := SnapshotOwnedFiles(fs, top, order, original);
    if !ok {
      return Some(PluginDrift);
    }
    err := RetireEverything(fs, top, ledger, original, snapshots);
    label retired:
    if err.Some? {
      ok := RestoreComplete(fs, top, ledger, original, snapshots);
      SameOutsideTransitive(
        top, old(fs.files), old(fs.dirs), old@retired(fs.files), old@retired(fs.dirs), fs.files, fs.dirs);
      if !ok {
        err := Some(RecoveryRequired);
      } else if Exact(old(fs.files), old(fs.dirs), top, original) {
        RebuiltIsSameTree(old(fs.files), old(fs.dirs), fs.files, fs.dirs, top, original, snapshots, ledger.entries);
      }
    }
  }

  predicate Keepable(expected: Identities) {
    forall rel | rel in expected && expected[rel].FileIdentity? :: expected[rel].size <= MAX_ARCHIVE_BYTES
  }

  /** Every recorded object is in the tree; the tree may hold more. */
  ghost predicate Present(files: Files, dirs: Directories, top: string, expected: Identities) {
    forall rel | rel in expected :: IdentityAt(files, dirs, Path(top, rel)) == Some(expected[rel])
  }

  lemma ExactMeansPresent(files: Files, dirs: Directories, top: string, expected: Identities)
    ensures Exact(files, dirs, top, expected) <==>
            Present(files, dirs, top, expected) && NothingForeign(files, dirs, top, expected)
  {
    if Exact(files, dirs, top, expected) {
      forall rel: Relative
        ensures rel in expected ==> IdentityAt(files, dirs, Path(top, rel)) == Some(expected[rel])
        ensures Exists(files, dirs, Path(top, rel)) ==> rel in expected
      {
        assert IdentityAt(files, dirs, Path(top, rel)) == Lookup(expected, rel);
      }
    }
    if Present(files, dirs, top, expected) && NothingForeign(files, dirs, top, expected) {
      forall rel: Relative
        ensures IdentityAt(files, dirs, Path(top, rel)) == Lookup(expected, rel)
      {
        if rel !in expected {
          assert !Exists(files, dirs, Path(top, rel));
        }
      }
    }
  }

  method RecordAncestors(fs: FileSystem, top: string, rel: Relative, ledger: RecoveryIdentity) returns (ok: bool)
    requires HasRoot(ledger.entries) && Present(fs.files, fs.dirs, top, ledger.entries)
    requires rel != [] && AncestorsAreDirectories(fs.dirs, top, rel)
    modifies ledger`entries
    ensures ok && HasRoot(ledger.entries) && Present(fs.files, fs.dirs, top, ledger.entries)
    ensures old(ledger.entries).Keys <= ledger.entries.Keys
    ensures forall k | 0 < k < |rel| :: rel[..k] in ledger.entries
  {
    var i := 1;
    while i < |rel|
      invariant 1 <= i <= |rel|
      invariant HasRoot(ledger.entries) && Present(fs.files, fs.dirs, top, ledger.entries)
      invariant old(ledger.entries).Keys <= ledger.entries.Keys
      invariant forall k | 0 < k < i :: rel[..k] in ledger.entries
    {
      var a := rel[..i];
      assert Lookup(fs.dirs, Path(top, a)).Some?;
      var observed := IdentityAt(fs.files, fs.dirs, Path(top, a)).value;
      if a !in ledger.entries {
        ledger.entries := ledger.entries[a := observed];
      }
      if ledger.entries[a] != observed {
        return false;
      }
      i := i + 1;
    }
    ok := true;
  }

  /** At least two directories above rel are not among those known. */
  ghost predicate NeedsTwo(known: set<Relative>, rel: Relative) {
    exists k: nat {:trigger rel[..k]} :: 0 < k && k + 1 < |rel| && rel[..k] !in known
  }

  /** A directory that was made, while the next could not be, is not recorded. */
  lemma BrokenOffUnrecorded(
    files: Files, dirs: Directories, dirs': Directories, top: string, rel: Relative, entries: Identities, j: nat)
    requires WellFormed(files, dirs) && WellFormed(files, dirs') && Exact(files, dirs, top, entries)
    requires GrownAbove(dirs, dirs', top, rel) && BrokenOff(dirs, dirs', top, rel, j)
    ensures Exact(files, dirs', top, entries) || NeedsTwo(entries.Keys, rel)
  {
    if dirs' != dirs {
      var p :| p in dirs' && p !in dirs;
      assert p.rel < rel[..j] && IsAncestor(p.rel, rel) && p.rel == rel[..|p.rel|];
      assert p !in files;
      assert IdentityAt(files, dirs, Path(top, p.rel)) == Lookup(entries, p.rel);
    }
  }

  lemma NewIsUnrecorded(
    files: Files, dirs: Directories, dirs': Directories, top: string, rel: Relative, entries: Identities)
    requires Exact(files, dirs, top, entries) && !Exists(files, dirs, Path(top, rel)) && Path(top, rel) in dirs'
    ensures !Exact(files, dirs', top, entries)
  {
    assert IdentityAt(files, dirs, Path(top, rel)) == Lookup(entries, rel);
    assert Lookup(dirs', Path(top, rel)).Some?;
    assert IdentityAt(files, dirs', Path(top, rel)) != Lookup(entries, rel);
  }

  /** Makes room for rel in the recovery tree and records the directories above it. */
  method PrepareRecoveryDestination(fs: FileSystem, top: string, rel: Relative, ledger: RecoveryIdentity)
    returns (err: Option<Error>)
    requires fs.Valid() && rel != [] && HasRoot(ledger.entries)
    requires Exact(fs.files, fs.dirs, top, ledger.entries) && NoFileAbove(fs.files, top, rel)
    modifies fs`dirs, fs`faults, ledger`entries
    ensures fs.Valid() && GrownAbove(old(fs.dirs), fs.dirs, top, rel)
    ensures HasRoot(ledger.entries) && Present(fs.files, fs.dirs, top, ledger.entries)
    ensures ParentsExpected(ledger.entries)
    ensures old(ledger.entries).Keys <= ledger.entries.Keys
    ensures err.None? ==>
              && fs.faults == old(fs.faults)
              && AncestorsAreDirectories(fs.dirs, top, rel)
              && Exact(fs.files, fs.dirs, top, ledger.entries)
    ensures err.Some? ==> fs.faults == old(fs.faults) + 1 && err == Some(PluginDrift)
    ensures err.Some? ==> Exact(fs.files, fs.dirs, top, ledger.entries) || NeedsTwo(old(ledger.entries).Keys, rel)
    ensures (exists n: nat :: Blocked(fs.mkdirs, top, rel, n)) && old(NothingAbove(fs.files, fs.dirs, top, rel)) ==>
              err.Some? && !Exact(fs.files, fs.dirs, top, ledger.entries)
  {
    hide WellFormed, ParentsExpected;
    ExactMeansPresent(fs.files, fs.dirs, top, ledger.entries);
    ExactIsClosed(fs.files, fs.dirs, top, ledger.entries);
    ghost var before := fs.dirs;
    var ok := PrepareOwnedDestination(fs, top, rel);
    GrowthKeepsPresent(fs.files, old(fs.dirs), fs.dirs, top, rel, ledger.entries);
    if !ok {
      ghost var j :| BrokenOff(before, fs.dirs, top, rel, j);
      BrokenOffUnrecorded(fs.files, before, fs.dirs, top, rel, ledger.entries, j);
      if Path(top, rel[..1]) in fs.dirs && NothingAbove(fs.files, before, top, rel) {
        NewIsUnrecorded(fs.files, before, fs.dirs, top, rel[..1], ledger.entries);
      }
      return Some(PluginDrift);
    }
    ok := RecordAncestors(fs, top, rel, ledger);
    if !ok {
      return Some(RecoveryRequired);
    }
    if !DirectoriesCurrent(fs.files, fs.dirs, top, ledger.entries) {
      return Some(RecoveryRequired);
    }
    err := None;
    forall r: Relative | Exists(fs.files, fs.dirs, Path(top, r))
      ensures r in ledger.entries
    {
      if r !in old(ledger.entries) {
        assert IsAncestor(r, rel) && r == rel[..|r|];
      }
    }
    ExactMeansPresent(fs.files, fs.dirs, top, ledger.entries);
    ExactIsClosed(fs.files, fs.dirs, top, ledger.entries);
  }

  lemma GrowthKeepsPresent(
    files: Files, dirs: Directories, dirs': Directories, top: string, rel: Relative, expected: Identities)
    requires GrownAbove(dirs, dirs', top, rel) && Exact(files, dirs, top, expected)
    requires NoFileAbove(files, top, rel)
    ensures Present(files, dirs', top, expected)
    ensures forall r: Relative | Exists(files, dirs', Path(top, r)) :: r in expected || IsAncestor(r, rel)
  {
    ExactMeansPresent(files, dirs, top, expected);
    forall r: Relative
      ensures Lookup(dirs', Path(top, r)) == Lookup(dirs, Path(top, r)) || (IsAncestor(r, rel) && Path(top, r) !in files)
    {
      if Path(top, r) in dirs' && Path(top, r) !in dirs {
        assert r == rel[..|r|];
      }
    }
    forall r | r in expected
      ensures IdentityAt(files, dirs', Path(top, r)) == Some(expected[r])
    {
      assert IdentityAt(files, dirs, Path(top, r)) == Some(expected[r]);
    }
  }

  /** Every file of the tree is small enough to be kept in memory. */
  ghost predicate SmallFiles(files: Files, top: string) {
    forall rel: Relative ::
      Lookup(files, Path(top, rel)).Some? ==> |files[Path(top, rel)].data| <= MAX_ARCHIVE_BYTES
  }

  lemma SmallIsKeepable(files: Files, dirs: Directories, top: string, expected: Identities)
    requires SmallFiles(files, top) && Present(files, dirs, top, expected)
    ensures Keepable(expected)
  {
    forall rel | rel in expected && expected[rel].FileIdentity?
      ensures expected[rel].size <= MAX_ARCHIVE_BYTES
    {
      assert IdentityAt(files, dirs, Path(top, rel)) == Some(expected[rel]);
    }
  }

  lemma SameTreeStaysSmall(files: Files, dirs: Directories, files': Files, dirs': Directories, top: string)
    requires SameTree(files, dirs, files', dirs', top) && SmallFiles(files, top)
    ensures SmallFiles(files', top)
  {
    forall rel: Relative | Lookup(files', Path(top, rel)).Some?
      ensures |files'[Path(top, rel)].data| <= MAX_ARCHIVE_BYTES
    {
      assert ContentAt(files', Path(top, rel)) == ContentAt(files, Path(top, rel));
    }
  }

  /** The directories above a recorded path are recorded, too. */
  lemma {:induction false} AncestorsExpected(expected: Identities, rel: Relative, i: nat)
    requires ParentsExpected(expected) && rel in expected && 0 < i < |rel|
    ensures rel[..i] in expected && expected[rel[..i]].DirectoryIdentity?
    decreases |rel|
  {
    assert ParentExpected(expected, rel);
    if i < |rel| - 1 {
      AncestorsExpected(expected, Above(rel), i);
      assert Above(rel)[..i] == rel[..i];
    }
  }
}
