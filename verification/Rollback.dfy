/** Undoing an interrupted upgrade from the snapshots taken before it started. */
module Rollback {
  import opened Wrappers
  import opened FileSystems
  import opened Ownership
  import opened Receipts
  import opened Recovery
  import opened Upgrade

  /** files' is files without some of the files that gone names in top. */
  ghost predicate OnlyRemoved(files: Files, files': Files, top: string, gone: set<Relative>) {
    forall p: Path ::
      || Lookup(files', p) == Lookup(files, p)
      || (p.top == top && p.rel in gone && Lookup(files', p).None?)
  }

  method UnpublishOne(fs: FileSystem, top: string, rel: Relative, ownership: Identities) returns (ok: bool)
    requires fs.Valid() && rel in ownership
    modifies fs`files, fs`faults
    ensures fs.Valid() && fs.faults >= old(fs.faults)
    ensures OnlyRemoved(old(fs.files), fs.files, top, {rel})
    ensures ok ==> Lookup(fs.files, Path(top, rel)).None?
    ensures fs.files != old(fs.files) ==> old(StillThere(fs.files, fs.dirs, Path(top, rel), ownership[rel]))
    ensures fs.faults == old(fs.faults) && old(Lookup(fs.files, Path(top, rel)).Some?)
            && old(IdentityAt(fs.files, fs.dirs, Path(top, rel))) == Some(ownership[rel])
            ==> ok
  {
    if Path(top, rel) in fs.files {
      AncestorsOfFile(fs.files, fs.dirs, top, rel);
    }
    if !AncestorsAreDirectories(fs.dirs, top, rel) {
      return false;
    }
    var observed := IdentityAt(fs.files, fs.dirs, Path(top, rel));
    if observed.None? || (observed.value != ownership[rel] && !SameFileObject(observed.value, ownership[rel])) {
      return false;
    }
    ok := fs.Unlink(Path(top, rel));
  }

  predicate SameFileObject(observed: Identity, prior: Identity) {
    observed.FileIdentity? && prior.FileIdentity? && observed.id == prior.id
  }

  method Unpublish(fs: FileSystem, top: string, installed: seq<Relative>, ownership: Identities) returns (ok: bool)
    requires fs.Valid() && NoDuplicates(installed)
    requires forall r | r in installed :: r in ownership
    modifies fs`files, fs`faults
    ensures fs.Valid() && fs.faults >= old(fs.faults)
    ensures OnlyRemoved(old(fs.files), fs.files, top, Elements(installed))
    ensures forall r | r in installed && Lookup(fs.files, Path(top, r)) != old(Lookup(fs.files, Path(top, r))) ::
              old(StillThere(fs.files, fs.dirs, Path(top, r), ownership[r]))
    ensures ok ==> forall r | r in installed :: Lookup(fs.files, Path(top, r)).None?
    ensures fs.faults == old(fs.faults) && old(Present(fs.files, fs.dirs, top, ownership))
            && old(forall r | r in installed :: Lookup(fs.files, Path(top, r)).Some?)
            ==> ok
  {
    ok := true;
    var i := |installed|;
    while i > 0
      invariant 0 <= i <= |installed| && fs.Valid() && fs.faults >= old(fs.faults)
      invariant OnlyRemoved(old(fs.files), fs.files, top, Elements(installed))
      invariant forall k | 0 <= k < i ::
                  Lookup(fs.files, Path(top, installed[k])) == old(Lookup(fs.files, Path(top, installed[k])))
      invariant forall k | i <= k < |installed| &&
                  Lookup(fs.files, Path(top, installed[k])) != old(Lookup(fs.files, Path(top, installed[k]))) ::
                  old(StillThere(fs.files, fs.dirs, Path(top, installed[k]), ownership[installed[k]]))
      invariant ok ==> forall k | i <= k < |installed| :: Lookup(fs.files, Path(top, installed[k])).None?
      invariant fs.faults == old(fs.faults) && old(Present(fs.files, fs.dirs, top, ownership))
                && old(forall r | r in installed :: Lookup(fs.files, Path(top, r)).Some?)
                ==> ok
    {
      i := i - 1;
      var rel := installed[i];
      assert rel in installed;
      var removed := UnpublishOne(fs, top, rel, ownership);
      ok := ok && removed;
    }
  }

  /** The recovery tree still holds the recorded object, under the recorded directories. */
  predicate RecoverySourceMatches(files: Files, dirs: Directories, top: string, rel: Relative, expected: Identities) {
    && HasRoot(expected) && IdentityAt(files, dirs, Path(top, [])) == Some(expected[[]])
    && (forall i | 0 < i < |rel| ::
          rel[..i] in expected && IdentityAt(files, dirs, Path(top, rel[..i])) == Some(expected[rel[..i]]))
    && rel in expected && IdentityAt(files, dirs, Path(top, rel)) == Some(expected[rel])
  }

  /** The recovery tree holds what was recorded when rel was moved into it. */
  ghost predicate Recoverable(files: Files, dirs: Directories, top: string, entries: Identities, rels: set<Relative>) {
    HasRoot(entries) && Present(files, dirs, top, entries) && ParentsExpected(entries) && rels <= entries.Keys
  }

  lemma RecoverableMatches(files: Files, dirs: Directories, top: string, rel: Relative, entries: Identities)
    requires Recoverable(files, dirs, top, entries, {rel})
    ensures RecoverySourceMatches(files, dirs, top, rel, entries)
    ensures AncestorsAreDirectories(dirs, top, rel) && Exists(files, dirs, Path(top, rel))
  {
    forall i | 0 < i < |rel|
      ensures rel[..i] in entries && IdentityAt(files, dirs, Path(top, rel[..i])) == Some(entries[rel[..i]])
      ensures Path(top, rel[..i]) in dirs
    {
      AncestorsExpected(entries, rel, i);
    }
    assert rel in {rel};
    assert IdentityAt(files, dirs, Path(top, rel)) == Some(entries[rel]);
  }

  lemma GrowthSparesOthers(
    files: Files, dirs: Directories, dirs': Directories, t: Tops, rel: Relative, entries: Identities)
    requires t.Distinct() && GrownAbove(dirs, dirs', t.target, rel)
    ensures RecoverySourceMatches(files, dirs, t.backup, rel, entries)
            <==> RecoverySourceMatches(files, dirs', t.backup, rel, entries)
    ensures Exists(files, dirs, Path(t.backup, rel)) <==> Exists(files, dirs', Path(t.backup, rel))
  {
    forall r: Relative
      ensures Lookup(dirs', Path(t.backup, r)) == Lookup(dirs, Path(t.backup, r))
    {}
  }

  lemma PresentAfterGrowth(files: Files, dirs: Directories, dirs': Directories, top: string, expected: Identities)
    requires Present(files, dirs, top, expected)
    requires forall p | Exists(files, dirs, p) :: IdentityAt(files, dirs', p) == IdentityAt(files, dirs, p)
    ensures Present(files, dirs', top, expected)
  {
    forall r | r in expected
      ensures IdentityAt(files, dirs', Path(top, r)) == Some(expected[r])
    {
      assert IdentityAt(files, dirs, Path(top, r)) == Some(expected[r]);
    }
  }

  lemma HasRoomIn(dirs: Directories, before: Directories, top: string, rel: Relative)
    requires rel != [] && AncestorsAreDirectories(dirs, top, rel)
    requires forall p | p in before :: p in dirs
    ensures Path(top, []) in before ==> HasParent(dirs, Path(top, rel))
  {
    if Path(top, []) in before {
      HasRoom(dirs, top, rel);
    }
  }

  /** What the backup holds at this path, if anything, is the object that was recorded when it was moved there. */
  ghost predicate SourceIsRecorded(files: Files, dirs: Directories, top: string, rel: Relative, entries: Identities) {
    rel in entries && Exists(files, dirs, Path(top, rel)) ==>
      IdentityAt(files, dirs, Path(top, rel)) == Some(entries[rel])
  }

  /** Only records of what is not in the backup have been given up. */
  ghost predicate RecordsKept(files: Files, dirs: Directories, top: string, entries: Identities, entries': Identities) {
    forall r | r in entries && Exists(files, dirs, Path(top, r)) :: r in entries' && entries'[r] == entries[r]
  }

  lemma SourceStable(
    files: Files, dirs: Directories, files': Files, dirs': Directories, t: Tops, gone: set<Relative>, names: set<Relative>,
    rel: Relative, entries: Identities, entries': Identities)
    requires t.Distinct() && OnlyAdded(files, files', t.target, gone) && GrownAmong(dirs, dirs', t.target, names)
    requires RecordsKept(files, dirs, t.backup, entries, entries')
    ensures SourceIsRecorded(files', dirs', t.backup, rel, entries') ==>
              SourceIsRecorded(files, dirs, t.backup, rel, entries)
    ensures Exists(files, dirs, Path(t.backup, rel)) <==> Exists(files', dirs', Path(t.backup, rel))
    ensures !Exists(files, dirs, Path(t.backup, rel)) ==> RecordsKept(files, dirs, t.backup, entries, entries' - {rel})
  {
    var p := Path(t.backup, rel);
    assert Lookup(files', p) == Lookup(files, p) && Lookup(dirs', p) == Lookup(dirs, p);
  }

  lemma NotGrown(files: Files, dirs: Directories, top: string, rel: Relative)
    ensures GrownAbove(dirs, dirs, top, rel) && OnlyAdded(files, files, top, {rel})
  {}

  lemma MatchesIsRecorded(files: Files, dirs: Directories, top: string, rel: Relative, entries: Identities)
    requires RecoverySourceMatches(files, dirs, top, rel, entries) || rel !in entries || !Exists(files, dirs, Path(top, rel))
    ensures SourceIsRecorded(files, dirs, top, rel, entries)
  {}

  method RestoreOne(
    fs: FileSystem, t: Tops, rel: Relative, snapshot: Snapshot, ledger: RecoveryIdentity, restored: Identities)
    returns (ok: bool, recorded: Identities)
    requires fs.Valid() && rel != [] && Present(fs.files, fs.dirs, t.target, restored) && t.Distinct()
    requires HasRoot(ledger.entries)
    modifies fs, ledger`entries
    ensures fs.Valid() && fs.faults >= old(fs.faults) && HasRoot(ledger.entries)
    ensures OnlyAdded(old(fs.files), fs.files, t.target, {rel})
    ensures GrownAbove(old(fs.dirs), fs.dirs, t.target, rel)
    ensures ok ==> ContentAt(fs.files, Path(t.target, rel)) == Some(snapshot)
    ensures Present(fs.files, fs.dirs, t.target, recorded) && recorded.Keys <= restored.Keys + Prefixes(rel)
    ensures ok ==> old(SourceIsRecorded(fs.files, fs.dirs, t.backup, rel, ledger.entries))
    ensures ledger.entries == old(ledger.entries) || (
              && ledger.entries == old(ledger.entries) - {rel}
              && old(!Exists(fs.files, fs.dirs, Path(t.backup, rel))))
    ensures old(Recoverable(fs.files, fs.dirs, t.backup, ledger.entries, {rel})) ==>
              && ledger.entries == old(ledger.entries)
              && (old(Path(t.target, []) in fs.dirs && Open(fs.files, fs.dirs, t.target, rel))
                  && fs.faults == old(fs.faults)
                  ==> ok)
  {
    hide WellFormed, Present, ParentsExpected, AncestorsAreDirectories, NoFileAbove, Prefixes, SourceIsRecorded,
      RecoverySourceMatches, Recoverable, GrownAbove, OnlyAdded;
    recorded := restored;
    ghost var files, dirs := fs.files, fs.dirs;
    NotGrown(files, dirs, t.target, rel);
    if Recoverable(files, dirs, t.backup, ledger.entries, {rel}) {
      RecoverableMatches(files, dirs, t.backup, rel, ledger.entries);
    }
    if !AncestorsAreDirectories(fs.dirs, t.backup, rel) {
      return false, recorded;
    }
    ok := PrepareOwnedDestination(fs, t.target, rel);
    GrowthKeepsIdentities(files, dirs, fs.dirs, t.target, rel);
    GrowthSparesOthers(files, dirs, fs.dirs, t, rel, ledger.entries);
    PresentAfterGrowth(files, dirs, fs.dirs, t.target, restored);
    var destination := Path(t.target, rel);
    if !ok || Exists(fs.files, fs.dirs, destination) {
      return false, recorded;
    }
    HasRoomIn(fs.dirs, dirs, t.target, rel);
    var missing := rel !in ledger.entries || !Exists(fs.files, fs.dirs, Path(t.backup, rel));
    var matches := RecoverySourceMatches(fs.files, fs.dirs, t.backup, rel, ledger.entries);
    ok, recorded := WriteBack(fs, t.target, rel, snapshot, restored, missing || matches);
    if ok {
      MatchesIsRecorded(files, dirs, t.backup, rel, ledger.entries);
      if missing {
        ledger.entries := ledger.entries - {rel};
      }
    }
  }

  /** Writes a file from its snapshot, and records it unless its object in the backup is in doubt. */
  method WriteBack(fs: FileSystem, top: string, rel: Relative, snapshot: Snapshot, restored: Identities, certain: bool)
    returns (ok: bool, recorded: Identities)
    requires fs.Valid() && rel != [] && Present(fs.files, fs.dirs, top, restored)
    requires AncestorsAreDirectories(fs.dirs, top, rel) && !Exists(fs.files, fs.dirs, Path(top, rel))
    modifies fs`files, fs`faults
    ensures fs.Valid() && fs.faults >= old(fs.faults) && OnlyAdded(old(fs.files), fs.files, top, {rel})
    ensures ok ==> certain && ContentAt(fs.files, Path(top, rel)) == Some(snapshot)
    ensures Present(fs.files, fs.dirs, top, recorded) && recorded.Keys <= restored.Keys + Prefixes(rel)
    ensures certain && HasParent(fs.dirs, Path(top, rel)) && fs.faults == old(fs.faults) ==> ok
  {
    hide WellFormed, Present, AncestorsAreDirectories, Prefixes;
    recorded := restored;
    var destination := Path(top, rel);
    ok := RestoreOwnedSnapshot(fs, destination, snapshot);
    ArrivalKeepsPresent(old(fs.files), fs.files, fs.dirs, top, rel, restored);
    if ok && certain {
      assert Lookup(fs.files, destination).Some?;
      ok, recorded := RecordOwnedDestination(fs, top, rel, restored);
    } else {
      ok := false;
    }
  }

  lemma StaysOpen(
    files: Files, dirs: Directories, files': Files, dirs': Directories, top: string, rel: Relative, r: Relative)
    requires Open(files, dirs, top, r) && r != rel && !(rel < r) && !(r < rel)
    requires OnlyAdded(files, files', top, {rel}) && GrownAbove(dirs, dirs', top, rel)
    ensures Open(files', dirs', top, r)
  {
    forall i | 0 < i < |r|
      ensures Path(top, r[..i]) !in files'
    {
      assert r[..i] != rel;
      assert Lookup(files', Path(top, r[..i])) == Lookup(files, Path(top, r[..i]));
    }
    assert Lookup(files', Path(top, r)) == Lookup(files, Path(top, r));
  }

  lemma BackupUnaffected(
    files: Files, dirs: Directories, files': Files, dirs': Directories, t: Tops, gone: set<Relative>, names: set<Relative>,
    entries: Identities, rels: set<Relative>)
    requires t.Distinct() && OnlyAdded(files, files', t.target, gone) && GrownAmong(dirs, dirs', t.target, names)
    ensures Recoverable(files, dirs, t.backup, entries, rels) <==> Recoverable(files', dirs', t.backup, entries, rels)
    ensures Exact(files, dirs, t.backup, entries) <==> Exact(files', dirs', t.backup, entries)
  {
    forall r: Relative
      ensures Lookup(files', Path(t.backup, r)) == Lookup(files, Path(t.backup, r))
      ensures Lookup(dirs', Path(t.backup, r)) == Lookup(dirs, Path(t.backup, r))
    {}
    TreeStable(files, dirs, files', dirs', t.backup);
  }

  lemma AddedTwice(files: Files, files': Files, files'': Files, top: string, rels: set<Relative>, rel: Relative)
    requires OnlyAdded(files, files', top, rels) && OnlyAdded(files', files'', top, {rel}) && rel in rels
    ensures OnlyAdded(files, files'', top, rels)
    ensures forall p | ContentAt(files', p).Some? :: ContentAt(files'', p) == ContentAt(files', p)
  {
    forall p: Path | p.top != top || p.rel !in rels || p in files
      ensures Lookup(files'', p) == Lookup(files, p)
    {
      assert Lookup(files', p) == Lookup(files, p);
      assert p in files ==> p in files';
    }
    forall p | ContentAt(files', p).Some?
      ensures ContentAt(files'', p) == ContentAt(files', p)
    {
      assert p in files';
    }
  }

  lemma PrefixesWithin(rel: Relative, rels: seq<Relative>)
    requires rel in rels
    ensures Prefixes(rel) <= PathsTo(rels)
  {}

  ghost predicate AllOpen(files: Files, dirs: Directories, top: string, rels: seq<Relative>) {
    forall r | r in rels :: Open(files, dirs, top, r)
  }

  lemma RestStaysOpen(
    files: Files, dirs: Directories, files': Files, dirs': Directories, top: string, rels: seq<Relative>, n: nat)
    requires n < |rels| && NoDuplicates(rels) && Antichain(rels) && AllOpen(files, dirs, top, rels[..n + 1])
    requires OnlyAdded(files, files', top, {rels[n]}) && GrownAbove(dirs, dirs', top, rels[n])
    ensures AllOpen(files', dirs', top, rels[..n])
  {
    forall r | r in rels[..n]
      ensures Open(files', dirs', top, r)
    {
      assert r in rels && rels[n] in rels && r in rels[..n + 1];
      StaysOpen(files, dirs, files', dirs', top, rels[n], r);
    }
  }

  /** Rewrites every moved file from its snapshot, the last one first. */
  method RestoreAll(
    fs: FileSystem, t: Tops, moved: seq<Relative>, snapshot: Snapshots, ledger: RecoveryIdentity, root: Identities)
    returns (ok: bool, restored: Identities)
    requires fs.Valid() && t.Distinct() && NoDuplicates(moved) && Antichain(moved) && [] !in moved
    requires forall r | r in moved :: r in snapshot
    requires Present(fs.files, fs.dirs, t.target, root) && root.Keys == {[]} && HasRoot(ledger.entries)
    requires Path(t.target, []) in fs.dirs
    modifies fs, ledger`entries
    ensures fs.Valid() && fs.faults >= old(fs.faults) && HasRoot(ledger.entries)
    ensures OnlyAdded(old(fs.files), fs.files, t.target, Elements(moved))
    ensures GrownAmong(old(fs.dirs), fs.dirs, t.target, AncestorsOf(moved))
    ensures ok ==> forall r | r in moved :: ContentAt(fs.files, Path(t.target, r)) == Some(snapshot[r])
    ensures ok ==> forall r | r in moved :: old(SourceIsRecorded(fs.files, fs.dirs, t.backup, r, ledger.entries))
    ensures Present(fs.files, fs.dirs, t.target, restored) && restored.Keys <= {[]} + PathsTo(moved)
    ensures old(Recoverable(fs.files, fs.dirs, t.backup, ledger.entries, Elements(moved))) ==>
              && ledger.entries == old(ledger.entries)
              && (fs.faults == old(fs.faults) && old(AllOpen(fs.files, fs.dirs, t.target, moved)) ==> ok)
  {
    hide WellFormed, Present, GrownAmong, GrownAbove, OnlyAdded, AncestorsOf, PathsTo, Prefixes, AllOpen, Antichain,
      Recoverable, ContentAt, SourceIsRecorded, RecordsKept;
    ok, restored := true, root;
    var i := |moved|;
    ghost var entries := ledger.entries;
    NothingRestoredYet(fs.files, fs.dirs, t.target, moved);
    AllRecordsKept(fs.files, fs.dirs, t.backup, entries);
    assert moved[..i] == moved;
    while i > 0
      invariant 0 <= i <= |moved| && fs.Valid() && fs.faults >= old(fs.faults) && HasRoot(ledger.entries)
      invariant OnlyAdded(old(fs.files), fs.files, t.target, Elements(moved))
      invariant GrownAmong(old(fs.dirs), fs.dirs, t.target, AncestorsOf(moved)) && Path(t.target, []) in fs.dirs
      invariant ok ==> forall k | i <= k < |moved| :: ContentAt(fs.files, Path(t.target, moved[k])) == Some(snapshot[moved[k]])
      invariant ok ==> forall k | i <= k < |moved| ::
                  SourceIsRecorded(old(fs.files), old(fs.dirs), t.backup, moved[k], entries)
      invariant RecordsKept(old(fs.files), old(fs.dirs), t.backup, entries, ledger.entries)
      invariant Present(fs.files, fs.dirs, t.target, restored) && restored.Keys <= {[]} + PathsTo(moved)
      invariant old(Recoverable(fs.files, fs.dirs, t.backup, ledger.entries, Elements(moved))) ==>
                  ledger.entries == entries
      invariant old(Recoverable(fs.files, fs.dirs, t.backup, ledger.entries, Elements(moved)))
                && fs.faults == old(fs.faults) && old(AllOpen(fs.files, fs.dirs, t.target, moved))
                ==> ok && AllOpen(fs.files, fs.dirs, t.target, moved[..i])
    {
      i := i - 1;
      var rel := moved[i];
      assert rel in moved;
      ghost var files, dirs := fs.files, fs.dirs;
      BackupUnaffected(
        old(fs.files), old(fs.dirs), files, dirs, t, Elements(moved), AncestorsOf(moved), entries, Elements(moved));
      RecoverableOne(files, dirs, t.backup, entries, moved, rel);
      LastIsOpen(files, dirs, t.target, moved, i);
      var done: bool;
      SourceStable(
        old(fs.files), old(fs.dirs), files, dirs, t, Elements(moved), AncestorsOf(moved), rel, entries, ledger.entries);
      done, restored := RestoreOne(fs, t, rel, snapshot[rel], ledger, restored);
      AddedTwice(old(fs.files), files, fs.files, t.target, Elements(moved), rel);
      GrowthAmong(old(fs.dirs), dirs, fs.dirs, t.target, rel, moved);
      RootStays(dirs, fs.dirs, t.target, rel);
      PrefixesWithin(rel, moved);
      if AllOpen(files, dirs, t.target, moved[..i + 1]) {
        RestStaysOpen(files, dirs, fs.files, fs.dirs, t.target, moved, i);
      }
      ok := ok && done;
    }
  }

  lemma AllRecordsKept(files: Files, dirs: Directories, top: string, entries: Identities)
    ensures RecordsKept(files, dirs, top, entries, entries)
  {}

  lemma NothingRestoredYet(files: Files, dirs: Directories, top: string, moved: seq<Relative>)
    ensures OnlyAdded(files, files, top, Elements(moved)) && GrownAmong(dirs, dirs, top, AncestorsOf(moved))
  {}

  lemma RecoverableOne(
    files: Files, dirs: Directories, top: string, entries: Identities, moved: seq<Relative>, rel: Relative)
    requires rel in moved
    ensures Recoverable(files, dirs, top, entries, Elements(moved)) ==> Recoverable(files, dirs, top, entries, {rel})
  {}

  lemma LastIsOpen(files: Files, dirs: Directories, top: string, moved: seq<Relative>, n: nat)
    requires n < |moved|
    ensures AllOpen(files, dirs, top, moved[..n + 1]) ==> Open(files, dirs, top, moved[n])
  {
    assert moved[..n + 1][n] in moved[..n + 1];
  }

  lemma RootStays(dirs: Directories, dirs': Directories, top: string, rel: Relative)
    requires GrownAbove(dirs, dirs', top, rel) && Path(top, []) in dirs
    ensures Path(top, []) in dirs'
  {}

  /** Outside the backup and the stage, the files are the original ones, short of those set aside. */
  ghost predicate Cleared(t: Tops, start: Files, moved: set<Relative>, files: Files) {
    forall p: Path | p.top != t.backup && p.top != t.stage ::
      Lookup(files, p) == if p.top == t.target && p.rel in moved then None else Lookup(start, p)
  }

  lemma UnpublishedIsCleared(
    t: Tops, start: Files, startDirs: Directories, moved: set<Relative>, installed: seq<Relative>,
    files: Files, files': Files)
    requires t.Distinct() && PlacedOutsideBackup(t, start, moved, Elements(installed), files)
    requires AllFree(start, startDirs, t.target, moved, installed) && [] !in installed
    requires OnlyRemoved(files, files', t.target, Elements(installed))
    requires forall r | r in installed :: Lookup(files', Path(t.target, r)).None?
    ensures Cleared(t, start, moved, files')
  {
    forall p: Path | p.top != t.backup && p.top != t.stage
      ensures Lookup(files', p) == if p.top == t.target && p.rel in moved then None else Lookup(start, p)
    {
      assert Lookup(files, p) == Placed(t, start, moved, Elements(installed), p);
      if p.top == t.target && p.rel in installed {
        assert Free(start, startDirs, t.target, moved, p.rel);
        assert p.rel[..|p.rel|] == p.rel && Path(t.target, p.rel) == p;
      }
    }
  }

  /** Below a path that held a file there is nothing but what the upgrade itself created. */
  lemma NothingBelowFile(
    t: Tops, start: Files, startDirs: Directories, moved: set<Relative>, files: Files, r: Relative, q: Relative)
    requires t.Distinct() && WellFormed(start, startDirs) && Path(t.target, r) in start
    requires Cleared(t, start, moved, files) && r < q
    ensures Path(t.target, q) !in files && Path(t.target, q) !in startDirs
  {
    assert r == q[..|r|];
    if Exists(start, startDirs, Path(t.target, q)) {
      PrefixExists(start, startDirs, t.target, q, |r|);
    }
    assert Lookup(files, Path(t.target, q)) ==
           if q in moved then None else Lookup(start, Path(t.target, q));
  }

  predicate HasChildIn(rels: set<Relative>, d: Relative) {
    exists q :: q in rels && |q| == |d| + 1 && d < q
  }

  /** A finite tree has leaves. */
  lemma SomeLeaf(rels: set<Relative>, any: Relative)
    requires any in rels
    ensures exists d :: d in rels && !HasChildIn(rels, d)
  {
    DeepestExists(rels, any);
    var d :| d in rels && forall q | q in rels :: |d| >= |q|;
    assert !HasChildIn(rels, d);
  }

  lemma OnlyDirectoriesBelow(
    t: Tops, start: Files, startDirs: Directories, owned: seq<Relative>, upcoming: seq<Relative>,
    moved: set<Relative>, files: Files, dirs: Directories, r: Relative, d: Relative)
    returns (q: Relative)
    requires t.Distinct() && WellFormed(start, startDirs)
    requires Cleared(t, start, moved, files) && DirectoriesChanged(t, startDirs, dirs, Parents(owned, upcoming))
    requires NoneLeftEmpty(files, dirs, t.target, AncestorsOf(upcoming))
    requires forall o | o in owned :: Path(t.target, o) in start
    requires r in owned && r <= d && Path(t.target, d) in dirs
    ensures Path(t.target, q) in dirs && |q| == |d| + 1 && d < q
  {
    hide WellFormed, Cleared, DirectoriesChanged, AncestorsOf, Parents;
    if r != d {
      NothingBelowFile(t, start, startDirs, moved, files, r, d);
    } else {
      FileIsNoDirectory(start, startDirs, Path(t.target, r));
    }
    CreatedByUpgrade(t, start, startDirs, owned, upcoming, dirs, d);
    assert !IsEmpty(files, dirs, Path(t.target, d));
    var p :| (p in files || p in dirs) && IsChild(p, Path(t.target, d));
    assert IsChild(p, Path(t.target, d));
    q := p.rel;
    assert q[..|q| - 1] == d && p == Path(t.target, q);
    NothingBelowFile(t, start, startDirs, moved, files, r, q);
  }

  lemma FileIsNoDirectory(files: Files, dirs: Directories, p: Path)
    requires WellFormed(files, dirs) && p in files
    ensures p !in dirs
  {}

  lemma NoDirectoryInTheWay(
    t: Tops, start: Files, startDirs: Directories, owned: seq<Relative>, upcoming: seq<Relative>,
    moved: set<Relative>, files: Files, dirs: Directories, r: Relative)
    requires t.Distinct() && WellFormed(start, startDirs)
    requires Cleared(t, start, moved, files) && DirectoriesChanged(t, startDirs, dirs, Parents(owned, upcoming))
    requires NoneLeftEmpty(files, dirs, t.target, AncestorsOf(upcoming))
    requires forall o | o in owned :: Path(t.target, o) in start
    requires r in owned
    ensures Path(t.target, r) !in dirs
  {
    hide WellFormed, Cleared, DirectoriesChanged, AncestorsOf, Parents, NoneLeftEmpty;
    var below := set p | p in dirs && p.top == t.target && r <= p.rel :: p.rel;
    forall d | d in below
      ensures HasChildIn(below, d)
    {
      var p :| p in dirs && p.top == t.target && r <= p.rel && p.rel == d;
      assert p == Path(t.target, d);
      var q := OnlyDirectoriesBelow(t, start, startDirs, owned, upcoming, moved, files, dirs, r, d);
      assert Path(t.target, q) in dirs && r <= q;
      assert q in below;
    }
    if Path(t.target, r) in dirs {
      assert r in below;
      SomeLeaf(below, r);
    }
  }

  lemma CreatedByUpgrade(
    t: Tops, start: Files, startDirs: Directories, owned: seq<Relative>, upcoming: seq<Relative>,
    dirs: Directories, d: Relative)
    requires t.Distinct() && WellFormed(start, startDirs)
    requires DirectoriesChanged(t, startDirs, dirs, Parents(owned, upcoming))
    requires forall o | o in owned :: Path(t.target, o) in start
    requires Path(t.target, d) in dirs && Path(t.target, d) !in startDirs
    ensures d in AncestorsOf(upcoming)
  {
    assert Lookup(dirs, Path(t.target, d)) != Lookup(startDirs, Path(t.target, d));
    AncestorsOfMember(owned, d);
    if d in AncestorsOf(owned) {
      var o :| o in owned && IsAncestor(d, o);
      assert Exists(start, startDirs, Path(t.target, o)) && o[..|d|] == d;
      PrefixExists(start, startDirs, t.target, o, |d|);
    }
  }

  lemma MovedAreOpen(
    t: Tops, start: Files, startDirs: Directories, owned: seq<Relative>, upcoming: seq<Relative>,
    moved: seq<Relative>, files: Files, dirs: Directories)
    requires t.Distinct() && WellFormed(start, startDirs) && moved <= owned
    requires Cleared(t, start, Elements(moved), files)
    requires DirectoriesChanged(t, startDirs, dirs, Parents(owned, upcoming))
    requires NoneLeftEmpty(files, dirs, t.target, AncestorsOf(upcoming))
    requires forall o | o in owned :: Path(t.target, o) in start
    ensures AllOpen(files, dirs, t.target, moved)
  {
    forall r | r in moved
      ensures Open(files, dirs, t.target, r)
    {
      assert r in owned;
      NoDirectoryInTheWay(t, start, startDirs, owned, upcoming, Elements(moved), files, dirs, r);
      assert Lookup(files, Path(t.target, r)).None?;
      assert Exists(start, startDirs, Path(t.target, r));
      forall i | 0 < i < |r|
        ensures Path(t.target, r[..i]) !in files
      {
        PrefixExists(start, startDirs, t.target, r, i);
        assert Lookup(files, Path(t.target, r[..i])) ==
               if r[..i] in moved then None else Lookup(start, Path(t.target, r[..i]));
      }
    }
  }

  /** Everywhere but in the backup and the stage, the files have the bytes and modes they started with. */
  ghost predicate ContentsRestored(t: Tops, start: Files, files: Files) {
    forall p: Path | p.top != t.backup && p.top != t.stage :: ContentAt(files, p) == ContentAt(start, p)
  }

  lemma RestoredContents(t: Tops, start: Files, moved: seq<Relative>, files: Files, files': Files, snapshot: Snapshots)
    requires t.Distinct() && Cleared(t, start, Elements(moved), files)
    requires OnlyAdded(files, files', t.target, Elements(moved))
    requires forall r | r in moved ::
               && r in snapshot && ContentAt(start, Path(t.target, r)) == Some(snapshot[r])
               && ContentAt(files', Path(t.target, r)) == Some(snapshot[r])
    ensures ContentsRestored(t, start, files')
  {
    forall p: Path | p.top != t.backup && p.top != t.stage
      ensures ContentAt(files', p) == ContentAt(start, p)
    {
      assert Lookup(files, p) == if p.top == t.target && p.rel in moved then None else Lookup(start, p);
      if p.top == t.target && p.rel in moved {
        assert p == Path(t.target, p.rel);
      }
    }
  }

  /** Whether an installation verifies depends on its directory, its bytes and nothing else. */
  lemma VerifiedByContent(
    host: Host, files: Files, dirs: Directories, files': Files, dirs': Directories, top: string,
    v: Option<Version>, receipt: Receipt)
    requires Verified(host, files, dirs, top, v, receipt) && Path(top, []) in dirs'
    requires forall r: Relative :: ContentAt(files', Path(top, r)) == ContentAt(files, Path(top, r))
    ensures Verified(host, files', dirs', top, v, receipt)
  {
    assert ContentAt(files', Path(top, RECEIPT)) == ContentAt(files, Path(top, RECEIPT));
    forall e | e in receipt.files
      ensures EntryMatches(host, files', top, e)
    {
      assert EntryMatches(host, files, top, e);
      assert ContentAt(files', Path(top, e.path)) == ContentAt(files, Path(top, e.path));
    }
  }

  /** The publication that a retirement may rely on is still made of the same objects. */
  predicate PublishedObjectsOwned(files: Files, dirs: Directories, ledger: RecoveryIdentity)
    reads ledger
  {
    match Capture(files, dirs, ledger.publishedTarget, ledger.publishedRelatives)
    case None => false
    case Some(observed) => SameObjects(ledger.publishedIdentity, observed) && observed.Keys == ledger.publishedIdentity.Keys
  }

  predicate SameObjects(prior: Identities, observed: Identities) {
    prior.Keys <= observed.Keys && forall k | k in prior :: SameObject(prior[k], observed[k])
  }

  /** Verifies the restored installation, so that the backup may be retired against it. */
  method ConfirmRestored(
    fs: FileSystem, host: Host, top: string, previous: Receipt, restored: Identities, ledger: RecoveryIdentity)
    returns (ok: bool)
    requires fs.Valid() && ledger.publishedTarget == top
    modifies ledger`publishedRelatives, ledger`publishedIdentity, ledger`guardActive
    ensures ok ==>
              && ledger.guardActive && ledger.PublishedCurrent(fs.files, fs.dirs)
              && Verified(host, fs.files, fs.dirs, top, Some(previous.version), previous)
              && (forall r | r in restored :: StillThere(fs.files, fs.dirs, Path(top, r), restored[r]))
    ensures Verified(host, fs.files, fs.dirs, top, Some(previous.version), previous)
            && Present(fs.files, fs.dirs, top, restored) && restored.Keys <= OwnedKeys(Paths(previous.files))
            ==> ok
  {
    hide WellFormed, WellShaped, OwnedKeys;
    var result := Verify(fs, host, top, Some(previous.version));
    if result.Failure? {
      return false;
    }
    CapturedIsPresent(fs.files, fs.dirs, top, Paths(result.value.receipt.files));
    if result.value.receipt != previous || !SameObjects(restored, result.value.ownership) {
      return false;
    }
    if Capture(fs.files, fs.dirs, top, Paths(previous.files)) != Some(result.value.ownership) {
      return false;
    }
    forall r | r in restored
      ensures StillThere(fs.files, fs.dirs, Path(top, r), restored[r])
    {
      SameObjectIsStillThere(fs.files, fs.dirs, Path(top, r), restored[r]);
    }
    ledger.publishedRelatives := Paths(previous.files);
    ledger.publishedIdentity, ledger.guardActive := result.value.ownership, true;
    ok := true;
  }

  lemma CapturedIsPresent(files: Files, dirs: Directories, top: string, rels: seq<Relative>)
    ensures Capture(files, dirs, top, rels).Some? ==>
              && Capture(files, dirs, top, rels).value.Keys == OwnedKeys(rels)
              && Present(files, dirs, top, Capture(files, dirs, top, rels).value)
  {}

  /** The guard of a retirement asks for every published object, and for nothing else. */
  lemma OwnedMeansStillThere(files: Files, dirs: Directories, ledger: RecoveryIdentity)
    ensures PublishedObjectsOwned(files, dirs, ledger) <==>
            && ledger.publishedIdentity.Keys == OwnedKeys(ledger.publishedRelatives)
            && forall k | k in ledger.publishedIdentity ::
                 StillThere(files, dirs, Path(ledger.publishedTarget, k), ledger.publishedIdentity[k])
  {
    hide OwnedKeys, StillThere, SameObject;
    var published := ledger.publishedIdentity;
    forall k | k in published
      ensures StillThere(files, dirs, Path(ledger.publishedTarget, k), published[k]) <==>
              && IdentityAt(files, dirs, Path(ledger.publishedTarget, k)).Some?
              && SameObject(published[k], IdentityAt(files, dirs, Path(ledger.publishedTarget, k)).value)
    {
      SameObjectIsStillThere(files, dirs, Path(ledger.publishedTarget, k), published[k]);
    }
  }

  lemma PublishedIsOwned(files: Files, dirs: Directories, ledger: RecoveryIdentity)
    requires ledger.guardActive && ledger.PublishedCurrent(files, dirs)
    ensures PublishedObjectsOwned(files, dirs, ledger)
  {}

  /** Files of the target that neither version owns, and files elsewhere, are untouched. */
  ghost predicate OthersKept(t: Tops, start: Files, owned: seq<Relative>, upcoming: seq<Relative>, files: Files) {
    forall p: Path |
      p.top != t.backup && p.top != t.stage && !(p.top == t.target && (p.rel in owned || p.rel in upcoming)) ::
      Lookup(files, p) == Lookup(start, p)
  }

  lemma PlacedKeepsOthers(
    t: Tops, start: Files, owned: seq<Relative>, upcoming: seq<Relative>,
    moved: seq<Relative>, installed: seq<Relative>, files: Files)
    requires t.Distinct() && PlacedOutsideBackup(t, start, Elements(moved), Elements(installed), files)
    requires moved <= owned && installed <= upcoming
    ensures OthersKept(t, start, owned, upcoming, files)
  {
    forall p: Path |
      p.top != t.backup && p.top != t.stage && !(p.top == t.target && (p.rel in owned || p.rel in upcoming))
      ensures Lookup(files, p) == Lookup(start, p)
    {
      assert Lookup(files, p) == Placed(t, start, Elements(moved), Elements(installed), p);
    }
  }

  lemma RemovalKeepsOthers(
    t: Tops, start: Files, owned: seq<Relative>, upcoming: seq<Relative>, installed: seq<Relative>,
    files: Files, files': Files)
    requires t.Distinct() && OthersKept(t, start, owned, upcoming, files) && installed <= upcoming
    requires OnlyRemoved(files, files', t.target, Elements(installed))
    ensures OthersKept(t, start, owned, upcoming, files')
    ensures forall r: Relative :: Lookup(files', Path(t.backup, r)) == Lookup(files, Path(t.backup, r))
  {
    forall p: Path | p.top != t.target || p.rel !in upcoming
      ensures Lookup(files', p) == Lookup(files, p)
    {}
  }

  lemma RestorationKeepsOthers(
    t: Tops, start: Files, owned: seq<Relative>, upcoming: seq<Relative>, moved: seq<Relative>,
    files: Files, files': Files)
    requires t.Distinct() && OthersKept(t, start, owned, upcoming, files) && moved <= owned
    requires OnlyAdded(files, files', t.target, Elements(moved))
    ensures OthersKept(t, start, owned, upcoming, files')
    ensures forall r: Relative :: Lookup(files', Path(t.backup, r)) == Lookup(files, Path(t.backup, r))
  {
    forall p: Path | p.top != t.target || p.rel !in owned
      ensures Lookup(files', p) == Lookup(files, p)
    {}
  }

  lemma RecoverableStable(
    files: Files, dirs: Directories, files': Files, dirs': Directories, top: string, entries: Identities, rels: set<Relative>)
    requires forall r: Relative ::
               && Lookup(files', Path(top, r)) == Lookup(files, Path(top, r))
               && Lookup(dirs', Path(top, r)) == Lookup(dirs, Path(top, r))
    ensures Recoverable(files, dirs, top, entries, rels) <==> Recoverable(files', dirs', top, entries, rels)
  {
    TreeStable(files, dirs, files', dirs', top);
  }

  lemma ReceiptHasNoAncestors(receipt: Receipt)
    ensures AncestorsOf(Owned(receipt)) == AncestorsOf(Paths(receipt.files))
  {
    forall a
      ensures a in AncestorsOf(Owned(receipt)) <==> a in AncestorsOf(Paths(receipt.files))
    {
      AncestorsOfMember(Owned(receipt), a);
      AncestorsOfMember(Paths(receipt.files), a);
      assert !IsAncestor(a, RECEIPT);
    }
  }

  lemma RestoringChanges(t: Tops, dirs: Directories, dirs': Directories, dirs'': Directories, owned: seq<Relative>, moved: seq<Relative>, upcoming: seq<Relative>)
    requires t.Distinct() && DirectoriesChanged(t, dirs, dirs', Parents(owned, upcoming)) && moved <= owned
    requires GrownAmong(dirs', dirs'', t.target, AncestorsOf(moved))
    ensures DirectoriesChanged(t, dirs, dirs'', Parents(owned, upcoming))
    ensures forall r: Relative :: Lookup(dirs'', Path(t.backup, r)) == Lookup(dirs', Path(t.backup, r))
  {
    forall a | a in AncestorsOf(moved)
      ensures a in AncestorsOf(owned)
    {
      AncestorsOfMember(moved, a);
      AncestorsOfMember(owned, a);
    }
    forall p: Path | p.top != t.target || p.rel !in Parents(owned, upcoming)
      ensures Lookup(dirs'', p) == Lookup(dirs', p)
    {}
  }

  lemma PrefixAntichain(rels: seq<Relative>, moved: seq<Relative>)
    requires NoDuplicates(rels) && Antichain(rels) && moved <= rels
    ensures NoDuplicates(moved) && Antichain(moved) && forall r | r in moved :: r in rels
    ensures PathsTo(moved) <= PathsTo(rels)
  {
    assert forall i | 0 <= i < |moved| :: moved[i] == rels[i];
    forall r | r in moved
      ensures r in rels
    {}
  }

  lemma RootIsPresent(files: Files, dirs: Directories, files': Files, dirs': Directories, top: string, rels: seq<Relative>, expected: Identities)
    requires Capture(files, dirs, top, rels) == Some(expected) && Path(top, []) in dirs
    requires Lookup(dirs', Path(top, [])) == Lookup(dirs, Path(top, []))
    ensures [] in expected && Present(files', dirs', top, map[[] := expected[[]]])
    ensures Path(top, []) in dirs'
  {
    assert [] in OwnedKeys(rels);
  }

  lemma OwnershipKeys(installed: seq<Relative>, ownership: Identities)
    requires ownership.Keys == {[]} + PathsTo(installed) && [] !in installed
    ensures forall r | r in installed :: r in ownership
  {
    forall r | r in installed
      ensures r in ownership
    {
      PrefixMember(r, r);
    }
  }

  lemma InstalledAreThere(t: Tops, start: Files, moved: set<Relative>, installed: seq<Relative>, files: Files, upcoming: seq<Relative>)
    requires PlacedOutsideBackup(t, start, moved, Elements(installed), files) && installed <= upcoming && t.Distinct()
    requires forall r | r in upcoming :: Path(t.stage, r) in start
    ensures forall r | r in installed :: Lookup(files, Path(t.target, r)).Some?
  {
    forall r | r in installed
      ensures Lookup(files, Path(t.target, r)).Some?
    {
      assert r in upcoming;
      assert Lookup(files, Path(t.target, r)) == Placed(t, start, moved, Elements(installed), Path(t.target, r));
    }
  }

  /** The upgrade as it stands when it is interrupted. */
  ghost predicate Interrupted(
    t: Tops, start: Files, startDirs: Directories, owned: seq<Relative>, upcoming: seq<Relative>,
    moved: seq<Relative>, installed: seq<Relative>, ownership: Identities, files: Files, dirs: Directories)
  {
    && moved <= owned && installed <= upcoming
    && PlacedOutsideBackup(t, start, Elements(moved), Elements(installed), files)
    && DirectoriesChanged(t, startDirs, dirs, Parents(owned, upcoming))
    && Present(files, dirs, t.target, ownership) && ownership.Keys == {[]} + PathsTo(installed)
    && AllFree(start, startDirs, t.target, Elements(moved), installed)
  }

  /** The state before the files started moving, as the rollback needs it. */
  ghost predicate Began(
    host: Host, start: Files, startDirs: Directories, t: Tops, previous: VerifiedReceipt, next: Receipt,
    snapshot: Snapshots)
  {
    && t.Distinct() && WellFormed(start, startDirs)
    && Verified(host, start, startDirs, t.target, Some(previous.receipt.version), previous.receipt)
    && Capture(start, startDirs, t.target, Paths(previous.receipt.files)) == Some(previous.ownership)
    && Holds(host, start, t.stage, next)
    && forall r | r in Owned(previous.receipt) ::
         r in snapshot && ContentAt(start, Path(t.target, r)) == Some(snapshot[r])
  }

  /** Takes the published files away and rewrites the previous ones. */
  method UndoAndRestore(
    fs: FileSystem, host: Host, t: Tops, previous: VerifiedReceipt, next: Receipt, snapshot: Snapshots,
    moved: seq<Relative>, installed: seq<Relative>, ownership: Identities, ledger: RecoveryIdentity,
    ghost start: Files, ghost startDirs: Directories)
    returns (ok: bool, restored: Identities)
    requires fs.Valid() && Began(host, start, startDirs, t, previous, next, snapshot) && HasRoot(ledger.entries)
    requires Interrupted(t, start, startDirs, Owned(previous.receipt), Owned(next), moved, installed, ownership,
                         fs.files, fs.dirs)
    modifies fs, ledger`entries
    ensures fs.Valid() && fs.faults >= old(fs.faults) && HasRoot(ledger.entries)
    ensures OthersKept(t, start, Owned(previous.receipt), Owned(next), fs.files)
    ensures DirectoriesChanged(t, startDirs, fs.dirs, Parents(Owned(previous.receipt), Owned(next)))
    ensures forall r: Relative ::
              && Lookup(fs.files, Path(t.backup, r)) == old(Lookup(fs.files, Path(t.backup, r)))
              && Lookup(fs.dirs, Path(t.backup, r)) == old(Lookup(fs.dirs, Path(t.backup, r)))
    ensures Present(fs.files, fs.dirs, t.target, restored)
    ensures restored.Keys <= OwnedKeys(Paths(previous.receipt.files))
    ensures ok ==> ContentsRestored(t, start, fs.files)
    ensures old(Recoverable(fs.files, fs.dirs, t.backup, ledger.entries, Elements(moved))) && fs.faults == old(fs.faults) ==>
              ok && ledger.entries == old(ledger.entries)
  {
    hide WellFormed, Present, DirectoriesChanged, PlacedOutsideBackup, AllFree, PathsTo, Parents, AncestorsOf, Elements,
      Recoverable, OthersKept, ContentsRestored, Cleared, OnlyRemoved, OnlyAdded, ShrunkTo, NoneLeftEmpty, GrownAmong,
      AllOpen, Antichain, NoDuplicates, WellShaped, Capture, ContentAt;
    ghost var owned, upcoming := Owned(previous.receipt), Owned(next);
    ghost var files, dirs := fs.files, fs.dirs;
    OwnedIsSeparate(host, start, startDirs, t.target, previous.receipt);
    OwnedIsSeparate(host, start, startDirs, t.stage, next);
    PrefixAntichain(owned, moved);
    PrefixAntichain(upcoming, installed);
    OwnershipKeys(installed, ownership);
    InstalledAreThere(t, start, Elements(moved), installed, files, upcoming);
    PlacedKeepsOthers(t, start, owned, upcoming, moved, installed, files);
    TargetStays(t, startDirs, dirs, owned, upcoming);

    ok := Unpublish(fs, t.target, installed, ownership);
    RemovalKeepsOthers(t, start, owned, upcoming, installed, files, fs.files);
    if ok {
      UnpublishedIsCleared(t, start, startDirs, Elements(moved), installed, files, fs.files);
    }
    NextParentsInclude(previous.receipt, next);
    PruneEmptyOwnedDirectories(fs, t.target, Paths(next.files));
    PruningChanges(t, startDirs, dirs, fs.dirs, AncestorsOf(Paths(next.files)), Parents(owned, upcoming));
    RecoverableStable(files, dirs, fs.files, fs.dirs, t.backup, ledger.entries, Elements(moved));
    TargetStays(t, startDirs, fs.dirs, owned, upcoming);
    RootIsPresent(start, startDirs, fs.files, fs.dirs, t.target, Paths(previous.receipt.files), previous.ownership);
    restored := map[[] := previous.ownership[[]]];
    if !ok {
      return;
    }
    ghost var cleared, pruned := fs.files, fs.dirs;
    if NoneLeftEmpty(cleared, pruned, t.target, AncestorsOf(Paths(next.files))) {
      ReceiptHasNoAncestors(next);
      MovedAreOpen(t, start, startDirs, owned, upcoming, moved, cleared, pruned);
    }
    ok, restored := RestoreAll(fs, t, moved, snapshot, ledger, restored);
    RestorationKeepsOthers(t, start, owned, upcoming, moved, cleared, fs.files);
    RestoringChanges(t, startDirs, pruned, fs.dirs, owned, moved, upcoming);
    if ok {
      RestoredContents(t, start, moved, cleared, fs.files, snapshot);
    }
  }

  lemma NextParentsInclude(previous: Receipt, next: Receipt)
    ensures AncestorsOf(Paths(next.files)) <= Parents(Owned(previous), Owned(next))
  {
    ReceiptHasNoAncestors(next);
  }

  lemma RestoredVerifies(
    host: Host, t: Tops, start: Files, startDirs: Directories, files: Files, dirs: Directories, previous: Receipt)
    requires t.Distinct() && ContentsRestored(t, start, files) && Path(t.target, []) in dirs
    requires Verified(host, start, startDirs, t.target, Some(previous.version), previous)
    ensures Verified(host, files, dirs, t.target, Some(previous.version), previous)
  {
    forall r: Relative
      ensures ContentAt(files, Path(t.target, r)) == ContentAt(start, Path(t.target, r))
    {}
    VerifiedByContent(host, start, startDirs, files, dirs, t.target, Some(previous.version), previous);
  }

  lemma RetirementKeeps(
    t: Tops, start: Files, startDirs: Directories, owned: seq<Relative>, upcoming: seq<Relative>,
    files: Files, dirs: Directories, files': Files, dirs': Directories)
    requires SameOutside(t.backup, files, dirs, files', dirs')
    ensures OthersKept(t, start, owned, upcoming, files) ==> OthersKept(t, start, owned, upcoming, files')
    ensures ContentsRestored(t, start, files) ==> ContentsRestored(t, start, files')
    ensures DirectoriesChanged(t, startDirs, dirs, Parents(owned, upcoming)) ==>
              DirectoriesChanged(t, startDirs, dirs', Parents(owned, upcoming))
  {
    forall p: Path | p.top != t.backup
      ensures Lookup(files', p) == Lookup(files, p) && Lookup(dirs', p) == Lookup(dirs, p)
    {}
    hide Parents;
  }

  lemma SmallStable(files: Files, files': Files, top: string)
    requires forall r: Relative :: Lookup(files', Path(top, r)) == Lookup(files, Path(top, r))
    ensures SmallFiles(files, top) ==> SmallFiles(files', top)
  {
    if SmallFiles(files, top) {
      forall rel: Relative | Lookup(files', Path(top, rel)).Some?
        ensures |files'[Path(top, rel)].data| <= MAX_ARCHIVE_BYTES
      {
        assert Lookup(files', Path(top, rel)) == Lookup(files, Path(top, rel));
      }
    }
  }

  /**
    Undoes an interrupted upgrade. If it reports no failure, the target has its old bytes and
    modes and the backup is gone; and if no call fails on the way, it fails exactly if the backup
    had already lost track of what is in it.
   */
  method RollBack(
    fs: FileSystem, host: Host, t: Tops, previous: VerifiedReceipt, next: Receipt, snapshot: Snapshots,
    moved: seq<Relative>, installed: seq<Relative>, ownership: Identities, ledger: RecoveryIdentity,
    ghost start: Files, ghost startDirs: Directories)
    returns (failed: bool)
    requires fs.Valid() && Began(host, start, startDirs, t, previous, next, snapshot) && HasRoot(ledger.entries)
    requires Interrupted(t, start, startDirs, Owned(previous.receipt), Owned(next), moved, installed, ownership,
                         fs.files, fs.dirs)
    requires ledger.publishedTarget == t.target && ledger.PublishedCurrent(fs.files, fs.dirs)
    modifies fs, ledger`entries, ledger`publishedRelatives, ledger`publishedIdentity, ledger`guardActive
    ensures fs.Valid() && fs.faults >= old(fs.faults)
    ensures OthersKept(t, start, Owned(previous.receipt), Owned(next), fs.files)
    ensures DirectoriesChanged(t, startDirs, fs.dirs, Parents(Owned(previous.receipt), Owned(next)))
    ensures !failed ==> ContentsRestored(t, start, fs.files) && NothingIn(fs.files, fs.dirs, t.backup)
    ensures old(Recoverable(fs.files, fs.dirs, t.backup, ledger.entries, Elements(moved))) && fs.faults == old(fs.faults) ==>
              ContentsRestored(t, start, fs.files)
    ensures old(Recoverable(fs.files, fs.dirs, t.backup, ledger.entries, Elements(moved)))
            && old(SmallFiles(fs.files, t.backup)) && fs.faults == old(fs.faults)
            ==> (failed <==> !old(Exact(fs.files, fs.dirs, t.backup, ledger.entries)))
  {
    hide WellFormed, Present, DirectoriesChanged, Interrupted, Parents, Elements, Recoverable, OthersKept,
      ContentsRestored, WellShaped, Capture, ContentAt, Exact, SmallFiles, SameOutside, NothingIn, Keepable;
    ghost var owned, upcoming := Owned(previous.receipt), Owned(next);
    ghost var files, dirs := fs.files, fs.dirs;
    InterruptedKeepsOthers(
      t, start, startDirs, owned, upcoming, moved, installed, ownership, files, dirs);
    if ledger.guardActive {
      PublishedIsOwned(files, dirs, ledger);
    }
    failed := ledger.guardActive && !PublishedObjectsOwned(fs.files, fs.dirs, ledger);
    if !failed {
      var ok: bool, restored: Identities;
      ok, restored := UndoAndRestore(
        fs, host, t, previous, next, snapshot, moved, installed, ownership, ledger, start, startDirs);
      TreeStable(files, dirs, fs.files, fs.dirs, t.backup);
      SmallStable(files, fs.files, t.backup);
      TargetStays(t, startDirs, fs.dirs, owned, upcoming);
      if ok && (moved != [] || installed != []) {
        assert Lookup(startDirs, Path(t.target, [])).Some?;
        RestoredVerifies(host, t, start, startDirs, fs.files, fs.dirs, previous.receipt);
        ok := ConfirmRestored(fs, host, t.target, previous.receipt, restored, ledger);
      }
      failed := !ok;
    }
    if moved == [] && installed == [] {
      ledger.guardActive := false;
    }
    if Exact(fs.files, fs.dirs, t.backup, ledger.entries) && SmallFiles(fs.files, t.backup) {
      ExactMeansPresent(fs.files, fs.dirs, t.backup, ledger.entries);
      SmallIsKeepable(fs.files, fs.dirs, t.backup, ledger.entries);
    }
    files, dirs := fs.files, fs.dirs;
    var err := RetireOwnedRecovery(fs, t.backup, ledger);
    RetirementKeeps(t, start, startDirs, owned, upcoming, files, dirs, fs.files, fs.dirs);
    failed := failed || err.Some?;
  }

  lemma InterruptedKeepsOthers(
    t: Tops, start: Files, startDirs: Directories, owned: seq<Relative>, upcoming: seq<Relative>,
    moved: seq<Relative>, installed: seq<Relative>, ownership: Identities, files: Files, dirs: Directories)
    requires t.Distinct()
    requires Interrupted(t, start, startDirs, owned, upcoming, moved, installed, ownership, files, dirs)
    ensures OthersKept(t, start, owned, upcoming, files)
    ensures DirectoriesChanged(t, startDirs, dirs, Parents(owned, upcoming))
  {
    PlacedKeepsOthers(t, start, owned, upcoming, moved, installed, files);
  }

  /** Every published path holds the staged file, and no file that only the old version owned is left. */
  ghost predicate Upgraded(t: Tops, start: Files, owned: seq<Relative>, upcoming: seq<Relative>, files: Files) {
    && (forall r | r in upcoming :: Lookup(files, Path(t.target, r)) == Lookup(start, Path(t.stage, r)))
    && (forall r | r in owned && r !in upcoming :: Lookup(files, Path(t.target, r)).None?)
  }

  lemma PlacedIsUpgraded(t: Tops, start: Files, owned: seq<Relative>, upcoming: seq<Relative>, files: Files)
    requires t.Distinct() && PlacedOutsideBackup(t, start, Elements(owned), Elements(upcoming), files)
    ensures Upgraded(t, start, owned, upcoming, files)
  {
    forall r: Relative
      ensures r in upcoming ==> Lookup(files, Path(t.target, r)) == Lookup(start, Path(t.stage, r))
      ensures r in owned && r !in upcoming ==> Lookup(files, Path(t.target, r)).None?
    {
      assert Lookup(files, Path(t.target, r)) == Placed(t, start, Elements(owned), Elements(upcoming), Path(t.target, r));
    }
  }
}
