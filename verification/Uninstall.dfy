/** Removing a verified installation. */
module Uninstall {
  import opened Wrappers
  import opened FileSystems
  import opened Ownership
  import opened Receipts
  import opened Recovery
  import opened Upgrade
  import opened Rollback
  import opened Replacement

  /** The trees of an uninstallation; the stage is a name that no tree has. */
  function Trees(target: string, quarantine: string): Tops {
    Tops(target, target + quarantine + ".", quarantine)
  }

  /** What may change between two states of a rollback: rels come back to the target, or leave the quarantine. */
  ghost predicate OnlyReturned(t: Tops, files: Files, files': Files, rels: set<Relative>) {
    && (forall p: Path | p.top != t.target && p.top != t.backup :: Lookup(files', p) == Lookup(files, p))
    && (forall r: Relative | r !in rels || Lookup(files, Path(t.target, r)).Some? ::
          Lookup(files', Path(t.target, r)) == Lookup(files, Path(t.target, r)))
    && (forall r: Relative ::
          || Lookup(files', Path(t.backup, r)) == Lookup(files, Path(t.backup, r))
          || (r in rels && Lookup(files', Path(t.backup, r)).None?))
  }

  /** Each file still in quarantine has the bytes and mode of its snapshot. */
  ghost predicate Quarantined(t: Tops, files: Files, rels: set<Relative>, snapshot: Snapshots) {
    forall r | r in rels ::
      r in snapshot && (ContentAt(files, Path(t.backup, r)) == Some(snapshot[r]) || ContentAt(files, Path(t.backup, r)).None?)
  }

  lemma DepartureKeepsRecoverable(
    files: Files, files': Files, dirs: Directories, top: string, rel: Relative, entries: Identities, rest: set<Relative>)
    requires WellFormed(files, dirs) && Path(top, rel) in files && rel in entries
    requires forall r: Relative :: Lookup(files', Path(top, r)) == if r == rel then None else Lookup(files, Path(top, r))
    ensures Exact(files, dirs, top, entries) ==> Exact(files', dirs, top, entries - {rel})
    ensures Recoverable(files, dirs, top, entries, rest + {rel}) && rel !in rest ==>
              Recoverable(files', dirs, top, entries - {rel}, rest)
  {
    if Exact(files, dirs, top, entries) {
      forall r: Relative
        ensures IdentityAt(files', dirs, Path(top, r)) == Lookup(entries - {rel}, r)
      {
        assert IdentityAt(files, dirs, Path(top, r)) == Lookup(entries, r);
      }
    }
    if Recoverable(files, dirs, top, entries, rest + {rel}) {
      assert IdentityAt(files, dirs, Path(top, rel)) == Some(entries[rel]);
      assert IdentityAt(files, dirs, Path(top, [])) == Some(entries[[]]);
      forall r | r in entries - {rel}
        ensures IdentityAt(files', dirs, Path(top, r)) == Some(entries[r])
        ensures ParentExpected(entries - {rel}, r)
      {
        assert IdentityAt(files, dirs, Path(top, r)) == Some(entries[r]);
        assert ParentExpected(entries, r);
      }
    }
  }

  lemma WritingIsReturning(t: Tops, files: Files, files': Files, rel: Relative)
    requires t.Distinct() && Lookup(files, Path(t.target, rel)).None?
    requires forall p | p != Path(t.target, rel) :: Lookup(files', p) == Lookup(files, p)
    ensures OnlyReturned(t, files, files', {rel})
    ensures forall r: Relative :: Lookup(files', Path(t.backup, r)) == Lookup(files, Path(t.backup, r))
  {}

  lemma ReplacingIsReturning(t: Tops, files: Files, rel: Relative)
    requires t.Distinct() && Lookup(files, Path(t.target, rel)).None? && Path(t.backup, rel) in files
    ensures var files' := files[Path(t.target, rel) := files[Path(t.backup, rel)]] - {Path(t.backup, rel)};
            && OnlyReturned(t, files, files', {rel})
            && ContentAt(files', Path(t.target, rel)) == ContentAt(files, Path(t.backup, rel))
            && forall r: Relative ::
                 Lookup(files', Path(t.backup, r)) == if r == rel then None else Lookup(files, Path(t.backup, r))
  {}

  /** Brings rel back by moving the quarantined object, or from the snapshot if it is gone. */
  method BringBack(fs: FileSystem, t: Tops, rel: Relative, snapshot: Snapshot, ledger: RecoveryIdentity, ghost rest: set<Relative>)
    returns (ok: bool)
    requires fs.Valid() && t.Distinct() && rel != [] && rel !in rest && HasRoot(ledger.entries)
    requires !Exists(fs.files, fs.dirs, Path(t.target, rel))
    modifies fs`files, fs`faults, ledger`entries
    ensures fs.Valid() && fs.faults >= old(fs.faults) && HasRoot(ledger.entries)
    ensures OnlyReturned(t, old(fs.files), fs.files, {rel})
    ensures ok ==> old(SourceIsRecorded(fs.files, fs.dirs, t.backup, rel, ledger.entries))
    ensures ledger.entries == old(ledger.entries) || ledger.entries == old(ledger.entries) - {rel}
    ensures ok && old(Quarantined(t, fs.files, {rel}, map[rel := snapshot])) ==>
              ContentAt(fs.files, Path(t.target, rel)) == Some(snapshot)
    ensures old(Exact(fs.files, fs.dirs, t.backup, ledger.entries)) ==>
              Exact(fs.files, fs.dirs, t.backup, ledger.entries)
    ensures old(Recoverable(fs.files, fs.dirs, t.backup, ledger.entries, rest + {rel})
                && Path(t.backup, rel) in fs.files && HasParent(fs.dirs, Path(t.target, rel)))
            && fs.faults == old(fs.faults)
            ==> ok && Recoverable(fs.files, fs.dirs, t.backup, ledger.entries, rest)
  {
    hide WellFormed, Exact, Recoverable, OnlyReturned, RecoverySourceMatches;
    ghost var files, entries := fs.files, ledger.entries;
    var source, destination := Path(t.backup, rel), Path(t.target, rel);
    if Recoverable(files, fs.dirs, t.backup, entries, rest + {rel}) {
      RecoverableEach(files, fs.dirs, t.backup, rel, entries, rest + {rel});
    }
    if rel !in ledger.entries || !Exists(fs.files, fs.dirs, source) {
      ok := RestoreOwnedSnapshot(fs, destination, snapshot);
      WritingIsReturning(t, files, fs.files, rel);
      TreeStable(files, fs.dirs, fs.files, fs.dirs, t.backup);
      if ok {
        AbsentIsUnrecorded(files, fs.dirs, t.backup, rel, entries);
        ledger.entries := ledger.entries - {rel};
      }
    } else if RecoverySourceMatches(fs.files, fs.dirs, t.backup, rel, ledger.entries) {
      MatchesIsRecorded(files, fs.dirs, t.backup, rel, entries);
      ok := fs.Replace(source, destination);
      if ok {
        ReplacingIsReturning(t, files, rel);
        DepartureKeepsRecoverable(files, fs.files, fs.dirs, t.backup, rel, entries, rest);
        ledger.entries := ledger.entries - {rel};
      } else {
        WritingIsReturning(t, files, fs.files, rel);
      }
    } else {
      ok := RestoreOwnedSnapshot(fs, destination, snapshot);
      WritingIsReturning(t, files, fs.files, rel);
      TreeStable(files, fs.dirs, fs.files, fs.dirs, t.backup);
      ok := false;
    }
  }

  lemma RecoverableEach(
    files: Files, dirs: Directories, top: string, rel: Relative, entries: Identities, rels: set<Relative>)
    requires Recoverable(files, dirs, top, entries, rels) && rel in rels
    ensures rel in entries && RecoverySourceMatches(files, dirs, top, rel, entries)
    ensures AncestorsAreDirectories(dirs, top, rel) && Exists(files, dirs, Path(top, rel))
  {
    RecoverableMatches(files, dirs, top, rel, entries);
  }

  method ReturnOne(fs: FileSystem, t: Tops, rel: Relative, snapshot: Snapshot, ledger: RecoveryIdentity, ghost rest: set<Relative>)
    returns (ok: bool)
    requires fs.Valid() && t.Distinct() && rel != [] && rel !in rest && HasRoot(ledger.entries)
    modifies fs, ledger`entries
    ensures fs.Valid() && fs.faults >= old(fs.faults) && HasRoot(ledger.entries)
    ensures OnlyReturned(t, old(fs.files), fs.files, {rel})
    ensures ok ==> old(SourceIsRecorded(fs.files, fs.dirs, t.backup, rel, ledger.entries))
    ensures ledger.entries == old(ledger.entries) || ledger.entries == old(ledger.entries) - {rel}
    ensures GrownAbove(old(fs.dirs), fs.dirs, t.target, rel)
    ensures ok && old(Quarantined(t, fs.files, {rel}, map[rel := snapshot])) ==>
              ContentAt(fs.files, Path(t.target, rel)) == Some(snapshot)
    ensures old(Exact(fs.files, fs.dirs, t.backup, ledger.entries)) ==>
              Exact(fs.files, fs.dirs, t.backup, ledger.entries)
    ensures old(Recoverable(fs.files, fs.dirs, t.backup, ledger.entries, rest + {rel})
                && Path(t.backup, rel) in fs.files && Path(t.target, []) in fs.dirs
                && Open(fs.files, fs.dirs, t.target, rel))
            && fs.faults == old(fs.faults)
            ==> ok && Recoverable(fs.files, fs.dirs, t.backup, ledger.entries, rest)
  {
    hide WellFormed, Exact, AncestorsAreDirectories, NoFileAbove, Recoverable, OnlyReturned, Quarantined;
    ghost var files, dirs := fs.files, fs.dirs;
    NothingReturned(t, files);
    if Recoverable(files, dirs, t.backup, ledger.entries, rest + {rel}) {
      RecoverableEach(files, dirs, t.backup, rel, ledger.entries, rest + {rel});
    }
    if !AncestorsAreDirectories(fs.dirs, t.backup, rel) {
      return false;
    }
    ok := PrepareOwnedDestination(fs, t.target, rel);
    GrowthKeepsIdentities(files, dirs, fs.dirs, t.target, rel);
    GrowthSparesBackup(files, dirs, fs.dirs, t, rel, ledger.entries);
    if !ok || Exists(fs.files, fs.dirs, Path(t.target, rel)) {
      return false;
    }
    HasRoomIn(fs.dirs, dirs, t.target, rel);
    ok := BringBack(fs, t, rel, snapshot, ledger, rest);
  }

  lemma NothingReturned(t: Tops, files: Files)
    ensures forall rels :: OnlyReturned(t, files, files, rels)
  {}

  lemma AbsentIsUnrecorded(files: Files, dirs: Directories, top: string, rel: Relative, entries: Identities)
    requires rel !in entries || !Exists(files, dirs, Path(top, rel))
    ensures Exact(files, dirs, top, entries) ==> entries - {rel} == entries
  {
    if Exact(files, dirs, top, entries) {
      assert IdentityAt(files, dirs, Path(top, rel)) == Lookup(entries, rel);
    }
  }

  lemma GrowthSparesBackup(
    files: Files, dirs: Directories, dirs': Directories, t: Tops, rel: Relative, entries: Identities)
    requires t.Distinct() && GrownAbove(dirs, dirs', t.target, rel)
    ensures Exact(files, dirs, t.backup, entries) <==> Exact(files, dirs', t.backup, entries)
    ensures SourceIsRecorded(files, dirs, t.backup, rel, entries) <==> SourceIsRecorded(files, dirs', t.backup, rel, entries)
    ensures forall rels :: Recoverable(files, dirs, t.backup, entries, rels) <==> Recoverable(files, dirs', t.backup, entries, rels)
  {
    forall r: Relative
      ensures Lookup(dirs', Path(t.backup, r)) == Lookup(dirs, Path(t.backup, r))
    {}
    TreeStable(files, dirs, files, dirs', t.backup);
  }

  lemma ReturnedTwice(t: Tops, files: Files, files': Files, files'': Files, rels: set<Relative>, rel: Relative)
    requires OnlyReturned(t, files, files', rels) && OnlyReturned(t, files', files'', {rel}) && rel in rels
    ensures OnlyReturned(t, files, files'', rels)
    ensures forall r: Relative | ContentAt(files', Path(t.target, r)).Some? ::
              ContentAt(files'', Path(t.target, r)) == ContentAt(files', Path(t.target, r))
    ensures forall r: Relative | r != rel :: Lookup(files'', Path(t.backup, r)) == Lookup(files', Path(t.backup, r))
  {
    forall r: Relative | r !in rels || Lookup(files, Path(t.target, r)).Some?
      ensures Lookup(files'', Path(t.target, r)) == Lookup(files, Path(t.target, r))
    {
      assert Lookup(files', Path(t.target, r)) == Lookup(files, Path(t.target, r));
    }
    forall p: Path | p.top != t.target && p.top != t.backup
      ensures Lookup(files'', p) == Lookup(files, p)
    {
      assert Lookup(files', p) == Lookup(files, p);
    }
    forall r: Relative
      ensures || Lookup(files'', Path(t.backup, r)) == Lookup(files, Path(t.backup, r))
              || (r in rels && Lookup(files'', Path(t.backup, r)).None?)
    {
      assert Lookup(files', Path(t.backup, r)) == Lookup(files, Path(t.backup, r))
          || (r in rels && Lookup(files', Path(t.backup, r)).None?);
    }
  }

  lemma QuarantinedOne(t: Tops, files: Files, files': Files, rels: set<Relative>, snapshot: Snapshots, rel: Relative)
    requires Quarantined(t, files, rels, snapshot) && rel in rels && OnlyReturned(t, files, files', rels)
    ensures Quarantined(t, files', {rel}, map[rel := snapshot[rel]])
  {
    assert ContentAt(files, Path(t.backup, rel)) == Some(snapshot[rel]) || ContentAt(files, Path(t.backup, rel)).None?;
  }

  lemma RestStaysOpenHere(
    files: Files, dirs: Directories, files': Files, dirs': Directories, t: Tops, rels: seq<Relative>, n: nat)
    requires n < |rels| && NoDuplicates(rels) && Antichain(rels) && AllOpen(files, dirs, t.target, rels[..n + 1])
    requires OnlyReturned(t, files, files', {rels[n]}) && GrownAbove(dirs, dirs', t.target, rels[n])
    ensures AllOpen(files', dirs', t.target, rels[..n])
  {
    forall r | r in rels[..n]
      ensures Open(files', dirs', t.target, r)
    {
      assert r in rels && rels[n] in rels && r in rels[..n + 1];
      assert Lookup(files', Path(t.target, r)) == Lookup(files, Path(t.target, r));
      forall i | 0 < i < |r|
        ensures Path(t.target, r[..i]) !in files'
      {
        assert r[..i] != rels[n];
        assert Lookup(files', Path(t.target, r[..i])) == Lookup(files, Path(t.target, r[..i]));
      }
    }
  }

  lemma SourceUnchanged(
    files: Files, dirs: Directories, files': Files, dirs': Directories, t: Tops, names: set<Relative>, rel: Relative,
    entries: Identities, entries': Identities)
    requires t.Distinct() && GrownAmong(dirs, dirs', t.target, names)
    requires Lookup(files', Path(t.backup, rel)) == Lookup(files, Path(t.backup, rel))
    requires Lookup(entries', rel) == Lookup(entries, rel)
    ensures SourceIsRecorded(files', dirs', t.backup, rel, entries') <==>
            SourceIsRecorded(files, dirs, t.backup, rel, entries)
  {
    var p := Path(t.backup, rel);
    assert Lookup(dirs', p) == Lookup(dirs, p);
    assert Exists(files', dirs', p) <==> Exists(files, dirs, p);
  }

  /** Brings every moved file back, the last one first. */
  method ReturnAll(fs: FileSystem, t: Tops, moved: seq<Relative>, snapshot: Snapshots, ledger: RecoveryIdentity)
    returns (ok: bool)
    requires fs.Valid() && t.Distinct() && NoDuplicates(moved) && Antichain(moved) && [] !in moved
    requires HasRoot(ledger.entries) && forall r | r in moved :: r in snapshot
    modifies fs, ledger`entries
    ensures fs.Valid() && fs.faults >= old(fs.faults) && HasRoot(ledger.entries)
    ensures OnlyReturned(t, old(fs.files), fs.files, Elements(moved))
    ensures GrownAmong(old(fs.dirs), fs.dirs, t.target, AncestorsOf(moved))
    ensures ok ==> forall r | r in moved :: old(SourceIsRecorded(fs.files, fs.dirs, t.backup, r, ledger.entries))
    ensures ok && old(Quarantined(t, fs.files, Elements(moved), snapshot)) ==>
              forall r | r in moved :: ContentAt(fs.files, Path(t.target, r)) == Some(snapshot[r])
    ensures old(Exact(fs.files, fs.dirs, t.backup, ledger.entries)) ==>
              Exact(fs.files, fs.dirs, t.backup, ledger.entries)
    ensures old(Returnable(t, fs.files, fs.dirs, ledger.entries, moved)) && fs.faults == old(fs.faults) ==> ok
  {
    hide WellFormed, Exact, Recoverable, OnlyReturned, Quarantined, AllOpen, GrownAmong, GrownAbove, AncestorsOf, Antichain,
      ContentAt, Open, SourceIsRecorded;
    ok := true;
    ghost var original := ledger.entries;
    var i := |moved|;
    NothingReturned(t, fs.files);
    NothingRestoredYet(fs.files, fs.dirs, t.target, moved);
    assert moved[..i] == moved;
    while i > 0
      invariant 0 <= i <= |moved| && fs.Valid() && fs.faults >= old(fs.faults) && HasRoot(ledger.entries)
      invariant OnlyReturned(t, old(fs.files), fs.files, Elements(moved))
      invariant GrownAmong(old(fs.dirs), fs.dirs, t.target, AncestorsOf(moved))
      invariant ok ==> forall k | i <= k < |moved| ::
                  SourceIsRecorded(old(fs.files), old(fs.dirs), t.backup, moved[k], original)
      invariant forall k | 0 <= k < i ::
                  && Lookup(ledger.entries, moved[k]) == Lookup(original, moved[k])
                  && Lookup(fs.files, Path(t.backup, moved[k])) == old(Lookup(fs.files, Path(t.backup, moved[k])))
      invariant ok && old(Quarantined(t, fs.files, Elements(moved), snapshot)) ==>
                  forall k | i <= k < |moved| :: ContentAt(fs.files, Path(t.target, moved[k])) == Some(snapshot[moved[k]])
      invariant old(Exact(fs.files, fs.dirs, t.backup, ledger.entries)) ==>
                  Exact(fs.files, fs.dirs, t.backup, ledger.entries)
      invariant old(Returnable(t, fs.files, fs.dirs, ledger.entries, moved)) && fs.faults == old(fs.faults) ==>
                  ok && Returnable(t, fs.files, fs.dirs, ledger.entries, moved[..i])
    {
      i := i - 1;
      var rel := moved[i];
      assert rel in moved;
      ghost var files, dirs, entries := fs.files, fs.dirs, ledger.entries;
      if old(Quarantined(t, fs.files, Elements(moved), snapshot)) {
        QuarantinedOne(t, old(fs.files), files, Elements(moved), snapshot, rel);
      }
      ReturnableSplits(t, files, dirs, entries, moved, i);
      SourceUnchanged(old(fs.files), old(fs.dirs), files, dirs, t, AncestorsOf(moved), rel, original, entries);
      var done := ReturnOne(fs, t, rel, snapshot[rel], ledger, Elements(moved[..i]));
      ReturnedTwice(t, old(fs.files), files, fs.files, Elements(moved), rel);
      GrowthAmong(old(fs.dirs), dirs, fs.dirs, t.target, rel, moved);
      if Returnable(t, files, dirs, entries, moved[..i + 1])
         && Recoverable(fs.files, fs.dirs, t.backup, ledger.entries, Elements(moved[..i])) {
        StillReturnable(t, files, dirs, fs.files, fs.dirs, entries, ledger.entries, moved, i);
      }
      ok := ok && done;
    }
  }

  /** Nothing but a failing call can keep moved from coming back. */
  ghost predicate Returnable(t: Tops, files: Files, dirs: Directories, entries: Identities, moved: seq<Relative>) {
    && Recoverable(files, dirs, t.backup, entries, Elements(moved))
    && AllOpen(files, dirs, t.target, moved) && Path(t.target, []) in dirs
    && forall r | r in moved :: Lookup(files, Path(t.backup, r)).Some?
  }

  lemma ReturnableSplits(t: Tops, files: Files, dirs: Directories, entries: Identities, moved: seq<Relative>, n: nat)
    requires n < |moved| && NoDuplicates(moved)
    ensures moved[n] !in Elements(moved[..n])
    ensures Returnable(t, files, dirs, entries, moved[..n + 1]) ==>
              && Recoverable(files, dirs, t.backup, entries, Elements(moved[..n]) + {moved[n]})
              && Path(t.backup, moved[n]) in files && Path(t.target, []) in dirs
              && Open(files, dirs, t.target, moved[n])
  {
    hide Recoverable, Open;
    ElementsOfPrefix(moved, n);
    assert moved[..n + 1][n] in moved[..n + 1];
  }

  lemma StillReturnable(
    t: Tops, files: Files, dirs: Directories, files': Files, dirs': Directories,
    entries: Identities, entries': Identities, moved: seq<Relative>, n: nat)
    requires n < |moved| && NoDuplicates(moved) && Antichain(moved)
    requires Returnable(t, files, dirs, entries, moved[..n + 1])
    requires OnlyReturned(t, files, files', {moved[n]}) && GrownAbove(dirs, dirs', t.target, moved[n])
    requires Recoverable(files', dirs', t.backup, entries', Elements(moved[..n]))
    ensures Returnable(t, files', dirs', entries', moved[..n])
  {
    hide Recoverable;
    RestStaysOpenHere(files, dirs, files', dirs', t, moved, n);
    forall r | r in moved[..n]
      ensures Lookup(files', Path(t.backup, r)).Some?
    {
      assert r in moved[..n + 1] && r != moved[n];
      assert Lookup(files', Path(t.backup, r)) == Lookup(files, Path(t.backup, r));
    }
  }

  /** Outside the quarantine directories have only gone, and only those that names lists in the target. */
  ghost predicate DirectoriesGone(t: Tops, dirs: Directories, dirs': Directories, names: set<Relative>) {
    forall p: Path | p.top != t.backup ::
      || Lookup(dirs', p) == Lookup(dirs, p)
      || (p.top == t.target && p.rel in names && Lookup(dirs', p).None?)
  }

  /** The target holds nothing but what the receipt owns. */
  ghost predicate OnlyOwned(files: Files, dirs: Directories, top: string, owned: seq<Relative>) {
    && (forall r: Relative :: Path(top, r) in files ==> r in owned)
    && (forall r: Relative :: Path(top, r) in dirs ==> r == [] || r in AncestorsOf(owned))
  }

  function Removable(owned: seq<Relative>): set<Relative> {
    AncestorsOf(owned) + {[]}
  }

  lemma MovingLeavesDirectories(t: Tops, dirs: Directories, dirs': Directories, names: set<Relative>)
    requires forall p: Path | p.top != t.backup :: Lookup(dirs', p) == Lookup(dirs, p)
    ensures DirectoriesGone(t, dirs, dirs', names)
  {}

  lemma PruningLeavesDirectories(
    t: Tops, dirs: Directories, dirs': Directories, dirs'': Directories, gone: set<Relative>, names: set<Relative>)
    requires t.Distinct() && DirectoriesGone(t, dirs, dirs', names) && ShrunkTo(dirs', dirs'', t.target, gone) && gone <= names
    ensures DirectoriesGone(t, dirs, dirs'', names)
    ensures forall r: Relative :: Lookup(dirs'', Path(t.backup, r)) == Lookup(dirs', Path(t.backup, r))
  {
    forall p: Path | p.top != t.backup
      ensures || Lookup(dirs'', p) == Lookup(dirs, p)
              || (p.top == t.target && p.rel in names && Lookup(dirs'', p).None?)
    {
      assert Lookup(dirs'', p) == Lookup(dirs', p) || (p.top == t.target && p.rel in gone && Lookup(dirs'', p).None?);
    }
  }

  lemma RemovalIsShrinking(dirs: Directories, top: string)
    ensures ShrunkTo(dirs, dirs - {Path(top, [])}, top, {[]}) && ShrunkTo(dirs, dirs, top, {[]})
  {}

  lemma RemovableIncludes(receipt: Receipt)
    ensures AncestorsOf(Paths(receipt.files)) <= Removable(Owned(receipt)) && {[]} <= Removable(Owned(receipt))
    ensures AncestorsOf(Paths(receipt.files)) == AncestorsOf(Owned(receipt))
    ensures [] !in AncestorsOf(Paths(receipt.files))
  {
    ReceiptHasNoAncestors(receipt);
    AncestorsOfMember(Paths(receipt.files), []);
  }

  /** Once the owned files are gone and pruning met no failure, only the target directory itself is left. */
  lemma NothingOwnedLeft(
    t: Tops, start: Files, startDirs: Directories, owned: seq<Relative>, files: Files, dirs: Directories)
    requires t.Distinct() && OnlyOwned(start, startDirs, t.target, owned)
    requires AllPlaced(t, start, Elements(owned), {}, files) && DirectoriesGone(t, startDirs, dirs, Removable(owned))
    requires NoneLeftEmpty(files, dirs, t.target, AncestorsOf(owned))
    ensures forall r: Relative | r != [] :: !Exists(files, dirs, Path(t.target, r))
    ensures IsEmpty(files, dirs, Path(t.target, [])) && Path(t.target, []) !in files
  {
    forall r: Relative
      ensures Path(t.target, r) !in files
    {
      assert Lookup(files, Path(t.target, r)) == Placed(t, start, Elements(owned), {}, Path(t.target, r));
    }
    var left := set p | p in dirs && p.top == t.target && p.rel != [] :: p.rel;
    forall d | d in left
      ensures HasChildIn(left, d)
    {
      var p :| p in dirs && p.top == t.target && p.rel != [] && p.rel == d;
      assert p == Path(t.target, d);
      assert Lookup(dirs, p) == Lookup(startDirs, p);
      assert !IsEmpty(files, dirs, p);
      var q :| (q in files || q in dirs) && IsChild(q, p);
      assert IsChild(q, p);
      assert q == Path(t.target, q.rel) && q.rel[..|q.rel| - 1] == d;
      assert q.rel in left;
    }
    if any :| any in left {
      SomeLeaf(left, any);
    }
    forall r: Relative | r != []
      ensures Path(t.target, r) !in dirs
    {
      assert Path(t.target, r) in dirs ==> r in left;
    }
    forall q | q in files || q in dirs
      ensures !IsChild(q, Path(t.target, []))
    {
      assert q == Path(q.top, q.rel);
    }
  }

  lemma MovedAreQuarantined(
    t: Tops, start: Files, moved: seq<Relative>, files: Files, files': Files, owned: seq<Relative>, snapshot: Snapshots)
    requires t.Distinct() && AllPlaced(t, start, Elements(moved), {}, files) && moved <= owned
    requires forall r: Relative :: ContentAt(files', Path(t.backup, r)) == ContentAt(files, Path(t.backup, r))
    requires forall r | r in owned :: r in snapshot && ContentAt(start, Path(t.target, r)) == Some(snapshot[r])
    ensures Quarantined(t, files', Elements(moved), snapshot)
    ensures forall r | r in moved :: Lookup(files', Path(t.backup, r)).Some?
  {
    forall r | r in moved
      ensures r in snapshot && ContentAt(files', Path(t.backup, r)) == Some(snapshot[r])
    {
      assert r in owned;
      assert Lookup(files, Path(t.backup, r)) == Placed(t, start, Elements(moved), {}, Path(t.backup, r));
    }
  }

  lemma SameTreeContents(files: Files, dirs: Directories, files': Files, dirs': Directories, top: string)
    requires SameTree(files, dirs, files', dirs', top)
    ensures forall r: Relative :: ContentAt(files', Path(top, r)) == ContentAt(files, Path(top, r))
  {}

  lemma OutsideQuarantine(
    t: Tops, start: Files, startDirs: Directories, moved: set<Relative>,
    files: Files, files': Files, dirs: Directories, dirs': Directories, names: set<Relative>)
    requires AllPlaced(t, start, moved, {}, files) && DirectoriesGone(t, startDirs, dirs, names)
    requires SameOutside(t.backup, files, dirs, files', dirs')
    ensures PlacedOutsideBackup(t, start, moved, {}, files') && DirectoriesGone(t, startDirs, dirs', names)
    ensures t.Distinct() ==> forall r: Relative ::
              && Lookup(files', Path(t.target, r)) == Lookup(files, Path(t.target, r))
              && Lookup(dirs', Path(t.target, r)) == Lookup(dirs, Path(t.target, r))
  {
    forall p: Path | p.top != t.backup
      ensures Lookup(files', p) == Placed(t, start, moved, {}, p)
    {
      assert Lookup(files, p) == Placed(t, start, moved, {}, p);
    }
  }

  /** What is known of the trees once every owned file has been set aside. */
  ghost predicate ReadyToUninstall(
    host: Host, files: Files, dirs: Directories, t: Tops, v: Option<Version>, verified: VerifiedReceipt,
    entries: Identities, snapshot: Snapshots)
  {
    && t.Distinct() && WellFormed(files, dirs)
    && Verified(host, files, dirs, t.target, v, verified.receipt)
    && Capture(files, dirs, t.target, Paths(verified.receipt.files)) == Some(verified.ownership)
    && HasRoot(entries) && entries.Keys == {[]} && Exact(files, dirs, t.backup, entries)
    && forall r | r in Owned(verified.receipt) ::
         r in snapshot && ContentAt(files, Path(t.target, r)) == Some(snapshot[r])
  }

  /** Removes the emptied directories, and the target itself if nothing is left in it. */
  method PruneTarget(fs: FileSystem, t: Tops, receipt: Receipt, expected: Identity,
                     ghost start: Files, ghost startDirs: Directories)
    returns (err: Option<Error>)
    requires fs.Valid() && t.Distinct()
    requires AllPlaced(t, start, Elements(Owned(receipt)), {}, fs.files)
    requires DirectoriesGone(t, startDirs, fs.dirs, Removable(Owned(receipt)))
    requires IdentityAt(fs.files, fs.dirs, Path(t.target, [])) == Some(expected) && expected.DirectoryIdentity?
    modifies fs`dirs, fs`faults
    ensures fs.Valid() && fs.faults >= old(fs.faults) && err.None?
    ensures DirectoriesGone(t, startDirs, fs.dirs, Removable(Owned(receipt)))
    ensures forall r: Relative :: Lookup(fs.dirs, Path(t.backup, r)) == old(Lookup(fs.dirs, Path(t.backup, r)))
    ensures fs.faults == old(fs.faults) && OnlyOwned(start, startDirs, t.target, Owned(receipt)) ==>
              NothingIn(fs.files, fs.dirs, t.target)
    ensures fs.faults == old(fs.faults) ==> NoneLeftEmpty(fs.files, fs.dirs, t.target, AncestorsOf(Paths(receipt.files)))
  {
    hide WellFormed, AllPlaced, DirectoriesGone, Removable, AncestorsOf, NoneLeftEmpty, OnlyOwned, Elements;
    ghost var names := Removable(Owned(receipt));
    ghost var dirs := fs.dirs;
    RemovableIncludes(receipt);
    PruneEmptyOwnedDirectories(fs, t.target, Paths(receipt.files));
    PruningLeavesDirectories(t, startDirs, dirs, fs.dirs, AncestorsOf(Paths(receipt.files)), names);
    assert Lookup(fs.dirs, Path(t.target, [])) == Lookup(dirs, Path(t.target, []));
    if IdentityAt(fs.files, fs.dirs, Path(t.target, [])) != Some(expected) {
      return Some(PluginDrift);
    }
    if NoneLeftEmpty(fs.files, fs.dirs, t.target, AncestorsOf(Paths(receipt.files)))
       && OnlyOwned(start, startDirs, t.target, Owned(receipt)) {
      NothingOwnedLeft(t, start, startDirs, Owned(receipt), fs.files, fs.dirs);
    }
    ghost var pruned := fs.dirs;
    var removed := fs.Rmdir(Path(t.target, []));
    RemovalIsShrinking(pruned, t.target);
    if NoneLeftEmpty(fs.files, pruned, t.target, AncestorsOf(Paths(receipt.files))) {
      RootIsNobodysChild(fs.files, pruned, t.target, AncestorsOf(Paths(receipt.files)));
    }
    PruningLeavesDirectories(t, startDirs, pruned, fs.dirs, {[]}, names);
    err := None;
  }

  lemma RootIsNobodysChild(files: Files, dirs: Directories, top: string, rels: set<Relative>)
    requires NoneLeftEmpty(files, dirs, top, rels)
    ensures NoneLeftEmpty(files, dirs - {Path(top, [])}, top, rels)
  {
    forall a | a in rels && Path(top, a) in dirs - {Path(top, [])}
      ensures !IsEmpty(files, dirs - {Path(top, [])}, Path(top, a))
    {
      StillNotEmpty(files, dirs, Path(top, []), Path(top, a));
    }
  }

  /** The part of an uninstallation that may be interrupted: on an error the caller brings the files back. */
  method TryUninstall(
    fs: FileSystem, host: Host, t: Tops, verified: VerifiedReceipt, ledger: RecoveryIdentity,
    ghost v: Option<Version>, ghost snapshot: Snapshots)
    returns (err: Option<Error>, moved: seq<Relative>)
    requires fs.Valid() && ReadyToUninstall(host, fs.files, fs.dirs, t, v, verified, ledger.entries, snapshot)
    requires !ledger.guardActive && ledger.publishedTarget == t.target
    modifies fs, ledger`entries
    ensures fs.Valid() && fs.faults >= old(fs.faults) && moved <= Owned(verified.receipt)
    ensures PlacedOutsideBackup(t, old(fs.files), Elements(moved), {}, fs.files)
    ensures DirectoriesGone(t, old(fs.dirs), fs.dirs, Removable(Owned(verified.receipt)))
    ensures err.None? ==> moved == Owned(verified.receipt) && NothingIn(fs.files, fs.dirs, t.backup)
    ensures err.None? && fs.faults == old(fs.faults)
            && OnlyOwned(old(fs.files), old(fs.dirs), t.target, Owned(verified.receipt))
            ==> NothingIn(fs.files, fs.dirs, t.target)
    ensures err.None? && fs.faults == old(fs.faults) ==>
              NoneLeftEmpty(fs.files, fs.dirs, t.target, AncestorsOf(Paths(verified.receipt.files)))
    ensures err.Some? && err != Some(RecoveryRequired) ==>
              Exact(fs.files, fs.dirs, t.backup, ledger.entries) || Delicate(Owned(verified.receipt))
    ensures err.Some? ==> HasRoot(ledger.entries)
    ensures err.Some? && err != Some(RecoveryRequired) ==>
              && Recoverable(fs.files, fs.dirs, t.backup, ledger.entries, Elements(moved))
              && Quarantined(t, fs.files, Elements(moved), snapshot)
              && forall r | r in moved :: Lookup(fs.files, Path(t.backup, r)).Some?
    ensures err.Some? && fs.faults <= old(fs.faults) + 1 ==> err != Some(RecoveryRequired)
    ensures fs.faults == old(fs.faults) ==> err.None?
  {
    hide WellFormed, AllPlaced, Present, Exact, Capture, DirectoriesGone, Removable, OnlyOwned, Elements, WellShaped,
      SameOutside, NothingIn, Keepable, PlacedOutsideBackup, ParentsExpected, SmallFiles, Quarantined, NoDuplicates,
      Antichain, Movable, ContentAt, SameTree, NoneLeftEmpty, AncestorsOf, Delicate, Stuck;
    ghost var start, startDirs := fs.files, fs.dirs;
    ghost var names := Removable(Owned(verified.receipt));
    var owned := Owned(verified.receipt);
    OwnedIsSeparate(host, start, startDirs, t.target, verified.receipt);
    CapturedIsMovable(start, startDirs, t.target, Paths(verified.receipt.files), verified.ownership);
    OnlyRoot(start, startDirs, t.backup, ledger.entries);
    BackupStartsEmpty(start, startDirs, t.backup, ledger.entries);
    RootIsExpected(start, startDirs, t.target, verified.ownership);
    err, moved := MoveAside(fs, t, owned, verified.ownership, ledger);
    ghost var files, dirs := fs.files, fs.dirs;
    MovingLeavesDirectories(t, startDirs, dirs, names);
    BackupIsSmall(host, t, start, startDirs, v, verified.receipt, moved, {}, files);
    MovedAreQuarantined(t, start, moved, files, files, owned, snapshot);
    NothingRetired(t, files, dirs);
    OutsideQuarantine(t, start, startDirs, Elements(moved), files, files, dirs, dirs, names);
    if err.Some? {
      return;
    }
    assert Lookup(dirs, Path(t.target, [])) == Lookup(startDirs, Path(t.target, []));
    err := PruneTarget(fs, t, verified.receipt, verified.ownership[[]], start, startDirs);
    TreeStable(files, dirs, fs.files, fs.dirs, t.backup);
    SmallIsKeepable(fs.files, fs.dirs, t.backup, ledger.entries);
    dirs := fs.dirs;
    if err.Some? {
      return;
    }
    err := RetireOwnedRecovery(fs, t.backup, ledger);
    OutsideQuarantine(t, start, startDirs, Elements(moved), files, fs.files, dirs, fs.dirs, names);
    StillNothing(files, dirs, fs.files, fs.dirs, t.target);
    EmptinessStable(files, dirs, fs.files, fs.dirs, t.target, AncestorsOf(Paths(verified.receipt.files)));
    if err.Some? && err != Some(RecoveryRequired) {
      ExactMeansPresent(fs.files, fs.dirs, t.backup, ledger.entries);
      ExactIsClosed(fs.files, fs.dirs, t.backup, ledger.entries);
      SameTreeContents(files, dirs, fs.files, fs.dirs, t.backup);
      MovedAreQuarantined(t, start, moved, files, fs.files, owned, snapshot);
    }
  }

  lemma RootIsExpected(files: Files, dirs: Directories, top: string, expected: Identities)
    requires HasRoot(expected) && Present(files, dirs, top, expected)
    ensures IdentityAt(files, dirs, Path(top, [])) == Some(expected[[]])
  {}

  lemma StillNothing(files: Files, dirs: Directories, files': Files, dirs': Directories, top: string)
    requires forall r: Relative ::
               && Lookup(files', Path(top, r)) == Lookup(files, Path(top, r))
               && Lookup(dirs', Path(top, r)) == Lookup(dirs, Path(top, r))
    ensures NothingIn(files, dirs, top) ==> NothingIn(files', dirs', top)
  {
    if NothingIn(files, dirs, top) {
      forall r: Relative
        ensures !Exists(files', dirs', Path(top, r))
      {
        assert !Exists(files, dirs, Path(top, r));
      }
    }
  }

  /** Files of the target that the receipt does not own, and files elsewhere, are untouched. */
  ghost predicate ForeignKept(t: Tops, start: Files, owned: seq<Relative>, files: Files) {
    forall p: Path | p.top != t.backup && !(p.top == t.target && p.rel in owned) :: Lookup(files, p) == Lookup(start, p)
  }

  /** Outside the quarantine the files have the bytes and modes they started with. */
  ghost predicate AllReturned(t: Tops, start: Files, files: Files) {
    forall p: Path | p.top != t.backup :: ContentAt(files, p) == ContentAt(start, p)
  }

  lemma PlacedKeepsForeign(t: Tops, start: Files, owned: seq<Relative>, moved: seq<Relative>, files: Files)
    requires t.Distinct() && PlacedOutsideBackup(t, start, Elements(moved), {}, files) && moved <= owned
    ensures ForeignKept(t, start, owned, files)
    ensures moved == owned ==> forall r | r in owned :: Lookup(files, Path(t.target, r)).None?
  {
    forall p: Path | p.top != t.backup
      ensures Lookup(files, p) == Placed(t, start, Elements(moved), {}, p)
    {}
  }

  lemma ReturnKeepsForeign(
    t: Tops, start: Files, owned: seq<Relative>, moved: seq<Relative>, files: Files, files': Files, snapshot: Snapshots)
    requires t.Distinct() && PlacedOutsideBackup(t, start, Elements(moved), {}, files) && moved <= owned
    requires OnlyReturned(t, files, files', Elements(moved))
    requires forall r | r in owned :: r in snapshot && ContentAt(start, Path(t.target, r)) == Some(snapshot[r])
    ensures ForeignKept(t, start, owned, files')
    ensures (forall r | r in moved :: ContentAt(files', Path(t.target, r)) == Some(snapshot[r])) ==>
              AllReturned(t, start, files')
  {
    forall p: Path | p.top != t.backup && !(p.top == t.target && p.rel in moved)
      ensures Lookup(files', p) == Lookup(start, p)
    {
      assert Lookup(files, p) == Placed(t, start, Elements(moved), {}, p);
      assert p == Path(p.top, p.rel);
    }
    if forall r | r in moved :: ContentAt(files', Path(t.target, r)) == Some(snapshot[r]) {
      forall p: Path | p.top != t.backup
        ensures ContentAt(files', p) == ContentAt(start, p)
      {
        if p.top == t.target && p.rel in moved {
          assert p == Path(t.target, p.rel) && p.rel in owned;
        }
      }
    }
  }

  /** The paths set aside are free to take their files back. */
  lemma MovedCanReturn(
    t: Tops, start: Files, startDirs: Directories, owned: seq<Relative>, moved: seq<Relative>,
    files: Files, dirs: Directories, dirs': Directories, names: set<Relative>)
    requires t.Distinct() && WellFormed(start, startDirs) && moved <= owned
    requires PlacedOutsideBackup(t, start, Elements(moved), {}, files) && DirectoriesGone(t, startDirs, dirs, names)
    requires forall p | p != Path(t.target, []) :: Lookup(dirs', p) == Lookup(dirs, p)
    requires [] !in owned && forall r | r in owned :: Path(t.target, r) in start
    ensures AllOpen(files, dirs', t.target, moved)
  {
    forall r | r in moved
      ensures Open(files, dirs', t.target, r)
    {
      assert r in owned && Exists(start, startDirs, Path(t.target, r));
      FileIsNoDirectory(start, startDirs, Path(t.target, r));
      assert Lookup(files, Path(t.target, r)) == Placed(t, start, Elements(moved), {}, Path(t.target, r));
      assert Lookup(dirs, Path(t.target, r)).None?;
      forall i | 0 < i < |r|
        ensures Path(t.target, r[..i]) !in files
      {
        PrefixExists(start, startDirs, t.target, r, i);
        assert Lookup(files, Path(t.target, r[..i])) == Placed(t, start, Elements(moved), {}, Path(t.target, r[..i]));
      }
    }
  }

  /** Undoes an interrupted uninstallation. */
  method PutBack(
    fs: FileSystem, host: Host, t: Tops, verified: VerifiedReceipt, snapshot: Snapshots, moved: seq<Relative>,
    ledger: RecoveryIdentity, ghost v: Option<Version>, ghost start: Files, ghost startDirs: Directories)
    returns (failed: bool)
    requires fs.Valid() && t.Distinct() && WellFormed(start, startDirs) && HasRoot(ledger.entries)
    requires Verified(host, start, startDirs, t.target, v, verified.receipt) && moved <= Owned(verified.receipt)
    requires forall r | r in Owned(verified.receipt) ::
               r in snapshot && ContentAt(start, Path(t.target, r)) == Some(snapshot[r])
    requires PlacedOutsideBackup(t, start, Elements(moved), {}, fs.files)
    requires DirectoriesGone(t, startDirs, fs.dirs, Removable(Owned(verified.receipt)))
    modifies fs, ledger`entries
    ensures fs.Valid() && fs.faults >= old(fs.faults)
    ensures ForeignKept(t, start, Owned(verified.receipt), fs.files)
    ensures DirectoriesChanged(t, startDirs, fs.dirs, Removable(Owned(verified.receipt)))
    ensures !failed ==> NothingIn(fs.files, fs.dirs, t.backup)
    ensures !failed && old(Quarantined(t, fs.files, Elements(moved), snapshot)) ==> AllReturned(t, start, fs.files)
    ensures old(Recoverable(fs.files, fs.dirs, t.backup, ledger.entries, Elements(moved)))
            && old(Quarantined(t, fs.files, Elements(moved), snapshot))
            && old(forall r | r in moved :: Lookup(fs.files, Path(t.backup, r)).Some?)
            && fs.faults == old(fs.faults)
            ==> AllReturned(t, start, fs.files)
  {
    hide WellFormed, Present, Exact, DirectoriesGone, Removable, Elements, WellShaped, SameOutside, NothingIn, Keepable,
      PlacedOutsideBackup, ParentsExpected, SmallFiles, Quarantined, NoDuplicates, Antichain, ContentAt, OnlyReturned,
      ForeignKept, AllReturned, AllOpen, Recoverable, AncestorsOf, GrownAmong, DirectoriesChanged;
    ghost var files, dirs := fs.files, fs.dirs;
    OwnedIsSeparate(host, start, startDirs, t.target, verified.receipt);
    PrefixAntichain(Owned(verified.receipt), moved);
    failed := false;
    if !Exists(fs.files, fs.dirs, Path(t.target, [])) {
      var made := fs.Mkdir(Path(t.target, []));
      failed := !made;
    }
    TargetIsNoFile(t, start, startDirs, moved, files);
    MovedCanReturn(
      t, start, startDirs, Owned(verified.receipt), moved, files, dirs, fs.dirs, Removable(Owned(verified.receipt)));
    RecoverableStable(files, dirs, files, fs.dirs, t.backup, ledger.entries, Elements(moved));
    ghost var remade := fs.dirs;
    var ok := ReturnAll(fs, t, moved, snapshot, ledger);
    DirectoriesAfterReturn(t, startDirs, dirs, remade, fs.dirs, Owned(verified.receipt), moved);
    ReturnKeepsForeign(t, start, Owned(verified.receipt), moved, files, fs.files, snapshot);
    failed := failed || !ok;
    files, dirs := fs.files, fs.dirs;
    var err := RetireOwnedRecovery(fs, t.backup, ledger);
    RetiredOutside(t, start, startDirs, Owned(verified.receipt), files, dirs, fs.files, fs.dirs);
    failed := failed || err.Some?;
  }

  lemma TargetIsNoFile(t: Tops, start: Files, startDirs: Directories, moved: seq<Relative>, files: Files)
    requires t.Distinct() && PlacedOutsideBackup(t, start, Elements(moved), {}, files)
    requires WellFormed(start, startDirs) && Path(t.target, []) in startDirs
    ensures Lookup(files, Path(t.target, [])).None?
  {
    assert Lookup(files, Path(t.target, [])) == Placed(t, start, Elements(moved), {}, Path(t.target, []));
  }

  lemma DirectoriesAfterReturn(
    t: Tops, startDirs: Directories, dirs: Directories, remade: Directories, dirs': Directories,
    owned: seq<Relative>, moved: seq<Relative>)
    requires t.Distinct() && moved <= owned && DirectoriesGone(t, startDirs, dirs, Removable(owned))
    requires forall p | p != Path(t.target, []) :: Lookup(remade, p) == Lookup(dirs, p)
    requires GrownAmong(remade, dirs', t.target, AncestorsOf(moved))
    ensures DirectoriesChanged(t, startDirs, dirs', Removable(owned))
  {
    forall a | a in AncestorsOf(moved)
      ensures a in Removable(owned)
    {
      AncestorsOfMember(moved, a);
      AncestorsOfMember(owned, a);
    }
    forall p: Path | p.top != t.backup && !(p.top == t.target && p.rel in Removable(owned))
      ensures Lookup(dirs', p) == Lookup(startDirs, p)
    {
      assert Lookup(dirs, p) == Lookup(startDirs, p) && Lookup(remade, p) == Lookup(dirs, p);
    }
  }

  lemma RetiredOutside(
    t: Tops, start: Files, startDirs: Directories, owned: seq<Relative>,
    files: Files, dirs: Directories, files': Files, dirs': Directories)
    requires SameOutside(t.backup, files, dirs, files', dirs')
    ensures DirectoriesChanged(t, startDirs, dirs, Removable(owned)) ==>
              DirectoriesChanged(t, startDirs, dirs', Removable(owned))
    ensures ForeignKept(t, start, owned, files) ==> ForeignKept(t, start, owned, files')
    ensures AllReturned(t, start, files) ==> AllReturned(t, start, files')
  {
    hide Removable;
    forall p: Path | p.top != t.backup
      ensures Lookup(files', p) == Lookup(files, p) && Lookup(dirs', p) == Lookup(dirs, p)
    {}
  }

  lemma GoneIsChanged(t: Tops, dirs: Directories, dirs': Directories, names: set<Relative>)
    requires DirectoriesGone(t, dirs, dirs', names)
    ensures DirectoriesChanged(t, dirs, dirs', names)
  {}

  lemma UntouchedSoFar(t: Tops, files: Files, dirs: Directories)
    ensures forall owned :: ForeignKept(t, files, owned, files)
    ensures AllReturned(t, files, files)
    ensures forall names :: DirectoriesChanged(t, dirs, dirs, names)
  {}

  lemma QuarantineMade(
    host: Host, files: Files, dirs: Directories, t: Tops, root: Directory, v: Option<Version>, verified: VerifiedReceipt,
    snapshot: Snapshots)
    requires t.Distinct() && WellFormed(files, dirs[Path(t.backup, []) := root]) && NothingIn(files, dirs, t.backup)
    requires Verified(host, files, dirs, t.target, v, verified.receipt)
    requires Capture(files, dirs, t.target, Paths(verified.receipt.files)) == Some(verified.ownership)
    requires forall r | r in Owned(verified.receipt) ::
               r in snapshot && ContentAt(files, Path(t.target, r)) == Some(snapshot[r])
    ensures ReadyToUninstall(host, files, dirs[Path(t.backup, []) := root], t, v, verified,
                             map[[] := DirectoryIdentityOf(root)], snapshot)
    ensures forall names, dirs' :: DirectoriesChanged(t, dirs[Path(t.backup, []) := root], dirs', names) ==>
              DirectoriesChanged(t, dirs, dirs', names)
    ensures forall owned :: OnlyOwned(files, dirs, t.target, owned) ==>
              OnlyOwned(files, dirs[Path(t.backup, []) := root], t.target, owned)
  {
    var dirs' := dirs[Path(t.backup, []) := root];
    forall r: Relative
      ensures Lookup(dirs', Path(t.target, r)) == Lookup(dirs, Path(t.target, r))
      ensures IdentityAt(files, dirs', Path(t.backup, r)) == Lookup(map[[] := DirectoryIdentityOf(root)], r)
    {
      assert !Exists(files, dirs, Path(t.backup, r));
    }
    CaptureStable(files, dirs, files, dirs', t.target, Paths(verified.receipt.files));
    forall p: Path | p.top != t.backup
      ensures Lookup(dirs', p) == Lookup(dirs, p)
    {}
  }

  /**
    Removes the owned files, or puts every one of them back. Without a failing call the
    removal succeeds exactly when the installation is intact and no quarantine is left over,
    and then takes the target away, too, if it holds nothing else. One failing call never
    costs a file.
   */
  method UninstallOwned(fs: FileSystem, host: Host, target: string, quarantine: string, v: Option<Version>)
    returns (err: Option<Error>, ghost owned: seq<Relative>)
    requires fs.Valid() && target != quarantine
    modifies fs
    ensures fs.Valid() && fs.faults >= old(fs.faults)
    ensures var t := Trees(target, quarantine);
            && ForeignKept(t, old(fs.files), owned, fs.files)
            && DirectoriesChanged(t, old(fs.dirs), fs.dirs, Removable(owned))
    ensures forall receipt :: old(Verified(host, fs.files, fs.dirs, target, v, receipt)) ==> owned == Owned(receipt)
    ensures err.None? ==>
              && (exists receipt :: old(Verified(host, fs.files, fs.dirs, target, v, receipt)))
              && (forall r | r in owned :: Lookup(fs.files, Path(target, r)).None?)
              && NothingIn(fs.files, fs.dirs, quarantine)
    ensures err.Some? && err != Some(RecoveryRequired) ==>
              && AllReturned(Trees(target, quarantine), old(fs.files), fs.files)
              && (old(NothingIn(fs.files, fs.dirs, quarantine)) ==> NothingIn(fs.files, fs.dirs, quarantine))
    ensures fs.faults == old(fs.faults) ==>
              (err.None? <==> && (exists receipt :: old(Verified(host, fs.files, fs.dirs, target, v, receipt)))
                              && old(NothingIn(fs.files, fs.dirs, quarantine)))
    ensures fs.faults == old(fs.faults) && err.None? && OnlyOwned(old(fs.files), old(fs.dirs), target, owned) ==>
              NothingIn(fs.files, fs.dirs, target)
    ensures fs.faults == old(fs.faults) && err.None? ==>
              NoneLeftEmpty(fs.files, fs.dirs, target, AncestorsOf(owned))
    ensures old(NothingIn(fs.files, fs.dirs, quarantine)) && err.Some? && fs.faults <= old(fs.faults) + 1 ==>
              AllReturned(Trees(target, quarantine), old(fs.files), fs.files)
  {
    hide WellFormed, Capture, WellShaped, DirectoriesGone, Removable, OnlyOwned, Elements, NothingIn, PlacedOutsideBackup,
      Quarantined, ForeignKept, AllReturned, DirectoriesChanged, Recoverable, Snapshotable, Verified, NoneLeftEmpty, AncestorsOf;
    var t := Trees(target, quarantine);
    ghost var files, dirs := fs.files, fs.dirs;
    UntouchedSoFar(t, files, dirs);
    owned := [];
    var result := Verify(fs, host, target, v);
    if result.Failure? {
      return Some(result.error), owned;
    }
    var verified := result.value;
    owned := Owned(verified.receipt);
    ReceiptHasNoAncestors(verified.receipt);
    OneReceipt(host, files, dirs, target, v, verified.receipt);
    OwnedIsSnapshotable(host, files, dirs, target, v, verified.receipt, verified.ownership);
    var ok, snapshot := SnapshotOwnedFiles(fs, target, Owned(verified.receipt), verified.ownership);
    if !ok {
      return Some(PluginDrift), owned;
    }
    if Exists(fs.files, fs.dirs, Path(quarantine, [])) {
      RootIsSomething(fs.files, fs.dirs, quarantine);
      return Some(RecoveryRequired), owned;
    }
    NoRootNoTree(fs.files, fs.dirs, quarantine);
    ok := fs.Mkdir(Path(quarantine, []));
    if !ok {
      return Some(OsError), owned;
    }
    ghost var startDirs := fs.dirs;
    QuarantineMade(host, files, dirs, t, fs.dirs[Path(quarantine, [])], v, verified, snapshot);
    var ledger := new RecoveryIdentity(DirectoryIdentityOf(fs.dirs[Path(quarantine, [])]), target, []);
    var moved;
    err, moved := TryUninstall(fs, host, t, verified, ledger, v, snapshot);
    if err.None? {
      PlacedKeepsForeign(t, files, owned, moved, fs.files);
      GoneIsChanged(t, startDirs, fs.dirs, Removable(owned));
      return;
    }
    var failed := PutBack(fs, host, t, verified, snapshot, moved, ledger, v, files, startDirs);
    if failed {
      err := Some(RecoveryRequired);
    } else if err == Some(OsError) {
      err := Some(UninstallFailed);
    }
  }

  lemma OneReceipt(host: Host, files: Files, dirs: Directories, top: string, v: Option<Version>, receipt: Receipt)
    requires Verified(host, files, dirs, top, v, receipt)
    ensures forall other :: Verified(host, files, dirs, top, v, other) ==> other == receipt
  {}
}
