/** Upgrading a verified installation in place. */
module Replacement {
  import opened Wrappers
  import opened FileSystems
  import opened Ownership
  import opened Receipts
  import opened Recovery
  import opened Upgrade
  import opened Rollback

  lemma NoRootNoTree(files: Files, dirs: Directories, top: string)
    requires WellFormed(files, dirs) && !Exists(files, dirs, Path(top, []))
    ensures NothingIn(files, dirs, top)
  {
    forall r: Relative
      ensures !Exists(files, dirs, Path(top, r))
    {
      assert r[..0] == [];
      if Exists(files, dirs, Path(top, r)) {
        PrefixExists(files, dirs, top, r, 0);
      }
    }
  }

  /** previous is what a verification of the target returns, and no earlier run left a backup. */
  ghost predicate Upgradable(
    host: Host, files: Files, dirs: Directories, t: Tops, previous: VerifiedReceipt)
  {
    && Verified(host, files, dirs, t.target, Some(previous.receipt.version), previous.receipt)
    && Capture(files, dirs, t.target, Paths(previous.receipt.files)) == Some(previous.ownership)
    && NothingIn(files, dirs, t.backup)
  }

  lemma BackupMade(
    host: Host, files: Files, dirs: Directories, t: Tops, root: Directory, previous: VerifiedReceipt, next: Receipt)
    requires t.Distinct() && FaithfulCodec(host) && Upgradable(host, files, dirs, t, previous)
    requires Holds(host, files, t.stage, next)
    ensures Prepared(host, files, dirs[Path(t.backup, []) := root], t, previous, next,
                     map[[] := DirectoryIdentityOf(root)])
    ensures Installable(host, files, dirs, t, Owned(previous.receipt), next)
            <==> Installable(host, files, dirs[Path(t.backup, []) := root], t, Owned(previous.receipt), next)
  {
    var dirs' := dirs[Path(t.backup, []) := root];
    forall r: Relative
      ensures Lookup(dirs', Path(t.target, r)) == Lookup(dirs, Path(t.target, r))
      ensures IdentityAt(files, dirs', Path(t.backup, r)) == Lookup(map[[] := DirectoryIdentityOf(root)], r)
    {
      assert !Exists(files, dirs, Path(t.backup, r));
    }
    CaptureStable(files, dirs, files, dirs', t.target, Paths(previous.receipt.files));
    SameFree(files, dirs, dirs', t.target, Elements(Owned(previous.receipt)), Owned(next));
  }

  lemma OwnedIsSnapshotable(
    host: Host, files: Files, dirs: Directories, top: string, v: Option<Version>, receipt: Receipt, expected: Identities)
    requires WellFormed(files, dirs) && Verified(host, files, dirs, top, v, receipt)
    requires Capture(files, dirs, top, Paths(receipt.files)) == Some(expected)
    ensures forall r | r in Owned(receipt) :: Snapshotable(files, dirs, top, r, expected)
  {
    OwnedIsSeparate(host, files, dirs, top, receipt);
    CapturedIsMovable(files, dirs, top, Paths(receipt.files), expected);
    forall r | r in Owned(receipt)
      ensures Snapshotable(files, dirs, top, r, expected)
    {
      OwnedIsSmall(host, files, dirs, top, v, receipt, r);
    }
  }

  lemma NothingDone(t: Tops, files: Files, dirs: Directories, owned: seq<Relative>, upcoming: seq<Relative>)
    ensures OthersKept(t, files, owned, upcoming, files) && ContentsRestored(t, files, files)
    ensures DirectoriesChanged(t, dirs, dirs, Parents(owned, upcoming))
  {}

  lemma PreparedIsBegun(
    host: Host, files: Files, dirs: Directories, t: Tops, previous: VerifiedReceipt, next: Receipt,
    entries: Identities, snapshot: Snapshots)
    requires WellFormed(files, dirs) && Prepared(host, files, dirs, t, previous, next, entries)
    requires forall r | r in Owned(previous.receipt) ::
               r in snapshot && ContentAt(files, Path(t.target, r)) == Some(snapshot[r])
    ensures Began(host, files, dirs, t, previous, next, snapshot)
  {}

  lemma BackupAside(t: Tops, dirs: Directories, root: Directory, dirs': Directories, names: set<Relative>)
    requires t.Distinct() && DirectoriesChanged(t, dirs[Path(t.backup, []) := root], dirs', names)
    ensures DirectoriesChanged(t, dirs, dirs', names)
  {
    forall p: Path | p.top != t.backup
      ensures Lookup(dirs[Path(t.backup, []) := root], p) == Lookup(dirs, p)
    {}
  }

  lemma UpgradedVerifies(
    host: Host, t: Tops, start: Files, startDirs: Directories, owned: seq<Relative>, next: Receipt,
    files: Files, dirs: Directories)
    requires t.Distinct() && FaithfulCodec(host) && Holds(host, start, t.stage, next)
    requires Upgraded(t, start, owned, Owned(next), files) && Path(t.target, []) in dirs
    requires |host.encode(next)| <= MAX_RECEIPT_BYTES
    ensures Verified(host, files, dirs, t.target, Some(host.version), next)
  {
    forall e | e in next.files
      ensures EntryMatches(host, files, t.target, e)
    {
      PathOfEntry(next.files, e);
      assert e.path in Owned(next);
    }
    assert RECEIPT in Owned(next);
    HeldVerifies(host, files, dirs, t.target, next);
  }

  /**
    Replaces the installed version by the staged one, or leaves the old one in place.
    An error other than RecoveryRequired means that nothing but directories and file times
    has changed. Without a failing call the upgrade succeeds exactly when it is installable,
    and one failing call never costs the old files of an installable upgrade. That one call can
    lead to RecoveryRequired only if the old files are delicate; and it does if it is the making
    of a second directory above the first file that is moved aside.
   */
  method ReplaceOwnedInstall(fs: FileSystem, host: Host, t: Tops, previous: VerifiedReceipt, next: Receipt)
    returns (err: Option<Error>)
    requires fs.Valid() && t.Distinct() && FaithfulCodec(host) && Holds(host, fs.files, t.stage, next)
    modifies fs
    ensures fs.Valid() && fs.faults >= old(fs.faults)
    ensures OthersKept(t, old(fs.files), Owned(previous.receipt), Owned(next), fs.files)
    ensures DirectoriesChanged(t, old(fs.dirs), fs.dirs, Parents(Owned(previous.receipt), Owned(next)))
    ensures err.None? ==>
              && Upgraded(t, old(fs.files), Owned(previous.receipt), Owned(next), fs.files)
              && Verified(host, fs.files, fs.dirs, t.target, Some(host.version), next)
              && NothingIn(fs.files, fs.dirs, t.backup)
    ensures err.Some? && err != Some(RecoveryRequired) ==>
              && ContentsRestored(t, old(fs.files), fs.files)
              && (old(NothingIn(fs.files, fs.dirs, t.backup)) ==> NothingIn(fs.files, fs.dirs, t.backup))
    ensures old(Upgradable(host, fs.files, fs.dirs, t, previous)) && fs.faults == old(fs.faults) ==>
              && err != Some(RecoveryRequired)
              && (err.None? <==> old(Installable(host, fs.files, fs.dirs, t, Owned(previous.receipt), next)))
    ensures old(Upgradable(host, fs.files, fs.dirs, t, previous)
                && Installable(host, fs.files, fs.dirs, t, Owned(previous.receipt), next))
            && err.Some? && fs.faults <= old(fs.faults) + 1
            ==> ContentsRestored(t, old(fs.files), fs.files)
    ensures err.None? && fs.faults == old(fs.faults) ==>
              NoneLeftEmpty(fs.files, fs.dirs, t.target, AncestorsOf(Paths(previous.receipt.files)))
    ensures old(Upgradable(host, fs.files, fs.dirs, t, previous)
                && Installable(host, fs.files, fs.dirs, t, Owned(previous.receipt), next))
            && err == Some(RecoveryRequired) && fs.faults <= old(fs.faults) + 1
            ==> Delicate(Owned(previous.receipt))
    ensures old(Upgradable(host, fs.files, fs.dirs, t, previous))
            && fs.mkdirs(Path(t.backup, [])) == Always && Stuck(fs.mkdirs, t.backup, Owned(previous.receipt)[0])
            ==> && fs.faults > old(fs.faults)
                && (fs.faults == old(fs.faults) + 1 ==>
                      err == Some(RecoveryRequired) && ContentsRestored(t, old(fs.files), fs.files))
  {
    hide WellFormed, Holds, Capture, OthersKept, DirectoriesChanged, Upgraded, NothingIn, ContentsRestored, Installable,
      Prepared, Began, Parents, Elements, PlacedOutsideBackup, PathsTo, AllFree, Present, Exact, SmallFiles, Snapshotable,
      ParentsExpected, FaithfulCodec, Stuck, Delicate, NoneLeftEmpty, AncestorsOf;
    ghost var files, dirs := fs.files, fs.dirs;
    ghost var owned, upcoming := Owned(previous.receipt), Owned(next);
    NothingDone(t, files, dirs, owned, upcoming);
    var recaptured := Verify(fs, host, t.target, Some(previous.receipt.version));
    if recaptured.Failure? {
      return Some(recaptured.error);
    }
    if recaptured.value != previous {
      return Some(PluginDrift);
    }
    if Exists(fs.files, fs.dirs, Path(t.backup, [])) {
      RootIsSomething(fs.files, fs.dirs, t.backup);
      return Some(RecoveryRequired);
    }
    NoRootNoTree(fs.files, fs.dirs, t.backup);
    var ok := fs.Mkdir(Path(t.backup, []));
    if !ok {
      return Some(OsError);
    }
    BackupMade(host, files, dirs, t, fs.dirs[Path(t.backup, [])], previous, next);
    ghost var startDirs := fs.dirs;
    OwnedIsSnapshotable(
      host, fs.files, fs.dirs, t.target, Some(previous.receipt.version), previous.receipt, previous.ownership);
    var snapshot: Snapshots;
    ok, snapshot := SnapshotOwnedFiles(fs, t.target, Owned(previous.receipt), previous.ownership);
    if !ok {
      return Some(PluginDrift);
    }
    var ledger := new RecoveryIdentity(
      DirectoryIdentityOf(fs.dirs[Path(t.backup, [])]), t.target, Paths(next.files));
    PreparedIsBegun(host, files, startDirs, t, previous, next, ledger.entries, snapshot);
    var moved, installed, ownership;
    err, moved, installed, ownership := TryReplace(fs, host, t, previous, next, ledger);
    BackupAside(t, dirs, startDirs[Path(t.backup, [])], fs.dirs, Parents(owned, upcoming));
    if err.None? {
      PlacedKeepsOthers(t, files, owned, upcoming, moved, installed, fs.files);
      PlacedIsUpgraded(t, files, owned, upcoming, fs.files);
      TargetStays(t, dirs, fs.dirs, owned, upcoming);
      assert Lookup(dirs, Path(t.target, [])).Some?;
      InstallableFits(host, files, startDirs, t, owned, next);
      UpgradedVerifies(host, t, files, dirs, owned, next, fs.files, fs.dirs);
      return;
    }
    var failed := RollBack(fs, host, t, previous, next, snapshot, moved, installed, ownership, ledger, files, startDirs);
    BackupAside(t, dirs, startDirs[Path(t.backup, [])], fs.dirs, Parents(owned, upcoming));
    if failed {
      err := Some(RecoveryRequired);
    }
  }

  lemma RootIsSomething(files: Files, dirs: Directories, top: string)
    requires Exists(files, dirs, Path(top, []))
    ensures !NothingIn(files, dirs, top)
  {}

  lemma InstallableFits(
    host: Host, start: Files, dirs: Directories, t: Tops, owned: seq<Relative>, next: Receipt)
    requires Installable(host, start, dirs, t, owned, next)
    ensures |host.encode(next)| <= MAX_RECEIPT_BYTES
  {}
}
