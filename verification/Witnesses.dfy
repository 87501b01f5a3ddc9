/** Installations in which an upgrade goes wrong, one by one. */
module Witnesses {
  import opened Wrappers
  import opened FileSystems
  import opened Ownership
  import opened Receipts
  import opened Recovery
  import opened Upgrade
  import opened Rollback
  import opened Replacement

  const TREES := Tops("target", "stage", "backup")

  /** The receipt of an installation that consists of one file. */
  function OneFile(host: Host, rel: Relative, data: Bytes): Receipt {
    Receipt(1, PRODUCT, host.version, host.platform, [Entry(rel, host.digest(data), |data|)])
  }

  /** One file is installed, another staged; each tree has its receipt. */
  function FilesOf(host: Host, prior: Relative, upcoming: Relative, data: Bytes): Files {
    map[Path("target", prior) := File(1, 0, 0, data),
        Path("target", RECEIPT) := File(2, 0, 0, host.encode(OneFile(host, prior, data))),
        Path("stage", upcoming) := File(3, 0, 0, data),
        Path("stage", RECEIPT) := File(4, 0, 0, host.encode(OneFile(host, upcoming, data)))]
  }

  /** Whether the host is one to which these examples apply: lower-case names are themselves, and the receipts are short. */
  ghost predicate Usual(host: Host, prior: Relative, upcoming: Relative, data: Bytes) {
    && FaithfulCodec(host) && FoldsPlainly(host) && |data| <= MAX_ARCHIVE_BYTES
    && |host.encode(OneFile(host, prior, data))| <= MAX_RECEIPT_BYTES
    && |host.encode(OneFile(host, upcoming, data))| <= MAX_RECEIPT_BYTES
  }

  /** A path of at most three names that consist of one letter each. */
  predicate Short(rel: Relative) {
    1 <= |rel| <= 3 && forall part | part in rel :: |part| == 1 && 'a' <= part[0] <= 'z'
  }

  lemma ShortIsPortable(host: Host, rel: Relative)
    requires FoldsPlainly(host) && Short(rel)
    ensures Portable(host, rel) && Folded(host, rel) != Folded(host, RECEIPT)
  {
    hide PortableComponent, FoldsPlainly;
    LengthOfShort(rel);
    forall part | part in rel
      ensures PortableComponent(host, part) && host.fold(part) == part
    {
      LetterIsPortable(host, part);
    }
    ReceiptIsNoLetter(host);
    if |rel| == 1 {
      assert Folded(host, rel)[0] == host.fold(rel[0]) == rel[0];
      assert Folded(host, RECEIPT)[0] == RECEIPT[0];
    }
  }

  lemma ReceiptIsNoLetter(host: Host)
    requires FoldsPlainly(host)
    ensures |RECEIPT| == 1 && |RECEIPT[0]| > 1 && host.fold(RECEIPT[0]) == RECEIPT[0]
  {
    assert Plain(RECEIPT[0]);
  }

  lemma LetterIsPortable(host: Host, part: string)
    requires FoldsPlainly(host) && |part| == 1 && 'a' <= part[0] <= 'z'
    ensures PortableComponent(host, part) && host.fold(part) == part
  {
    assert Plain(part);
    assert Stem(part) == [part[0]] + Stem(part[1..]) && Stem(part[1..]) == [];
    PortableName(host, part);
  }

  lemma {:induction false} LengthOfShort(rel: Relative)
    requires |rel| <= 3 && forall part | part in rel :: |part| == 1
    ensures Length(rel) == 2 * |rel|
    decreases |rel|
  {
    if rel != [] {
      assert rel[0] in rel && forall part | part in rel[1..] :: part in rel;
      LengthOfShort(rel[1..]);
    }
  }

  /** The staged file and its receipt are complete, and so is the installed file with its receipt. */
  lemma OneFileHolds(host: Host, files: Files, top: string, rel: Relative, data: Bytes)
    requires FoldsPlainly(host) && Short(rel) && |data| <= MAX_ARCHIVE_BYTES
    requires Lookup(files, Path(top, rel)).Some? && files[Path(top, rel)].data == data
    requires Lookup(files, Path(top, RECEIPT)).Some? && files[Path(top, RECEIPT)].data == host.encode(OneFile(host, rel, data))
    ensures Holds(host, files, top, OneFile(host, rel, data))
  {
    hide Portable, Folded, FoldsPlainly, Short;
    ShortIsPortable(host, rel);
    var receipt := OneFile(host, rel, data);
    assert Paths(receipt.files) == [rel];
  }

  lemma OneFileVerifies(host: Host, files: Files, dirs: Directories, top: string, rel: Relative, data: Bytes)
    requires FaithfulCodec(host) && Holds(host, files, top, OneFile(host, rel, data)) && Path(top, []) in dirs
    requires |host.encode(OneFile(host, rel, data))| <= MAX_RECEIPT_BYTES
    ensures Verified(host, files, dirs, top, Some(host.version), OneFile(host, rel, data))
  {
    HeldVerifies(host, files, dirs, top, OneFile(host, rel, data));
  }

  /** The directories above the two files. */
  ghost predicate Around(dirs: Directories, prior: Relative, upcoming: Relative) {
    && (forall p: Path :: p in dirs ==>
          || (p.top == "target" && p.rel < prior)
          || (p.top == "stage" && p.rel < upcoming))
    && (forall k | 0 <= k < |prior| :: Path("target", prior[..k]) in dirs)
    && (forall k | 0 <= k < |upcoming| :: Path("stage", upcoming[..k]) in dirs)
  }

  lemma FilesHaveParents(host: Host, dirs: Directories, prior: Relative, upcoming: Relative, data: Bytes, p: Path)
    requires Around(dirs, prior, upcoming) && Short(prior) && Short(upcoming) && p in FilesOf(host, prior, upcoming, data)
    ensures HasParent(dirs, p) && p !in dirs && p.top != "backup"
  {
    var rel := if p.top == "target" then prior else upcoming;
    assert rel[..0] == [];
    if p.rel == RECEIPT {
      assert RECEIPT[..0] == [] && |RECEIPT[0]| > 1;
      assert rel[0] in rel;
    } else {
      assert p.rel == rel;
    }
  }

  lemma DirectoriesHaveParents(dirs: Directories, prior: Relative, upcoming: Relative, p: Path)
    requires Around(dirs, prior, upcoming) && p in dirs
    ensures HasParent(dirs, p)
  {
    var rel := if p.top == "target" then prior else upcoming;
    if p.rel != [] {
      assert p.rel[..|p.rel| - 1] == rel[..|p.rel| - 1];
    }
  }

  lemma AroundIsWellFormed(host: Host, dirs: Directories, prior: Relative, upcoming: Relative, data: Bytes)
    requires Around(dirs, prior, upcoming) && Short(prior) && Short(upcoming)
    ensures WellFormed(FilesOf(host, prior, upcoming, data), dirs)
    ensures NothingIn(FilesOf(host, prior, upcoming, data), dirs, "backup")
  {
    hide FilesOf, HasParent;
    var files := FilesOf(host, prior, upcoming, data);
    forall p | p in files
      ensures HasParent(dirs, p) && p !in dirs && p.top != "backup"
    {
      FilesHaveParents(host, dirs, prior, upcoming, data, p);
    }
    forall p | p in dirs
      ensures HasParent(dirs, p)
    {
      DirectoriesHaveParents(dirs, prior, upcoming, p);
    }
  }

  lemma UsualIsFaithful(host: Host, rel: Relative, data: Bytes)
    requires Usual(host, rel, rel, data)
    ensures FaithfulCodec(host)
  {}

  /** The installed version verifies, the staged one is complete, and there is no backup: the upgrade may begin. */
  lemma MayBegin(host: Host, dirs: Directories, prior: Relative, upcoming: Relative, data: Bytes)
    returns (previous: VerifiedReceipt)
    requires Usual(host, prior, upcoming, data) && Around(dirs, prior, upcoming) && Short(prior) && Short(upcoming)
    ensures previous.receipt == OneFile(host, prior, data)
    ensures var files := FilesOf(host, prior, upcoming, data);
            && WellFormed(files, dirs) && Upgradable(host, files, dirs, TREES, previous)
            && Holds(host, files, "stage", OneFile(host, upcoming, data))
  {
    var files := FilesOf(host, prior, upcoming, data);
    AroundIsWellFormed(host, dirs, prior, upcoming, data);
    hide WellFormed, Holds, Verified, NothingIn, Capture;
    assert prior != RECEIPT && upcoming != RECEIPT;
    OneFileHolds(host, files, "target", prior, data);
    OneFileHolds(host, files, "stage", upcoming, data);
    assert prior[..0] == [];
    OneFileVerifies(host, files, dirs, "target", prior, data);
    assert Paths(OneFile(host, prior, data).files) == [prior];
    OwnedKeysExist(files, dirs, "target", [prior]);
    previous := VerifiedReceipt(OneFile(host, prior, data), Capture(files, dirs, "target", [prior]).value);
  }

  /**
    An upgrade that is not installable, although both versions verify: the new one has a file
    where the old one has a directory of its own.
   */
  lemma FileInPlaceOfDirectory(host: Host, dirs: Directories, data: Bytes) returns (previous: VerifiedReceipt)
    requires Usual(host, ["a", "b"], ["a"], data) && Around(dirs, ["a", "b"], ["a"])
    ensures var files, next := FilesOf(host, ["a", "b"], ["a"], data), OneFile(host, ["a"], data);
            && Upgradable(host, files, dirs, TREES, previous)
            && Verified(host, files, dirs, "stage", Some(host.version), next)
            && !Installable(host, files, dirs, TREES, Owned(previous.receipt), next)
  {
    var prior, upcoming: Relative := ["a", "b"], ["a"];
    previous := MayBegin(host, dirs, prior, upcoming, data);
    var files, next := FilesOf(host, prior, upcoming, data), OneFile(host, upcoming, data);
    hide WellFormed, Holds, Verified, NothingIn, Capture, Upgradable;
    assert upcoming[..0] == [];
    OneFileVerifies(host, files, dirs, "stage", upcoming, data);
    assert Owned(next)[0] == upcoming && prior[..1] == upcoming;
    assert !Free(files, dirs, "target", Elements(Owned(previous.receipt)), upcoming);
  }

  /**
    One failing call that does no harm, and yet ends in RecoveryRequired: it is the making of a
    second directory in the backup. All files are in place.
   */
  method SecondDirectoryFails(host: Host, dirs: Directories, data: Bytes)
    returns (err: Option<Error>, fs: FileSystem)
    requires Usual(host, ["a", "b", "c"], ["a", "b", "c"], data) && Around(dirs, ["a", "b", "c"], ["a", "b", "c"])
    ensures fs.faults >= 1
    ensures fs.faults == 1 ==>
              && err == Some(RecoveryRequired)
              && ContentsRestored(TREES, FilesOf(host, ["a", "b", "c"], ["a", "b", "c"], data), fs.files)
  {
    hide Usual, Around, WellFormed, Holds, Verified, NothingIn, FilesOf, ContentsRestored, OthersKept, Upgraded, Installable,
      DirectoriesChanged, Delicate, NoneLeftEmpty, FaithfulCodec, Capture, WellShaped, EntryMatches;
    var rel: Relative := ["a", "b", "c"];
    UsualIsFaithful(host, rel, data);
    ghost var upgradable := MayBegin(host, dirs, rel, rel, data);
    AroundIsWellFormed(host, dirs, rel, rel, data);
    var files := FilesOf(host, rel, rel, data);
    fs := new FileSystem(files, dirs, p => if p == Path("backup", ["a", "b"]) then Never else Always);
    var captured := Capture(files, dirs, "target", [rel]);
    assert Paths(OneFile(host, rel, data).files) == [rel];
    assert Owned(upgradable.receipt)[0] == rel && rel[..1] == ["a"] && rel[..2] == ["a", "b"];
    assert Blocked(fs.mkdirs, "backup", rel, 1);
    err := ReplaceOwnedInstall(
      fs, host, TREES, VerifiedReceipt(OneFile(host, rel, data), captured.value), OneFile(host, rel, data));
  }
}
