/** Receipts, and the verification of an installation against its receipt. */
module Receipts {
  import opened Wrappers
  import opened FileSystems
  import opened Ownership

  const MAX_MEMBERS := 128
  const MAX_RECEIPT_BYTES := 65536
  const PRODUCT := "dcc-mcp-obs"

  datatype Version = Version(major: nat, minor: nat, patch: nat)

  datatype Entry = Entry(path: Relative, digest: string, size: nat)

  datatype Receipt = Receipt(
    schemaVersion: int, product: string, version: Version, platform: string, files: seq<Entry>)

  /**
    What the installer takes from its surroundings: the JSON codec (parse also rejects a
    receipt whose fields have the wrong type), SHA-256, Unicode case folding of one path
    component, and the adapter's own version and platform.
   */
  datatype Host = Host(
    parse: Bytes -> Option<Receipt>,
    encode: Receipt -> Bytes,
    digest: Bytes -> string,
    fold: string -> string,
    version: Version,
    platform: string)

  datatype VerifiedReceipt = VerifiedReceipt(receipt: Receipt, ownership: Identities)

  predicate ReservedName(stem: string) {
    || stem in {"con", "prn", "aux", "nul", "clock$", "conin$", "conout$"}
    || (|stem| == 4 && stem[..3] in {"com", "lpt"} && '1' <= stem[3] <= '9')
  }

  function Stem(part: string): string {
    if part == [] || part[0] == '.' then [] else [part[0]] + Stem(part[1..])
  }

  predicate PortableComponent(host: Host, part: string) {
    && 1 <= |part| <= 255 && part != "." && part != ".."
    && (forall ch | ch in part :: ch >= ' ' && ch != 127 as char && ch !in "\\/:")
    && part[|part| - 1] !in ". "
    && !ReservedName(host.fold(Stem(part)))
  }

  /** Names that case folding leaves as they are. */
  predicate Plain(part: string) {
    forall ch | ch in part :: ch == '.' || ch == '-' || 'a' <= ch <= 'z'
  }

  ghost predicate FoldsPlainly(host: Host) {
    forall part | Plain(part) :: host.fold(part) == part
  }

  lemma {:induction false} StemIsPlain(part: string)
    requires Plain(part)
    ensures Plain(Stem(part))
  {
    if part != [] && part[0] != '.' {
      assert part[0] in part;
      forall ch | ch in part[1..]
        ensures ch in part
      {}
      StemIsPlain(part[1..]);
    }
  }

  lemma PortableName(host: Host, part: string)
    requires FoldsPlainly(host) && Plain(part)
    requires 1 <= |part| <= 255 && part != "." && part != ".." && part[|part| - 1] != '.'
    requires |Stem(part)| <= 1 || (Stem(part)[0] == 'p' && Stem(part)[1] == 'a')
    ensures PortableComponent(host, part)
  {
    hide ReservedName, Stem;
    assert part[|part| - 1] in part;
    StemIsPlain(part);
    Unreserved(Stem(part));
  }

  lemma Unreserved(stem: string)
    requires |stem| <= 1 || (stem[0] == 'p' && stem[1] == 'a')
    ensures !ReservedName(stem)
  {
    if |stem| == 4 {
      assert stem[..3][1] == stem[1];
    }
  }

  function Length(rel: Relative): nat {
    if rel == [] then 0 else |rel[0]| + 1 + Length(rel[1..])
  }

  predicate Portable(host: Host, rel: Relative) {
    && 1 <= |rel| <= 16 && Length(rel) <= 1025
    && forall part | part in rel :: PortableComponent(host, part)
  }

  function Folded(host: Host, rel: Relative): Relative {
    seq(|rel|, i requires 0 <= i < |rel| => host.fold(rel[i]))
  }

  function Paths(entries: seq<Entry>): seq<Relative> {
    seq(|entries|, i requires 0 <= i < |entries| => entries[i].path)
  }

  /** Portable paths that no case-insensitive system confuses with each other or with the receipt. */
  ghost predicate WellShaped(host: Host, rels: seq<Relative>) {
    && 1 <= |rels| <= MAX_MEMBERS
    && (forall r | r in rels :: Portable(host, r) && Folded(host, r) != Folded(host, RECEIPT))
    && (forall i, j | 0 <= i < j < |rels| :: Folded(host, rels[i]) != Folded(host, rels[j]))
    && (forall r, s | r in rels && s in rels :: !(Folded(host, r) < Folded(host, s)))
  }

  method CheckShape(host: Host, rels: seq<Relative>) returns (ok: bool)
    ensures ok == WellShaped(host, rels)
  {
    if !(1 <= |rels| <= MAX_MEMBERS) {
      return false;
    }
    var seen := {};
    var i := 0;
    while i < |rels|
      invariant 0 <= i <= |rels|
      invariant forall r | r in rels[..i] :: Portable(host, r) && Folded(host, r) != Folded(host, RECEIPT)
      invariant forall f :: f in seen <==> exists k :: 0 <= k < i && Folded(host, rels[k]) == f
      invariant forall k, j | 0 <= k < j < i :: Folded(host, rels[k]) != Folded(host, rels[j])
    {
      var key := Folded(host, rels[i]);
      if !Portable(host, rels[i]) || key == Folded(host, RECEIPT) || key in seen {
        assert rels[i] in rels;
        return false;
      }
      seen := seen + {key};
      i := i + 1;
    }
    assert rels[..i] == rels;
    if exists left, right :: left in seen && right in seen && left < right {
      var left, right :| left in seen && right in seen && left < right;
      var k :| 0 <= k < i && Folded(host, rels[k]) == left;
      var j :| 0 <= j < i && Folded(host, rels[j]) == right;
      assert rels[k] in rels && rels[j] in rels;
      return false;
    }
    forall r, s | r in rels && s in rels
      ensures !(Folded(host, r) < Folded(host, s))
    {
      assert Folded(host, r) in seen && Folded(host, s) in seen;
    }
    ok := true;
  }

  /** Folding only merges names, so well-shaped paths are distinct and none lies above another. */
  lemma ShapeSeparates(host: Host, rels: seq<Relative>)
    requires WellShaped(host, rels)
    ensures RECEIPT !in rels && [] !in rels
    ensures forall i, j | 0 <= i < j < |rels| :: rels[i] != rels[j]
    ensures forall r, s | r in rels && s in rels :: !(r < s)
  {}

  predicate EntryMatches(host: Host, files: Files, top: string, e: Entry) {
    match Lookup(files, Path(top, e.path))
    case None => false
    case Some(f) => |f.data| == e.size && host.digest(f.data) == e.digest && |f.data| <= MAX_ARCHIVE_BYTES
  }

  predicate ReceiptAccepted(host: Host, expectedVersion: Option<Version>, receipt: Receipt) {
    && receipt.schemaVersion == 1
    && receipt.product == PRODUCT
    && receipt.platform == host.platform
    && match expectedVersion
       case Some(v) => receipt.version == v
       case None => !Newer(receipt.version, host.version)
  }

  predicate Newer(v: Version, w: Version) {
    || v.major > w.major
    || (v.major == w.major && v.minor > w.minor)
    || (v.major == w.major && v.minor == w.minor && v.patch > w.patch)
  }

  function ReceiptIn(host: Host, files: Files, top: string): Option<Receipt> {
    match Lookup(files, Path(top, RECEIPT))
    case None => None
    case Some(f) => if |f.data| <= MAX_RECEIPT_BYTES then host.parse(f.data) else None
  }

  /** top holds an intact installation, and receipt is its receipt. */
  ghost predicate Verified(
    host: Host, files: Files, dirs: Directories, top: string, expectedVersion: Option<Version>, receipt: Receipt)
  {
    && Path(top, []) in dirs
    && ReceiptIn(host, files, top) == Some(receipt)
    && ReceiptAccepted(host, expectedVersion, receipt)
    && WellShaped(host, Paths(receipt.files))
    && forall e | e in receipt.files :: EntryMatches(host, files, top, e)
  }

  ghost predicate DigestIsInjective(host: Host) {
    forall a, b :: host.digest(a) == host.digest(b) ==> a == b
  }

  /**
    What a receipt vouches for is the bytes: given one state in which it verifies, another state
    with the same receipt verifies if and only if every file has the same bytes in it.
   */
  lemma SameBytes(
    host: Host, files: Files, dirs: Directories, files': Files, dirs': Directories, top: string,
    v: Option<Version>, receipt: Receipt)
    requires DigestIsInjective(host) && Verified(host, files, dirs, top, v, receipt)
    requires Path(top, []) in dirs' && ReceiptIn(host, files', top) == Some(receipt)
    ensures forall e | e in receipt.files :: Path(top, e.path) in files && |files[Path(top, e.path)].data| == e.size
    ensures Verified(host, files', dirs', top, v, receipt) <==>
            forall e | e in receipt.files ::
              Path(top, e.path) in files && Path(top, e.path) in files'
              && files'[Path(top, e.path)].data == files[Path(top, e.path)].data
  {
    hide WellShaped, ReceiptAccepted;
    forall e | e in receipt.files
      ensures Path(top, e.path) in files && |files[Path(top, e.path)].data| == e.size
      ensures EntryMatches(host, files', top, e) <==>
              Path(top, e.path) in files' && files'[Path(top, e.path)].data == files[Path(top, e.path)].data
    {
      assert EntryMatches(host, files, top, e);
    }
  }

  /** Once a file of an installation has been edited, the installation verifies under no version. */
  lemma EditIsNoticed(
    host: Host, files: Files, dirs: Directories, files': Files, dirs': Directories, top: string,
    v: Option<Version>, receipt: Receipt, e: Entry)
    requires DigestIsInjective(host) && Verified(host, files, dirs, top, v, receipt)
    requires Lookup(files', Path(top, RECEIPT)) == Lookup(files, Path(top, RECEIPT)) && e in receipt.files
    requires Lookup(files', Path(top, e.path)).Some? && files'[Path(top, e.path)].data != files[Path(top, e.path)].data
    ensures forall w, other :: !Verified(host, files', dirs', top, w, other)
  {
    hide WellShaped, ReceiptAccepted;
    assert EntryMatches(host, files, top, e);
    assert !EntryMatches(host, files', top, e);
  }

  /** One number for each version with parts below a bound, in the order of versions. */
  function Rank(v: Version, bound: nat): nat {
    (v.major * bound + v.minor) * bound + v.patch
  }

  lemma NewerIsLarger(v: Version, w: Version, bound: nat)
    requires v.minor < bound && v.patch < bound && w.minor < bound && w.patch < bound
    ensures Newer(v, w) <==> Rank(v, bound) > Rank(w, bound)
  {
    MoreOfTheFirst(v.major, v.minor, w.major, w.minor, bound);
    MoreOfTheFirst(w.major, w.minor, v.major, v.minor, bound);
    MoreOfTheFirst(v.major * bound + v.minor, v.patch, w.major * bound + w.minor, w.patch, bound);
    MoreOfTheFirst(w.major * bound + w.minor, w.patch, v.major * bound + v.minor, v.patch, bound);
  }

  lemma MoreOfTheFirst(a: nat, b: nat, c: nat, d: nat, bound: nat)
    requires b < bound && d < bound
    ensures a > c ==> a * bound + b > c * bound + d
  {
    if a > c {
      assert a * bound >= (c + 1) * bound;
    }
  }

  /** An installation verifies for this product, schema and platform, and for one version or for none newer than the adapter. */
  lemma VerifiedIsOurs(
    host: Host, files: Files, dirs: Directories, top: string, v: Option<Version>, receipt: Receipt, bound: nat)
    requires Verified(host, files, dirs, top, v, receipt)
    requires receipt.version.minor < bound && receipt.version.patch < bound
    requires host.version.minor < bound && host.version.patch < bound
    ensures receipt.schemaVersion == 1 && receipt.product == "dcc-mcp-obs" && receipt.platform == host.platform
    ensures v.Some? ==> receipt.version == v.value
    ensures v.None? ==> Rank(receipt.version, bound) <= Rank(host.version, bound)
    ensures Lookup(files, Path(top, RECEIPT)).Some? && |files[Path(top, RECEIPT)].data| <= 65536
    ensures host.parse(files[Path(top, RECEIPT)].data) == Some(receipt)
  {
    hide WellShaped, EntryMatches;
    NewerIsLarger(receipt.version, host.version, bound);
  }

  lemma OwnedKeysExist(files: Files, dirs: Directories, top: string, rels: seq<Relative>)
    requires WellFormed(files, dirs) && Path(top, []) in dirs && Path(top, RECEIPT) in files
    requires forall r | r in rels :: Path(top, r) in files
    ensures Capture(files, dirs, top, rels).Some?
  {
    forall k | k in OwnedKeys(rels)
      ensures Exists(files, dirs, Path(top, k))
    {
      if k != [] {
        var r :| r in rels + [RECEIPT] && k in Prefixes(r);
        var i :| 0 < i <= |r| && k == r[..i];
        assert Exists(files, dirs, Path(top, r));
        PrefixExists(files, dirs, top, r, i);
      }
    }
  }

  lemma {:induction false} PrefixExists(files: Files, dirs: Directories, top: string, r: Relative, i: nat)
    requires WellFormed(files, dirs) && Exists(files, dirs, Path(top, r)) && i <= |r|
    ensures Exists(files, dirs, Path(top, r[..i]))
    ensures i < |r| ==> Path(top, r[..i]) in dirs
    decreases |r| - i
  {
    if i < |r| {
      PrefixExists(files, dirs, top, r, i + 1);
      var p := Path(top, r[..i + 1]);
      assert HasParent(dirs, p) && Parent(p) == Path(top, r[..i]);
      assert Lookup(dirs, Path(top, r[..i])).Some?;
    } else {
      assert r[..i] == r;
    }
  }

  lemma EntriesPresent(host: Host, files: Files, top: string, entries: seq<Entry>)
    requires forall e | e in entries :: EntryMatches(host, files, top, e)
    ensures forall r | r in Paths(entries) :: Path(top, r) in files
  {
    forall r | r in Paths(entries)
      ensures Path(top, r) in files
    {
      var i :| 0 <= i < |entries| && Paths(entries)[i] == r;
      assert EntryMatches(host, files, top, entries[i]);
    }
  }

  /** Accepts exactly the intact installations, and returns what they own. */
  method Verify(fs: FileSystem, host: Host, top: string, expectedVersion: Option<Version>)
    returns (result: Result<VerifiedReceipt, Error>)
    requires fs.Valid()
    ensures result.Success? ==>
              && Verified(host, fs.files, fs.dirs, top, expectedVersion, result.value.receipt)
              && Capture(fs.files, fs.dirs, top, Paths(result.value.receipt.files)) == Some(result.value.ownership)
    ensures result.Failure? ==>
              && (result.error == ReceiptInvalid || result.error == PluginDrift)
              && forall receipt :: !Verified(host, fs.files, fs.dirs, top, expectedVersion, receipt)
  {
    hide Capture, WellShaped, WellFormed;
    if Path(top, []) !in fs.dirs {
      return Failure(ReceiptInvalid);
    }
    if !Exists(fs.files, fs.dirs, Path(top, RECEIPT)) {
      return Failure(PluginDrift);
    }
    var parsed := ReceiptIn(host, fs.files, top);
    if parsed.None? || !ReceiptAccepted(host, expectedVersion, parsed.value) {
      return Failure(ReceiptInvalid);
    }
    var receipt := parsed.value;
    var rels := Paths(receipt.files);
    var shaped := CheckShape(host, rels);
    if !shaped {
      return Failure(ReceiptInvalid);
    }
    var captured := Capture(fs.files, fs.dirs, top, rels);
    if captured.None? {
      if forall e | e in receipt.files :: EntryMatches(host, fs.files, top, e) {
        EntriesPresent(host, fs.files, top, receipt.files);
        OwnedKeysExist(fs.files, fs.dirs, top, rels);
      }
      return Failure(PluginDrift);
    }
    var i := 0;
    while i < |receipt.files|
      invariant 0 <= i <= |receipt.files|
      invariant forall e | e in receipt.files[..i] :: EntryMatches(host, fs.files, top, e)
    {
      if !EntryMatches(host, fs.files, top, receipt.files[i]) {
        return Failure(PluginDrift);
      }
      i := i + 1;
    }
    result := Success(VerifiedReceipt(receipt, captured.value));
  }

  ghost predicate FaithfulCodec(host: Host) {
    forall receipt :: host.parse(host.encode(receipt)) == Some(receipt)
  }

  /** top holds every file of next, and its encoded receipt. */
  ghost predicate Holds(host: Host, files: Files, top: string, next: Receipt) {
    && ReceiptAccepted(host, Some(host.version), next)
    && WellShaped(host, Paths(next.files))
    && (forall e | e in next.files :: EntryMatches(host, files, top, e))
    && Lookup(files, Path(top, RECEIPT)).Some?
    && files[Path(top, RECEIPT)].data == host.encode(next)
  }

  /** A complete publication verifies exactly when its receipt is not too long to be read back. */
  lemma HeldVerifies(host: Host, files: Files, dirs: Directories, top: string, next: Receipt)
    requires FaithfulCodec(host) && Holds(host, files, top, next) && Path(top, []) in dirs
    ensures Verified(host, files, dirs, top, Some(host.version), next) <==> |host.encode(next)| <= MAX_RECEIPT_BYTES
  {}

  function Owned(receipt: Receipt): seq<Relative> {
    Paths(receipt.files) + [RECEIPT]
  }

  ghost predicate NoDuplicates(s: seq<Relative>) {
    forall i, j | 0 <= i < j < |s| :: s[i] != s[j]
  }

  ghost predicate Antichain(rels: seq<Relative>) {
    forall r, s | r in rels && s in rels :: !(r < s)
  }

  /** No file of a tree lies above another one. */
  lemma FilesAreAntichain(files: Files, dirs: Directories, top: string, rels: seq<Relative>)
    requires WellFormed(files, dirs) && forall r | r in rels :: Path(top, r) in files
    ensures Antichain(rels)
  {
    forall r, s | r in rels && s in rels
      ensures !(r < s)
    {
      if r < s {
        assert r == s[..|r|] && Exists(files, dirs, Path(top, s));
        PrefixExists(files, dirs, top, s, |r|);
      }
    }
  }

  /** The paths of a receipt whose files are all in one tree can be moved one by one. */
  lemma OwnedIsSeparate(host: Host, files: Files, dirs: Directories, top: string, receipt: Receipt)
    requires WellFormed(files, dirs) && WellShaped(host, Paths(receipt.files))
    requires Lookup(files, Path(top, RECEIPT)).Some?
    requires forall e | e in receipt.files :: EntryMatches(host, files, top, e)
    ensures NoDuplicates(Owned(receipt)) && Antichain(Owned(receipt)) && [] !in Owned(receipt)
    ensures forall r | r in Owned(receipt) :: Path(top, r) in files
  {
    ShapeSeparates(host, Paths(receipt.files));
    EntriesPresent(host, files, top, receipt.files);
    FilesAreAntichain(files, dirs, top, Owned(receipt));
  }
}
