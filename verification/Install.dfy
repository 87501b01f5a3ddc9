/** Bundle validation, staging, and the installation as a whole. */
module Install {
  import opened Wrappers
  import opened FileSystems
  import opened Ownership
  import opened Receipts
  import opened Recovery
  import opened Upgrade
  import opened Rollback
  import opened Replacement
  import opened Uninstall

  datatype ManifestEntry = ManifestEntry(source: Relative, target: Relative, digest: string)

  /** length is that of the manifest itself as a member of the archive. */
  datatype Manifest = Manifest(
    schemaVersion: int, product: string, version: Version, platform: string, files: seq<ManifestEntry>, length: nat)

  /** The members of an archive other than its manifest. */
  type Archive = map<Relative, Bytes>

  /** One file to stage. */
  datatype Member = Member(path: Relative, payload: Bytes)

  const PAYLOAD := "payload"

  function Targets(entries: seq<ManifestEntry>): seq<Relative> {
    seq(|entries|, i requires 0 <= i < |entries| => entries[i].target)
  }

  function MemberPaths(plan: seq<Member>): seq<Relative> {
    seq(|plan|, i requires 0 <= i < |plan| => plan[i].path)
  }

  predicate SourceAccepted(host: Host, archive: Archive, e: ManifestEntry) {
    && Portable(host, e.source) && |e.source| > 1 && e.source[0] == PAYLOAD
    && e.source in archive
    && |archive[e.source]| <= MAX_ARCHIVE_BYTES
    && host.digest(archive[e.source]) == e.digest
  }

  /** A bundle whose members are exactly the manifest's sources, each with its digest, and whose targets can coexist. */
  ghost predicate Acceptable(host: Host, manifest: Manifest, archive: Archive) {
    && manifest.schemaVersion == 1 && manifest.product == PRODUCT
    && manifest.version == host.version && manifest.platform == host.platform
    && WellShaped(host, Targets(manifest.files)) && SourcesAccepted(host, archive, manifest.files)
    && (forall name | name in archive :: exists e :: e in manifest.files && e.source == name)
    && manifest.length + TotalLength(archive, manifest.files) <= MAX_ARCHIVE_BYTES
  }

  function LengthOf(archive: Archive, e: ManifestEntry): nat {
    if e.source in archive then |archive[e.source]| else 0
  }

  function TotalLength(archive: Archive, entries: seq<ManifestEntry>): nat {
    if entries == [] then 0
    else TotalLength(archive, entries[..|entries| - 1]) + LengthOf(archive, entries[|entries| - 1])
  }

  method SumLengths(archive: Archive, entries: seq<ManifestEntry>) returns (total: nat)
    ensures total == TotalLength(archive, entries)
    ensures forall e | e in entries :: LengthOf(archive, e) <= total
  {
    total := 0;
    for i := 0 to |entries|
      invariant total == TotalLength(archive, entries[..i])
      invariant forall e | e in entries[..i] :: LengthOf(archive, e) <= total
    {
      assert entries[..i + 1][..i] == entries[..i];
      total := total + LengthOf(archive, entries[i]);
    }
    assert entries[..|entries|] == entries;
  }

  ghost predicate SourcesAccepted(host: Host, archive: Archive, entries: seq<ManifestEntry>) {
    && (forall e | e in entries :: SourceAccepted(host, archive, e))
    && (forall i, j | 0 <= i < j < |entries| :: Folded(host, entries[i].source) != Folded(host, entries[j].source))
  }

  method CheckSources(host: Host, archive: Archive, entries: seq<ManifestEntry>) returns (ok: bool)
    ensures ok == SourcesAccepted(host, archive, entries)
  {
    hide SourceAccepted, Folded;
    var seen := {};
    var n := 0;
    while n < |entries|
      invariant 0 <= n <= |entries|
      invariant forall e | e in entries[..n] :: SourceAccepted(host, archive, e)
      invariant forall f :: f in seen <==> exists k :: 0 <= k < n && Folded(host, entries[k].source) == f
      invariant forall i, j | 0 <= i < j < n :: Folded(host, entries[i].source) != Folded(host, entries[j].source)
    {
      var key := Folded(host, entries[n].source);
      if !SourceAccepted(host, archive, entries[n]) || key in seen {
        assert entries[n] in entries;
        return false;
      }
      seen := seen + {key};
      n := n + 1;
    }
    assert entries[..n] == entries;
    ok := true;
  }

  method ValidateBundle(host: Host, manifest: Manifest, archive: Archive) returns (plan: Option<seq<Member>>)
    ensures plan.Some? <==> Acceptable(host, manifest, archive)
    ensures plan.Some? ==>
              && Stageable(host, plan.value) && MemberPaths(plan.value) == Targets(manifest.files)
              && forall i | 0 <= i < |plan.value| ::
                   && |plan.value[i].payload| <= MAX_ARCHIVE_BYTES
                   && host.digest(plan.value[i].payload) == manifest.files[i].digest
                   && manifest.files[i].source in archive
                   && plan.value[i] == Member(manifest.files[i].target, archive[manifest.files[i].source])
                   && ["payload"] < manifest.files[i].source
  {
    hide WellShaped, Portable, Folded, TotalLength, LengthOf;
    var shaped := CheckShape(host, Targets(manifest.files));
    if !shaped || manifest.schemaVersion != 1 || manifest.product != PRODUCT
       || manifest.version != host.version || manifest.platform != host.platform {
      return None;
    }
    var accepted := CheckSources(host, archive, manifest.files);
    var total := SumLengths(archive, manifest.files);
    if !accepted || manifest.length + total > MAX_ARCHIVE_BYTES || !(forall name | name in archive :: exists e | e in manifest.files :: e.source == name) {
      return None;
    }
    assert forall i | 0 <= i < |manifest.files| :: SourceAccepted(host, archive, manifest.files[i]);
    plan := Some(seq(|manifest.files|, i requires 0 <= i < |manifest.files| && manifest.files[i].source in archive =>
      Member(manifest.files[i].target, archive[manifest.files[i].source])));
    assert MemberPaths(plan.value) == Targets(manifest.files);
  }

  function EntryFor(host: Host, m: Member): Entry {
    Entry(m.path, host.digest(m.payload), |m.payload|)
  }

  function ReceiptFor(host: Host, plan: seq<Member>): Receipt {
    Receipt(1, PRODUCT, host.version, host.platform, seq(|plan|, i requires 0 <= i < |plan| => EntryFor(host, plan[i])))
  }

  /** Some member is to be put below the path that the receipt needs. */
  ghost predicate UsesReceiptAsDirectory(plan: seq<Member>) {
    exists i :: 0 <= i < |plan| && IsAncestor(RECEIPT, plan[i].path)
  }

  /** What validation guarantees about the files to stage. */
  ghost predicate Stageable(host: Host, plan: seq<Member>) {
    && WellShaped(host, MemberPaths(plan))
    && forall m | m in plan :: |m.payload| <= MAX_ARCHIVE_BYTES
  }

  /** Validation does not rule this out: here is a bundle that is accepted, although it can never be staged. */
  lemma AcceptedButNotStaged(host: Host, data: Bytes, length: nat)
    returns (manifest: Manifest, archive: Archive, plan: seq<Member>)
    requires length + |data| <= MAX_ARCHIVE_BYTES && FoldsPlainly(host)
    ensures Acceptable(host, manifest, archive) && MemberPaths(plan) == Targets(manifest.files)
    ensures UsesReceiptAsDirectory(plan)
  {
    var target, source: Relative := RECEIPT + ["x"], [PAYLOAD, "x"];
    var entry := ManifestEntry(source, target, host.digest(data));
    manifest, archive := Manifest(1, PRODUCT, host.version, host.platform, [entry], length), map[source := data];
    plan := [Member(target, data)];
    assert Targets(manifest.files) == [target] == MemberPaths(plan);
    NamesArePortable(host);
    assert Plain("x") && Plain(RECEIPT[0]);
    assert Folded(host, target) == target && Folded(host, RECEIPT) == RECEIPT;
    assert manifest.files[0] == entry && entry in manifest.files;
    assert TotalLength(archive, manifest.files) == TotalLength(archive, []) + |data| by {
      assert manifest.files[..0] == [];
    }
    assert IsAncestor(RECEIPT, plan[0].path);
  }

  lemma NamesArePortable(host: Host)
    requires FoldsPlainly(host)
    ensures Portable(host, RECEIPT + ["x"]) && Portable(host, [PAYLOAD, "x"])
  {
    hide PortableComponent, Stem, FoldsPlainly;
    Stems();
    PortableName(host, RECEIPT[0]);
    PortableName(host, PAYLOAD);
    PortableName(host, "x");
    var x: Relative := ["x"];
    assert (RECEIPT + x)[1..] == x && x[1..] == [] && [PAYLOAD, "x"][1..] == x;
    assert Length(x) == 2 && Length(RECEIPT + x) == |RECEIPT[0]| + 1 + 2 && Length([PAYLOAD, "x"]) == |PAYLOAD| + 1 + 2;
  }

  lemma Stems()
    ensures Stem(RECEIPT[0]) == "" && Stem("x") == "x" && Stem(PAYLOAD) != [] && Stem(PAYLOAD)[0] == 'p' && |Stem(PAYLOAD)| > 1
    ensures Stem(PAYLOAD)[1] == 'a'
  {
    var rest := PAYLOAD[1..];
    assert Stem(PAYLOAD) == ['p'] + Stem(rest) && Stem(rest) == ['a'] + Stem(rest[1..]);
    assert Stem("x") == "x" + Stem("x"[1..]) && Stem("x"[1..]) == "";
  }

  lemma PlanPaths(host: Host, plan: seq<Member>)
    ensures Paths(ReceiptFor(host, plan).files) == MemberPaths(plan)
  {}

  /** Of the first n members nothing stands in the way of the others. */
  lemma NextHasRoom(host: Host, plan: seq<Member>, n: nat, files: Files, dirs: Directories, top: string)
    requires Stageable(host, plan) && n < |plan|
    requires forall r: Relative :: Path(top, r) in files <==> r in MemberPaths(plan[..n])
    requires forall r: Relative | Path(top, r) in dirs :: r == [] || r in AncestorsOf(MemberPaths(plan))
    ensures plan[n].path != [] && NoFileAbove(files, top, plan[n].path) && !Exists(files, dirs, Path(top, plan[n].path))
  {
    var rels, rel := MemberPaths(plan), plan[n].path;
    ShapeSeparates(host, rels);
    assert rel == rels[n] && rel in rels;
    MembersSoFar(plan, n);
    AncestorsOfMember(rels, rel);
    forall i | 0 < i < |rel|
      ensures Path(top, rel[..i]) !in files
    {
      assert rel[..i] < rel;
    }
    assert rel !in MemberPaths(plan[..n]);
  }

  lemma MembersSoFar(plan: seq<Member>, n: nat)
    requires n < |plan|
    ensures MemberPaths(plan[..n]) == MemberPaths(plan)[..n]
    ensures MemberPaths(plan[..n + 1]) == MemberPaths(plan[..n]) + [plan[n].path]
    ensures forall r | r in MemberPaths(plan[..n]) :: r in MemberPaths(plan)
  {
    assert MemberPaths(plan[..n]) == MemberPaths(plan)[..n];
  }

  /** Writes every member and the receipt into the empty stage. */
  method Stage(fs: FileSystem, host: Host, stage: string, plan: seq<Member>) returns (ok: bool)
    requires fs.Valid() && Stageable(host, plan) && Path(stage, []) in fs.dirs
    requires forall r: Relative | r != [] :: !Exists(fs.files, fs.dirs, Path(stage, r))
    modifies fs
    ensures fs.Valid() && fs.faults >= old(fs.faults)
    ensures SameOutside(stage, old(fs.files), old(fs.dirs), fs.files, fs.dirs)
    ensures ok ==>
              && Holds(host, fs.files, stage, ReceiptFor(host, plan)) && Path(stage, []) in fs.dirs
              && OnlyOwned(fs.files, fs.dirs, stage, Owned(ReceiptFor(host, plan)))
    ensures fs.faults == old(fs.faults) ==> (ok <==> !UsesReceiptAsDirectory(plan))
  {
    hide WellFormed, Staged, Stageable, Holds, OnlyOwned, UsesReceiptAsDirectory;
    var n := 0;
    StageStartsEmpty(host, fs.files, fs.dirs, stage, plan);
    while n < |plan|
      invariant 0 <= n <= |plan| && fs.Valid() && fs.faults == old(fs.faults)
      invariant SameOutside(stage, old(fs.files), old(fs.dirs), fs.files, fs.dirs)
      invariant Staged(host, fs.files, fs.dirs, stage, plan, n)
    {
      ok := StageOne(fs, host, stage, plan, n, old(fs.files), old(fs.dirs));
      if !ok {
        return;
      }
      n := n + 1;
    }
    ghost var files, dirs := fs.files, fs.dirs;
    ReceiptPlace(host, files, dirs, stage, plan);
    ok := fs.WriteExclusive(Path(stage, RECEIPT), host.encode(ReceiptFor(host, plan)));
    if ok {
      StagedIsHeld(host, files, fs.files, dirs, stage, plan);
    }
  }

  /** The first n members are in the stage, under directories that members need, and nothing else. */
  ghost predicate Staged(host: Host, files: Files, dirs: Directories, stage: string, plan: seq<Member>, n: nat)
    requires n <= |plan|
  {
    && Path(stage, []) in dirs
    && (forall r: Relative :: Path(stage, r) in files <==> r in MemberPaths(plan[..n]))
    && (forall r: Relative | Path(stage, r) in dirs :: r == [] || r in AncestorsOf(MemberPaths(plan)))
    && (forall i | 0 <= i < n :: Lookup(files, Path(stage, plan[i].path)).Some?
          && files[Path(stage, plan[i].path)].data == plan[i].payload)
  }

  lemma StageStartsEmpty(host: Host, files: Files, dirs: Directories, stage: string, plan: seq<Member>)
    requires WellFormed(files, dirs) && Path(stage, []) in dirs
    requires forall r: Relative | r != [] :: !Exists(files, dirs, Path(stage, r))
    ensures Staged(host, files, dirs, stage, plan, 0) && SameOutside(stage, files, dirs, files, dirs)
  {
    forall r: Relative
      ensures Path(stage, r) !in files && (Path(stage, r) in dirs ==> r == [])
    {
      assert r != [] ==> !Exists(files, dirs, Path(stage, r));
    }
  }

  lemma StagedOneMore(
    host: Host, files: Files, dirs: Directories, files': Files, dirs': Directories, stage: string, plan: seq<Member>, n: nat)
    requires n < |plan| && Staged(host, files, dirs, stage, plan, n)
    requires GrownAbove(dirs, dirs', stage, plan[n].path)
    requires Lookup(files, Path(stage, plan[n].path)).None? && Lookup(files', Path(stage, plan[n].path)).Some?
    requires files'[Path(stage, plan[n].path)].data == plan[n].payload
    requires forall p | p != Path(stage, plan[n].path) :: Lookup(files', p) == Lookup(files, p)
    ensures Staged(host, files', dirs', stage, plan, n + 1)
  {
    MembersSoFar(plan, n);
    assert MemberPaths(plan)[n] == plan[n].path;
    assert plan[n].path in MemberPaths(plan);
    forall r: Relative
      ensures Path(stage, r) in files' <==> r in MemberPaths(plan[..n + 1])
    {
      assert r != plan[n].path ==> Lookup(files', Path(stage, r)) == Lookup(files, Path(stage, r));
    }
    forall r: Relative | Path(stage, r) in dirs'
      ensures r == [] || r in AncestorsOf(MemberPaths(plan))
    {
      AncestorsOfMember(MemberPaths(plan), r);
    }
    forall i | 0 <= i < n + 1
      ensures Lookup(files', Path(stage, plan[i].path)).Some?
      ensures files'[Path(stage, plan[i].path)].data == plan[i].payload
    {
      if i < n {
        assert Lookup(files, Path(stage, plan[i].path)).Some?;
        assert Lookup(files', Path(stage, plan[i].path)) == Lookup(files, Path(stage, plan[i].path));
      }
    }
  }

  method StageOne(
    fs: FileSystem, host: Host, stage: string, plan: seq<Member>, n: nat, ghost files0: Files, ghost dirs0: Directories)
    returns (ok: bool)
    requires fs.Valid() && Stageable(host, plan) && n < |plan|
    requires Staged(host, fs.files, fs.dirs, stage, plan, n)
    requires SameOutside(stage, files0, dirs0, fs.files, fs.dirs)
    modifies fs
    ensures fs.Valid() && fs.faults >= old(fs.faults)
    ensures SameOutside(stage, files0, dirs0, fs.files, fs.dirs)
    ensures if ok then Staged(host, fs.files, fs.dirs, stage, plan, n + 1) && fs.faults == old(fs.faults)
            else fs.faults > old(fs.faults)
  {
    hide WellFormed, AncestorsOf, MemberPaths, Stageable, NoFileAbove;
    ghost var files, dirs := fs.files, fs.dirs;
    var m := plan[n];
    NextHasRoom(host, plan, n, files, dirs, stage);
    ok := PrepareOwnedDestination(fs, stage, m.path);
    GrowthKeepsIdentities(files, dirs, fs.dirs, stage, m.path);
    if !ok {
      return;
    }
    HasRoom(fs.dirs, stage, m.path);
    assert Lookup(fs.dirs, Path(stage, m.path)) == Lookup(dirs, Path(stage, m.path));
    ok := fs.WriteExclusive(Path(stage, m.path), m.payload);
    if ok {
      StagedOneMore(host, files, dirs, fs.files, fs.dirs, stage, plan, n);
    }
  }

  lemma ReceiptPlace(host: Host, files: Files, dirs: Directories, stage: string, plan: seq<Member>)
    requires WellFormed(files, dirs) && Stageable(host, plan) && Staged(host, files, dirs, stage, plan, |plan|)
    ensures !Exists(files, dirs, Path(stage, RECEIPT)) && HasParent(dirs, Path(stage, RECEIPT))
            <==> !UsesReceiptAsDirectory(plan)
  {
    hide AncestorsOf;
    var rels := MemberPaths(plan);
    assert plan[..|plan|] == plan;
    ShapeSeparates(host, rels);
    AncestorsOfMember(rels, RECEIPT);
    assert Parent(Path(stage, RECEIPT)) == Path(stage, []);
    if UsesReceiptAsDirectory(plan) {
      var i :| 0 <= i < |plan| && IsAncestor(RECEIPT, plan[i].path);
      assert Exists(files, dirs, Path(stage, plan[i].path)) && plan[i].path[..1] == RECEIPT;
      PrefixExists(files, dirs, stage, plan[i].path, 1);
    }
    if Exists(files, dirs, Path(stage, RECEIPT)) {
      var r :| r in rels && IsAncestor(RECEIPT, r);
      var i :| 0 <= i < |rels| && rels[i] == r;
      assert plan[i].path == r;
    }
  }

  lemma StagedIsHeld(host: Host, files: Files, files': Files, dirs: Directories, stage: string, plan: seq<Member>)
    requires Stageable(host, plan) && Staged(host, files, dirs, stage, plan, |plan|)
    requires Lookup(files', Path(stage, RECEIPT)).Some?
    requires files'[Path(stage, RECEIPT)].data == host.encode(ReceiptFor(host, plan))
    requires forall p | p != Path(stage, RECEIPT) :: Lookup(files', p) == Lookup(files, p)
    ensures Holds(host, files', stage, ReceiptFor(host, plan))
    ensures OnlyOwned(files', dirs, stage, Owned(ReceiptFor(host, plan))) && Path(stage, []) in dirs
  {
    var receipt := ReceiptFor(host, plan);
    PlanPaths(host, plan);
    ShapeSeparates(host, MemberPaths(plan));
    assert plan[..|plan|] == plan;
    forall e | e in receipt.files
      ensures EntryMatches(host, files', stage, e)
    {
      var i :| 0 <= i < |plan| && receipt.files[i] == e;
      assert MemberPaths(plan)[i] == plan[i].path && plan[i] in plan;
      assert Lookup(files, Path(stage, plan[i].path)).Some?;
      assert Lookup(files', Path(stage, plan[i].path)) == Lookup(files, Path(stage, plan[i].path));
    }
    ReceiptHasNoAncestors(receipt);
    forall r: Relative | Path(stage, r) in files'
      ensures r in Owned(receipt)
    {
      assert r != RECEIPT ==> Lookup(files', Path(stage, r)) == Lookup(files, Path(stage, r));
    }
  }

  /** Removes what it can of a tree. */
  method RemoveTree(fs: FileSystem, top: string)
    requires fs.Valid()
    modifies fs
    ensures fs.Valid() && fs.faults >= old(fs.faults)
    ensures SameOutside(top, old(fs.files), old(fs.dirs), fs.files, fs.dirs)
    ensures fs.faults == old(fs.faults) ==> NothingIn(fs.files, fs.dirs, top)
  {
    RemoveFiles(fs, top);
    ghost var files := fs.files;
    var rels := set p | p in fs.dirs && p.top == top :: p.rel;
    NamedInTree(fs.dirs, top, rels);
    PruneDirectories(fs, top, rels);
    PrunedTree(fs.files, fs.dirs, top, rels);
  }

  lemma NamedInTree(dirs: Directories, top: string, rels: set<Relative>)
    requires rels == set p | p in dirs && p.top == top :: p.rel
    ensures forall r: Relative :: Path(top, r) in dirs ==> r in rels
  {
    forall r: Relative | Path(top, r) in dirs
      ensures r in rels
    {
      assert Path(top, r).top == top;
    }
  }

  /** A tree without files in which no directory is empty is no tree at all. */
  lemma PrunedTree(files: Files, dirs: Directories, top: string, rels: set<Relative>)
    requires forall r: Relative :: Path(top, r) in dirs ==> r in rels
    ensures NoneLeftEmpty(files, dirs, top, rels) && (forall r: Relative :: Path(top, r) !in files) ==>
              NothingIn(files, dirs, top)
  {
    if NoneLeftEmpty(files, dirs, top, rels) && (forall r: Relative :: Path(top, r) !in files) {
      var left := set p | p in dirs && p.top == top :: p.rel;
      NamedInTree(dirs, top, left);
      forall d | d in left
        ensures HasChildIn(left, d)
      {
        var p :| p in dirs && p.top == top && p.rel == d;
        assert p == Path(top, d) && !IsEmpty(files, dirs, p);
        var q :| (q in files || q in dirs) && IsChild(q, p);
        assert IsChild(q, p);
        assert q == Path(top, q.rel) && q.rel[..|q.rel| - 1] == d;
      }
      if any :| any in left {
        SomeLeaf(left, any);
      }
    }
  }

  method RemoveFiles(fs: FileSystem, top: string)
    requires fs.Valid()
    modifies fs`files, fs`faults
    ensures fs.Valid() && fs.faults >= old(fs.faults)
    ensures forall p: Path | p.top != top :: Lookup(fs.files, p) == old(Lookup(fs.files, p))
    ensures fs.faults == old(fs.faults) ==> forall r: Relative :: Path(top, r) !in fs.files
  {
    var rest := set p | p in fs.files && p.top == top;
    while rest != {}
      invariant fs.Valid() && fs.faults >= old(fs.faults)
      invariant forall p | p in rest :: p.top == top && p in fs.files
      invariant forall p: Path | p.top != top :: Lookup(fs.files, p) == old(Lookup(fs.files, p))
      invariant fs.faults == old(fs.faults) ==> forall r: Relative :: Path(top, r) in fs.files ==> Path(top, r) in rest
      decreases rest
    {
      var p :| p in rest;
      var removed := fs.Unlink(p);
      rest := rest - {p};
    }
  }

  /** top holds exactly what the receipt of plan owns. */
  ghost predicate Installed(host: Host, files: Files, dirs: Directories, top: string, plan: seq<Member>) {
    && Path(top, []) in dirs
    && Holds(host, files, top, ReceiptFor(host, plan))
    && OnlyOwned(files, dirs, top, Owned(ReceiptFor(host, plan)))
  }

  lemma InstalledByLookup(
    host: Host, files: Files, dirs: Directories, top: string, files': Files, dirs': Directories, top': string,
    plan: seq<Member>)
    requires forall r: Relative ::
               && Lookup(files', Path(top', r)) == Lookup(files, Path(top, r))
               && Lookup(dirs', Path(top', r)) == Lookup(dirs, Path(top, r))
    ensures Installed(host, files, dirs, top, plan) <==> Installed(host, files', dirs', top', plan)
    ensures NothingIn(files, dirs, top) <==> NothingIn(files', dirs', top')
  {
    var receipt := ReceiptFor(host, plan);
    forall r: Relative
      ensures Path(top', r) in files' <==> Path(top, r) in files
      ensures Path(top', r) in dirs' <==> Path(top, r) in dirs
      ensures Exists(files', dirs', Path(top', r)) <==> Exists(files, dirs, Path(top, r))
    {
      assert Lookup(files', Path(top', r)) == Lookup(files, Path(top, r));
    }
    forall e | e in receipt.files
      ensures EntryMatches(host, files', top', e) <==> EntryMatches(host, files, top, e)
    {
      assert Lookup(files', Path(top', e.path)) == Lookup(files, Path(top, e.path));
    }
    assert Lookup(files', Path(top', RECEIPT)) == Lookup(files, Path(top, RECEIPT));
  }

  lemma EmptyStage(files: Files, dirs: Directories, stage: string, root: Directory)
    requires NothingIn(files, dirs, stage)
    ensures forall r: Relative | r != [] :: !Exists(files, dirs[Path(stage, []) := root], Path(stage, r))
    ensures SameOutside(stage, files, dirs, files, dirs[Path(stage, []) := root])
  {
    forall r: Relative | r != []
      ensures !Exists(files, dirs[Path(stage, []) := root], Path(stage, r))
    {
      assert !Exists(files, dirs, Path(stage, r));
    }
  }

  /** Installs a validated bundle where nothing is installed yet. */
  method InstallFresh(fs: FileSystem, host: Host, t: Tops, plan: seq<Member>) returns (err: Option<Error>)
    requires fs.Valid() && t.Distinct() && Stageable(host, plan) && NothingIn(fs.files, fs.dirs, t.stage)
    requires !Exists(fs.files, fs.dirs, Path(t.target, []))
    modifies fs
    ensures fs.Valid() && fs.faults >= old(fs.faults)
    ensures forall p: Path | p.top != t.target && p.top != t.stage ::
              Lookup(fs.files, p) == old(Lookup(fs.files, p)) && Lookup(fs.dirs, p) == old(Lookup(fs.dirs, p))
    ensures if err.None? then Installed(host, fs.files, fs.dirs, t.target, plan) else NothingIn(fs.files, fs.dirs, t.target)
    ensures fs.faults == old(fs.faults) ==>
              (err.None? <==> !UsesReceiptAsDirectory(plan)) && NothingIn(fs.files, fs.dirs, t.stage)
  {
    hide WellFormed, Stageable, Installed, NothingIn, UsesReceiptAsDirectory, Holds, OnlyOwned;
    ghost var files, dirs := fs.files, fs.dirs;
    NoRootNoTree(files, dirs, t.target);
    var ok := fs.Mkdir(Path(t.stage, []));
    if !ok {
      NothingAtRoot(files, dirs, t.stage);
      return Some(OsError);
    }
    EmptyStage(files, dirs, t.stage, fs.dirs[Path(t.stage, [])]);
    ok := Stage(fs, host, t.stage, plan);
    InstalledByLookup(host, files, dirs, t.target, fs.files, fs.dirs, t.target, plan);
    ghost var staged, stagedDirs := fs.files, fs.dirs;
    if ok {
      HeldIsInstalled(host, staged, stagedDirs, t.stage, plan);
      NothingAtRoot(staged, stagedDirs, t.target);
      ok := fs.ReplaceTree(t.stage, t.target);
      if ok {
        InstalledByLookup(host, staged, stagedDirs, t.stage, fs.files, fs.dirs, t.target, plan);
      }
    }
    err := if ok then None else Some(InstallFailed);
    staged, stagedDirs := fs.files, fs.dirs;
    if Exists(fs.files, fs.dirs, Path(t.stage, [])) {
      RemoveTree(fs, t.stage);
    } else {
      NoRootNoTree(fs.files, fs.dirs, t.stage);
    }
    InstalledByLookup(host, staged, stagedDirs, t.target, fs.files, fs.dirs, t.target, plan);
  }

  lemma HeldIsInstalled(host: Host, files: Files, dirs: Directories, top: string, plan: seq<Member>)
    requires Holds(host, files, top, ReceiptFor(host, plan)) && Path(top, []) in dirs
    requires OnlyOwned(files, dirs, top, Owned(ReceiptFor(host, plan)))
    ensures Installed(host, files, dirs, top, plan)
  {}

  lemma NothingAtRoot(files: Files, dirs: Directories, top: string)
    requires NothingIn(files, dirs, top)
    ensures !Exists(files, dirs, Path(top, []))
  {}

  /** The installation that an upgrade replaces, and the state in which its files are replaced. */
  ghost predicate Replaceable(host: Host, files: Files, dirs: Directories, t: Tops, previous: Receipt) {
    Verified(host, files, dirs, t.target, None, previous) && NothingIn(files, dirs, t.backup)
  }

  lemma OwnVersion(host: Host, files: Files, dirs: Directories, top: string, receipt: Receipt)
    requires Verified(host, files, dirs, top, None, receipt)
    ensures Verified(host, files, dirs, top, Some(receipt.version), receipt)
  {}

  lemma StagingKeeps(
    host: Host, files: Files, dirs: Directories, files': Files, dirs': Directories, t: Tops,
    previous: VerifiedReceipt, next: Receipt)
    requires t.Distinct() && SameOutside(t.stage, files, dirs, files', dirs')
    requires Verified(host, files, dirs, t.target, None, previous.receipt)
    requires Capture(files, dirs, t.target, Paths(previous.receipt.files)) == Some(previous.ownership)
    ensures NothingIn(files, dirs, t.backup) <==> NothingIn(files', dirs', t.backup)
    ensures NothingIn(files, dirs, t.backup) ==> Upgradable(host, files', dirs', t, previous)
    ensures Installable(host, files, dirs, t, Owned(previous.receipt), next)
            <==> Installable(host, files', dirs', t, Owned(previous.receipt), next)
  {
    OwnVersion(host, files, dirs, t.target, previous.receipt);
    forall r: Relative
      ensures Lookup(files', Path(t.target, r)) == Lookup(files, Path(t.target, r))
      ensures Lookup(dirs', Path(t.target, r)) == Lookup(dirs, Path(t.target, r))
      ensures Exists(files', dirs', Path(t.backup, r)) == Exists(files, dirs, Path(t.backup, r))
    {
      assert Lookup(files', Path(t.backup, r)) == Lookup(files, Path(t.backup, r));
    }
    CaptureStable(files, dirs, files', dirs', t.target, Paths(previous.receipt.files));
    VerifiedByContent(
      host, files, dirs, files', dirs', t.target, Some(previous.receipt.version), previous.receipt);
    SameFreeness(files, dirs, files', dirs', t.target, Elements(Owned(previous.receipt)), Owned(next));
  }

  lemma SameFreeness(
    files: Files, dirs: Directories, files': Files, dirs': Directories, top: string, moved: set<Relative>,
    upcoming: seq<Relative>)
    requires forall r: Relative ::
               && Lookup(files', Path(top, r)) == Lookup(files, Path(top, r))
               && Lookup(dirs', Path(top, r)) == Lookup(dirs, Path(top, r))
    ensures AllFree(files, dirs, top, moved, upcoming) <==> AllFree(files', dirs', top, moved, upcoming)
  {
    forall r: Relative
      ensures Path(top, r) in files' <==> Path(top, r) in files
    {
      assert Lookup(files', Path(top, r)) == Lookup(files, Path(top, r));
    }
    forall r: Relative
      ensures Free(files, dirs, top, moved, r) <==> Free(files', dirs', top, moved, r)
    {
      assert Lookup(dirs', Path(top, r)) == Lookup(dirs, Path(top, r));
    }
  }

  /** Everything but the stage and the backup keeps its bytes and modes across staging, replacing and cleaning up. */
  lemma StageIsInvisible(
    t: Tops, files0: Files, dirs0: Directories, files1: Files, dirs1: Directories,
    files2: Files, dirs2: Directories, files3: Files, dirs3: Directories, owned: seq<Relative>, upcoming: seq<Relative>)
    requires t.Distinct()
    requires SameOutside(t.stage, files0, dirs0, files1, dirs1) && SameOutside(t.stage, files2, dirs2, files3, dirs3)
    ensures OthersKept(t, files1, owned, upcoming, files2) ==> OthersKept(t, files0, owned, upcoming, files3)
    ensures ContentsRestored(t, files1, files2) ==> ContentsRestored(t, files0, files3)
    ensures NothingIn(files2, dirs2, t.backup) <==> NothingIn(files3, dirs3, t.backup)
  {
    forall p: Path | p.top != t.stage
      ensures Lookup(files1, p) == Lookup(files0, p) && Lookup(files3, p) == Lookup(files2, p)
      ensures Exists(files3, dirs3, p) == Exists(files2, dirs2, p)
    {
      assert Lookup(dirs3, p) == Lookup(dirs2, p);
    }
    forall r: Relative
      ensures Exists(files3, dirs3, Path(t.backup, r)) == Exists(files2, dirs2, Path(t.backup, r))
    {}
  }

  /** No file that only the old version owned is left. */
  ghost predicate OldOnlyGone(t: Tops, owned: seq<Relative>, upcoming: seq<Relative>, files: Files) {
    forall r | r in owned && r !in upcoming :: Lookup(files, Path(t.target, r)).None?
  }

  lemma UpgradedMeansGone(t: Tops, start: Files, owned: seq<Relative>, upcoming: seq<Relative>, files: Files)
    requires Upgraded(t, start, owned, upcoming, files)
    ensures OldOnlyGone(t, owned, upcoming, files)
  {}

  /** DirectoriesChanged, but for the stage, of which a failing call may leave something. */
  ghost predicate DirectoriesKept(t: Tops, dirs: Directories, dirs': Directories, names: set<Relative>) {
    forall p: Path | p.top != t.backup && p.top != t.stage && !(p.top == t.target && p.rel in names) ::
      Lookup(dirs', p) == Lookup(dirs, p)
  }

  /** What staging and cleaning up leave of the target and of the directories elsewhere. */
  lemma TargetIsTheSame(
    t: Tops, dirs0: Directories, dirs1: Directories, files2: Files, dirs2: Directories, files3: Files, dirs3: Directories,
    files0: Files, files1: Files, owned: seq<Relative>, upcoming: seq<Relative>, rels: set<Relative>)
    requires t.Distinct()
    requires SameOutside(t.stage, files0, dirs0, files1, dirs1) && SameOutside(t.stage, files2, dirs2, files3, dirs3)
    ensures DirectoriesChanged(t, dirs1, dirs2, Parents(owned, upcoming)) ==>
              DirectoriesKept(t, dirs0, dirs3, Parents(owned, upcoming))
    ensures OldOnlyGone(t, owned, upcoming, files2) ==> OldOnlyGone(t, owned, upcoming, files3)
    ensures NoneLeftEmpty(files2, dirs2, t.target, rels) ==> NoneLeftEmpty(files3, dirs3, t.target, rels)
  {
    hide NoneLeftEmpty, Parents;
    forall r: Relative
      ensures Lookup(files3, Path(t.target, r)) == Lookup(files2, Path(t.target, r))
      ensures Lookup(dirs3, Path(t.target, r)) == Lookup(dirs2, Path(t.target, r))
    {}
    EmptinessStable(files2, dirs2, files3, dirs3, t.target, rels);
    forall p: Path | p.top != t.stage
      ensures Lookup(dirs1, p) == Lookup(dirs0, p) && Lookup(dirs3, p) == Lookup(dirs2, p)
    {}
  }

  lemma NothingKept(t: Tops, dirs: Directories, names: set<Relative>)
    ensures DirectoriesKept(t, dirs, dirs, names)
  {}

  /** Installs a validated bundle over an installation of an older or the same version. */
  method InstallOver(fs: FileSystem, host: Host, t: Tops, plan: seq<Member>)
    returns (err: Option<Error>, ghost previous: Receipt)
    requires fs.Valid() && t.Distinct() && Stageable(host, plan) && NothingIn(fs.files, fs.dirs, t.stage)
    requires FaithfulCodec(host)
    modifies fs
    ensures fs.Valid() && fs.faults >= old(fs.faults)
    ensures OthersKept(t, old(fs.files), Owned(previous), Owned(ReceiptFor(host, plan)), fs.files)
    ensures forall receipt :: old(Verified(host, fs.files, fs.dirs, t.target, None, receipt)) ==> previous == receipt
    ensures err.None? ==>
              && old(Verified(host, fs.files, fs.dirs, t.target, None, previous))
              && Verified(host, fs.files, fs.dirs, t.target, Some(host.version), ReceiptFor(host, plan))
              && OldOnlyGone(t, Owned(previous), Owned(ReceiptFor(host, plan)), fs.files)
              && NothingIn(fs.files, fs.dirs, t.backup)
    ensures DirectoriesKept(t, old(fs.dirs), fs.dirs, Parents(Owned(previous), Owned(ReceiptFor(host, plan))))
    ensures fs.faults == old(fs.faults) ==> NothingIn(fs.files, fs.dirs, t.stage)
    ensures fs.faults == old(fs.faults) && err.None? ==>
              NoneLeftEmpty(fs.files, fs.dirs, t.target, AncestorsOf(Paths(previous.files)))
    ensures err.Some? && err != Some(RecoveryRequired) ==>
              && ContentsRestored(t, old(fs.files), fs.files)
              && (old(NothingIn(fs.files, fs.dirs, t.backup)) ==> NothingIn(fs.files, fs.dirs, t.backup))
    ensures fs.faults == old(fs.faults) && old(Replaceable(host, fs.files, fs.dirs, t, previous)) ==>
              && err != Some(RecoveryRequired)
              && (err.None? <==>
                    && !UsesReceiptAsDirectory(plan)
                    && Installable(host, old(fs.files), old(fs.dirs), t, Owned(previous), ReceiptFor(host, plan)))
    ensures old(Replaceable(host, fs.files, fs.dirs, t, previous))
            && Installable(host, old(fs.files), old(fs.dirs), t, Owned(previous), ReceiptFor(host, plan))
            && err.Some? && fs.faults <= old(fs.faults) + 1
            ==> ContentsRestored(t, old(fs.files), fs.files) && (err == Some(RecoveryRequired) ==> Delicate(Owned(previous)))
  {
    hide WellFormed, Stageable, NothingIn, UsesReceiptAsDirectory, Holds, OnlyOwned, OthersKept, ContentsRestored,
      Installable, Capture, DirectoriesChanged, FaithfulCodec, Verified, Parents, SameOutside, DirectoriesKept,
      NoneLeftEmpty, AncestorsOf, Delicate, OldOnlyGone;
    ghost var files, dirs := fs.files, fs.dirs;
    var next := ReceiptFor(host, plan);
    previous := next;
    NothingDone(t, files, dirs, Owned(previous), Owned(next));
    NothingKept(t, dirs, Parents(Owned(previous), Owned(next)));
    var result := Verify(fs, host, t.target, None);
    if result.Failure? {
      return Some(result.error), previous;
    }
    previous := result.value.receipt;
    OneReceipt(host, files, dirs, t.target, None, previous);
    NothingDone(t, files, dirs, Owned(previous), Owned(next));
    NothingKept(t, dirs, Parents(Owned(previous), Owned(next)));
    var ok := fs.Mkdir(Path(t.stage, []));
    if !ok {
      NothingAtRoot(files, dirs, t.stage);
      return Some(OsError), previous;
    }
    EmptyStage(files, dirs, t.stage, fs.dirs[Path(t.stage, [])]);
    ghost var made := fs.dirs;
    ok := Stage(fs, host, t.stage, plan);
    SameOutsideTransitive(t.stage, files, dirs, files, made, fs.files, fs.dirs);
    StagingKeeps(host, files, dirs, fs.files, fs.dirs, t, result.value, next);
    ghost var staged, stagedDirs := fs.files, fs.dirs;
    NothingDone(t, staged, stagedDirs, Owned(previous), Owned(next));
    if ok {
      err := ReplaceOwnedInstall(fs, host, t, result.value, next);
      if err == Some(OsError) {
        err := Some(InstallFailed);
      }
    } else {
      err := Some(InstallFailed);
    }
    ghost var replaced, replacedDirs := fs.files, fs.dirs;
    if Exists(fs.files, fs.dirs, Path(t.stage, [])) {
      RemoveTree(fs, t.stage);
    } else {
      UntouchedOutside(t.stage, fs.files, fs.dirs);
      NoRootNoTree(fs.files, fs.dirs, t.stage);
    }
    StageIsInvisible(
      t, files, dirs, staged, stagedDirs, replaced, replacedDirs, fs.files, fs.dirs, Owned(previous), Owned(next));
    TargetIsTheSame(t, dirs, stagedDirs, replaced, replacedDirs, fs.files, fs.dirs, files, staged, Owned(previous), Owned(next),
                    AncestorsOf(Paths(previous.files)));
    if err.None? {
      UpgradedMeansGone(t, staged, Owned(previous), Owned(next), replaced);
    }
    StillVerified(host, replaced, replacedDirs, fs.files, fs.dirs, t, next);
  }

  lemma UntouchedOutside(top: string, files: Files, dirs: Directories)
    ensures SameOutside(top, files, dirs, files, dirs)
  {}

  lemma StillVerified(
    host: Host, files: Files, dirs: Directories, files': Files, dirs': Directories, t: Tops, receipt: Receipt)
    requires t.Distinct() && SameOutside(t.stage, files, dirs, files', dirs')
    ensures Verified(host, files, dirs, t.target, Some(host.version), receipt) ==>
              Verified(host, files', dirs', t.target, Some(host.version), receipt)
  {
    forall r: Relative
      ensures Lookup(files', Path(t.target, r)) == Lookup(files, Path(t.target, r))
      ensures Lookup(dirs', Path(t.target, r)) == Lookup(dirs, Path(t.target, r))
    {}
    if Verified(host, files, dirs, t.target, Some(host.version), receipt) {
      assert Lookup(dirs', Path(t.target, [])).Some?;
      VerifiedByContent(host, files, dirs, files', dirs', t.target, Some(host.version), receipt);
    }
  }

  lemma FreshVerifies(host: Host, files: Files, dirs: Directories, top: string, plan: seq<Member>)
    requires FaithfulCodec(host) && Installed(host, files, dirs, top, plan)
    ensures Verified(host, files, dirs, top, Some(host.version), ReceiptFor(host, plan))
            <==> |host.encode(ReceiptFor(host, plan))| <= MAX_RECEIPT_BYTES
    ensures |host.encode(ReceiptFor(host, plan))| > MAX_RECEIPT_BYTES ==>
              forall v, receipt :: !Verified(host, files, dirs, top, v, receipt)
  {
    HeldVerifies(host, files, dirs, top, ReceiptFor(host, plan));
  }

  /**
    An installation and its removal cancel out: if no call fails and the receipt can be read
    back, the target is as empty as before, and nothing is left beside it.
   */
  method InstallThenUninstall(fs: FileSystem, host: Host, t: Tops, plan: seq<Member>)
    returns (installed: Option<Error>, removed: Option<Error>)
    requires fs.Valid() && t.Distinct() && FaithfulCodec(host) && Stageable(host, plan)
    requires NothingIn(fs.files, fs.dirs, t.stage) && NothingIn(fs.files, fs.dirs, t.target)
    requires NothingIn(fs.files, fs.dirs, t.backup)
    modifies fs
    ensures fs.faults == old(fs.faults) ==>
              (installed.None? && removed.None? <==>
                 && !UsesReceiptAsDirectory(plan)
                 && |host.encode(ReceiptFor(host, plan))| <= MAX_RECEIPT_BYTES)
    ensures fs.faults == old(fs.faults) && installed.None? && removed.None? ==>
              && NothingIn(fs.files, fs.dirs, t.target)
              && NothingIn(fs.files, fs.dirs, t.backup)
    ensures fs.faults == old(fs.faults) && installed.None? && removed.None? ==>
              forall p: Path | p.top != t.target && p.top != t.backup && p.top != t.stage ::
                Lookup(fs.files, p) == old(Lookup(fs.files, p)) && Lookup(fs.dirs, p) == old(Lookup(fs.dirs, p))
  {
    hide WellFormed, Stageable, UsesReceiptAsDirectory, Holds, Verified, FaithfulCodec;
    NothingAtRoot(fs.files, fs.dirs, t.target);
    installed := InstallFresh(fs, host, t, plan);
    removed := None;
    if installed.Some? {
      return;
    }
    FreshVerifies(host, fs.files, fs.dirs, t.target, plan);
    ghost var faults := fs.faults;
    ghost var owned;
    assert NothingIn(fs.files, fs.dirs, t.backup) by {
      forall r: Relative
        ensures !Exists(fs.files, fs.dirs, Path(t.backup, r))
      {
        assert Lookup(fs.files, Path(t.backup, r)) == old(Lookup(fs.files, Path(t.backup, r)));
        assert !old(Exists(fs.files, fs.dirs, Path(t.backup, r)));
      }
    }
    removed, owned := UninstallOwned(fs, host, t.target, t.backup, Some(host.version));
  }
}
