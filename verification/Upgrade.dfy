/** Replacing an owned installation: move aside, publish, verify, retire; or roll back. */
module Upgrade {
  import opened Wrappers
  import opened FileSystems
  import opened Ownership
  import opened Receipts
  import opened Recovery

  datatype Tops = Tops(target: string, stage: string, backup: string) {
    predicate Distinct() {
      target != stage && target != backup && stage != backup
    }
  }

  function Elements(s: seq<Relative>): set<Relative> {
    set r | r in s
  }

  /** Where every file is once moved has been set aside and installed has been published. */
  function Placed(t: Tops, start: Files, moved: set<Relative>, installed: set<Relative>, p: Path): Option<File> {
    if p.top == t.target then
      if p.rel in installed then Lookup(start, Path(t.stage, p.rel))
      else if p.rel in moved then None
      else Lookup(start, p)
    else if p.top == t.backup && p.rel in moved then Lookup(start, Path(t.target, p.rel))
    else if p.top == t.stage && p.rel in installed then None
    else Lookup(start, p)
  }

  ghost predicate AllPlaced(t: Tops, start: Files, moved: set<Relative>, installed: set<Relative>, files: Files) {
    forall p :: Lookup(files, p) == Placed(t, start, moved, installed, p)
  }

  lemma MovedOneMore(t: Tops, start: Files, moved: set<Relative>, files: Files, rel: Relative)
    requires t.Distinct() && AllPlaced(t, start, moved, {}, files)
    requires Path(t.target, rel) in files && rel !in moved
    ensures AllPlaced(t, start, moved + {rel}, {},
                      files[Path(t.backup, rel) := files[Path(t.target, rel)]] - {Path(t.target, rel)})
  {
    var files' := files[Path(t.backup, rel) := files[Path(t.target, rel)]] - {Path(t.target, rel)};
    assert Lookup(files, Path(t.target, rel)) == Placed(t, start, moved, {}, Path(t.target, rel));
    forall p
      ensures Lookup(files', p) == Placed(t, start, moved + {rel}, {}, p)
    {
      assert Lookup(files, p) == Placed(t, start, moved, {}, p);
    }
  }

  lemma PublishedOneMore(
    t: Tops, start: Files, moved: set<Relative>, installed: set<Relative>, files: Files, rel: Relative)
    requires t.Distinct() && AllPlaced(t, start, moved, installed, files)
    requires Path(t.stage, rel) in files && rel !in installed
    ensures AllPlaced(t, start, moved, installed + {rel},
                      files[Path(t.target, rel) := files[Path(t.stage, rel)]] - {Path(t.stage, rel)})
  {
    var files' := files[Path(t.target, rel) := files[Path(t.stage, rel)]] - {Path(t.stage, rel)};
    assert Lookup(files, Path(t.stage, rel)) == Placed(t, start, moved, installed, Path(t.stage, rel));
    forall p
      ensures Lookup(files', p) == Placed(t, start, moved, installed + {rel}, p)
    {
      assert Lookup(files, p) == Placed(t, start, moved, installed, p);
    }
  }

  lemma NothingPlaced(t: Tops, start: Files)
    ensures AllPlaced(t, start, Elements([]), {}, start)
  {}

  lemma ElementsOfPrefix(s: seq<Relative>, n: nat)
    requires n < |s|
    ensures Elements(s[..n] + [s[n]]) == Elements(s[..n]) + {s[n]} && s[..n] + [s[n]] == s[..n + 1]
    ensures NoDuplicates(s) ==> s[n] !in Elements(s[..n])
  {}

  ghost predicate Movable(files: Files, dirs: Directories, top: string, rel: Relative, expected: Identities) {
    && SourceCurrent(files, dirs, top, rel, expected)
    && Path(top, rel) in files && Lookup(dirs, Path(top, rel)).None?
  }

  lemma StaysMovable(
    files: Files, files': Files, dirs: Directories, dirs': Directories, top: string, rel: Relative, expected: Identities)
    requires Movable(files, dirs, top, rel, expected)
    requires forall r: Relative :: Lookup(dirs', Path(top, r)) == Lookup(dirs, Path(top, r))
    requires Lookup(files', Path(top, rel)) == Lookup(files, Path(top, rel))
    requires WellFormed(files, dirs)
    ensures Movable(files', dirs', top, rel, expected)
  {
    forall d | d in expected && expected[d].DirectoryIdentity?
      ensures IdentityAt(files', dirs', Path(top, d)) == Some(expected[d])
    {
      assert IdentityAt(files, dirs, Path(top, d)) == Some(expected[d]);
    }
    assert Lookup(files', Path(top, rel)).Some?;
  }

  lemma AncestorsOfFile(files: Files, dirs: Directories, top: string, rel: Relative)
    requires WellFormed(files, dirs) && Path(top, rel) in files
    ensures AncestorsAreDirectories(dirs, top, rel)
    ensures rel != [] ==> Path(top, []) in dirs
  {
    assert Exists(files, dirs, Path(top, rel));
    forall i | 0 <= i < |rel|
      ensures Path(top, rel[..i]) in dirs
    {
      PrefixExists(files, dirs, top, rel, i);
    }
    if rel != [] {
      assert rel[..0] == [];
    }
  }

  lemma HasRoom(dirs: Directories, top: string, rel: Relative)
    requires rel != [] && Path(top, []) in dirs && AncestorsAreDirectories(dirs, top, rel)
    ensures HasParent(dirs, Path(top, rel))
  {
    if |rel| == 1 {
      assert rel[..0] == [];
    }
  }

  lemma ArrivalKeepsExact(
    files: Files, files': Files, dirs: Directories, top: string, rel: Relative, file: File, entries: Identities)
    requires Exact(files, dirs, top, entries) && Path(top, rel) !in dirs
    requires forall r: Relative ::
               Lookup(files', Path(top, r)) == if r == rel then Some(file) else Lookup(files, Path(top, r))
    ensures Exact(files', dirs, top, entries[rel := FileIdentityOf(file)])
  {
    forall r: Relative
      ensures IdentityAt(files', dirs, Path(top, r)) == Lookup(entries[rel := FileIdentityOf(file)], r)
    {
      assert IdentityAt(files, dirs, Path(top, r)) == Lookup(entries, r);
      assert Lookup(files', Path(top, r)) == if r == rel then Some(file) else Lookup(files, Path(top, r));
    }
  }

  lemma RootExists(files: Files, dirs: Directories, top: string, entries: Identities)
    requires HasRoot(entries) && Present(files, dirs, top, entries)
    ensures Path(top, []) in dirs
  {
    assert IdentityAt(files, dirs, Path(top, [])) == Some(entries[[]]);
  }

  method ReplaceIntoBackup(
    fs: FileSystem, t: Tops, rel: Relative, expected: Identities, ledger: RecoveryIdentity,
    ghost start: Files, ghost moved: set<Relative>)
    returns (err: Option<Error>)
    requires fs.Valid() && t.Distinct() && rel !in moved
    requires AllPlaced(t, start, moved, {}, fs.files)
    requires rel in expected && IdentityAt(fs.files, fs.dirs, Path(t.target, rel)) == Some(expected[rel])
    requires Path(t.target, rel) in fs.files && Lookup(fs.dirs, Path(t.target, rel)).None?
    requires HasRoot(ledger.entries) && Exact(fs.files, fs.dirs, t.backup, ledger.entries)
    requires !Exists(fs.files, fs.dirs, Path(t.backup, rel)) && HasParent(fs.dirs, Path(t.backup, rel))
    modifies fs`files, fs`faults, ledger`entries
    ensures fs.Valid()
    ensures forall p: Path | p.rel != rel :: Lookup(fs.files, p) == old(Lookup(fs.files, p))
    ensures AllPlaced(t, start, if err.None? then moved + {rel} else moved, {}, fs.files)
    ensures HasRoot(ledger.entries) && Exact(fs.files, fs.dirs, t.backup, ledger.entries)
    ensures Present(fs.files, fs.dirs, t.backup, ledger.entries) && ParentsExpected(ledger.entries)
    ensures old(ledger.entries).Keys <= ledger.entries.Keys
    ensures err.None? ==> fs.faults == old(fs.faults) && rel in ledger.entries
    ensures err.Some? ==> err == Some(OsError) && fs.faults == old(fs.faults) + 1
  {
    hide WellFormed, AllPlaced, ParentsExpected;
    var source, destination := Path(t.target, rel), Path(t.backup, rel);
    ghost var held := fs.files;
    ExactIsClosed(held, fs.dirs, t.backup, ledger.entries);
    assert IdentityAt(held, fs.dirs, destination) == Lookup(ledger.entries, rel);
    ExactMeansPresent(fs.files, fs.dirs, t.backup, ledger.entries);
    var ok := fs.Replace(source, destination);
    if !ok {
      return Some(OsError);
    }
    MovedOneMore(t, start, moved, held, rel);
    assert Lookup(fs.files, destination) == Some(held[source]);
    assert IdentityAt(fs.files, fs.dirs, destination) == Some(expected[rel]);
    if IdentityAt(fs.files, fs.dirs, destination) != Some(expected[rel]) {
      return Some(PluginDrift);
    }
    ArrivalKeepsExact(held, fs.files, fs.dirs, t.backup, rel, held[source], ledger.entries);
    ledger.entries := ledger.entries[rel := expected[rel]];
    ExactMeansPresent(fs.files, fs.dirs, t.backup, ledger.entries);
    ExactIsClosed(fs.files, fs.dirs, t.backup, ledger.entries);
    err := None;
  }

  /** The system lets one directory above rel be made, and then not the next. */
  ghost predicate Stuck(mkdirs: Path -> Habit, top: string, rel: Relative) {
    exists n: nat :: Blocked(mkdirs, top, rel, n)
  }

  /** Some file needs at least two directories that no file before it needs. */
  ghost predicate Delicate(rels: seq<Relative>) {
    exists i: nat {:trigger rels[i]} :: i < |rels| && NeedsTwo(AncestorsOf(rels[..i]), rels[i])
  }

  /** What is recorded of the files that have moved includes all directories above them. */
  lemma RecordedAncestors(entries: Identities, moved: seq<Relative>, rel: Relative)
    requires ParentsExpected(entries) && Elements(moved) <= entries.Keys && NeedsTwo(entries.Keys, rel)
    ensures NeedsTwo(AncestorsOf(moved), rel)
  {
    var k: nat :| 0 < k && k + 1 < |rel| && rel[..k] !in entries.Keys;
    if rel[..k] in AncestorsOf(moved) {
      var r, i :| r in moved && 0 < i < |r| && rel[..k] == r[..i];
      assert r in Elements(moved);
      AncestorsExpected(entries, r, i);
      assert false;
    }
  }

  lemma MovedIsDelicate(entries: Identities, rels: seq<Relative>, i: nat)
    requires i < |rels| && ParentsExpected(entries) && Elements(rels[..i]) <= entries.Keys && NeedsTwo(entries.Keys, rels[i])
    ensures Delicate(rels)
  {
    RecordedAncestors(entries, rels[..i], rels[i]);
  }

  method MoveOneAside(
    fs: FileSystem, t: Tops, rel: Relative, expected: Identities, ledger: RecoveryIdentity,
    ghost start: Files, ghost moved: set<Relative>)
    returns (err: Option<Error>)
    requires fs.Valid() && t.Distinct() && rel != [] && rel !in moved
    requires AllPlaced(t, start, moved, {}, fs.files) && Movable(fs.files, fs.dirs, t.target, rel, expected)
    requires HasRoot(ledger.entries) && Exact(fs.files, fs.dirs, t.backup, ledger.entries)
    requires NoFileAbove(fs.files, t.backup, rel) && !Exists(fs.files, fs.dirs, Path(t.backup, rel))
    modifies fs, ledger`entries
    ensures fs.Valid()
    ensures forall p: Path | p.rel != rel :: Lookup(fs.files, p) == old(Lookup(fs.files, p))
    ensures forall p: Path | Lookup(fs.dirs, p) != old(Lookup(fs.dirs, p)) :: p.rel < rel
    ensures AllPlaced(t, start, if err.None? then moved + {rel} else moved, {}, fs.files)
    ensures forall p: Path | p.top != t.backup :: Lookup(fs.dirs, p) == old(Lookup(fs.dirs, p))
    ensures HasRoot(ledger.entries) && Present(fs.files, fs.dirs, t.backup, ledger.entries)
    ensures ParentsExpected(ledger.entries)
    ensures old(ledger.entries).Keys <= ledger.entries.Keys
    ensures err.None? ==>
              && fs.faults == old(fs.faults) && rel in ledger.entries
              && Exact(fs.files, fs.dirs, t.backup, ledger.entries)
    ensures err.Some? ==> err != Some(RecoveryRequired) && fs.faults == old(fs.faults) + 1
    ensures err.Some? ==>
              Exact(fs.files, fs.dirs, t.backup, ledger.entries) || NeedsTwo(old(ledger.entries).Keys, rel)
    ensures Stuck(fs.mkdirs, t.backup, rel) && old(NothingAbove(fs.files, fs.dirs, t.backup, rel)) ==>
              err.Some? && !Exact(fs.files, fs.dirs, t.backup, ledger.entries)
  {
    hide WellFormed, Exact, Present, AllPlaced, NoFileAbove, ParentsExpected, NeedsTwo, NothingAbove;
    ExactIsClosed(fs.files, fs.dirs, t.backup, ledger.entries);
    ExactMeansPresent(fs.files, fs.dirs, t.backup, ledger.entries);
    AncestorsOfFile(fs.files, fs.dirs, t.target, rel);
    if !AncestorsAreDirectories(fs.dirs, t.target, rel) {
      return Some(PluginDrift);
    }
    ghost var before := fs.dirs;
    err := PrepareRecoveryDestination(fs, t.backup, rel, ledger);
    if err.Some? {
      return;
    }
    RootExists(fs.files, fs.dirs, t.backup, ledger.entries);
    StaysMovable(fs.files, fs.files, before, fs.dirs, t.target, rel, expected);
    if !SourceCurrent(fs.files, fs.dirs, t.target, rel, expected) {
      return Some(PluginDrift);
    }
    HasRoom(fs.dirs, t.backup, rel);
    err := ReplaceIntoBackup(fs, t, rel, expected, ledger, start, moved);
  }

  lemma SuffixAntichain(rels: seq<Relative>, n: nat)
    requires Antichain(rels) && n <= |rels|
    ensures Antichain(rels[n..])
  {
    forall r, s | r in rels[n..] && s in rels[n..]
      ensures !(r < s)
    {
      assert r in rels && s in rels;
    }
  }

  ghost predicate StillToMove(files: Files, dirs: Directories, t: Tops, rest: seq<Relative>, expected: Identities) {
    forall r | r in rest ::
      && Movable(files, dirs, t.target, r, expected)
      && !Exists(files, dirs, Path(t.backup, r))
      && NoFileAbove(files, t.backup, r)
  }

  lemma AllToMove(files: Files, dirs: Directories, t: Tops, owned: seq<Relative>, expected: Identities)
    requires WellFormed(files, dirs) && [] !in owned
    requires forall r | r in owned :: Movable(files, dirs, t.target, r, expected)
    requires forall r: Relative | r != [] :: !Exists(files, dirs, Path(t.backup, r))
    ensures StillToMove(files, dirs, t, owned, expected)
  {}

  lemma NextToMove(files: Files, dirs: Directories, t: Tops, rest: seq<Relative>, expected: Identities)
    requires StillToMove(files, dirs, t, rest, expected) && rest != []
    ensures Movable(files, dirs, t.target, rest[0], expected)
    ensures !Exists(files, dirs, Path(t.backup, rest[0])) && NoFileAbove(files, t.backup, rest[0])
  {
    assert rest[0] in rest;
  }

  lemma StillToMoveAfter(
    files: Files, dirs: Directories, files': Files, dirs': Directories,
    t: Tops, rest: seq<Relative>, expected: Identities)
    requires t.Distinct() && rest != [] && NoDuplicates(rest) && Antichain(rest) && WellFormed(files, dirs)
    requires StillToMove(files, dirs, t, rest, expected)
    requires forall p: Path | p.rel != rest[0] :: Lookup(files', p) == Lookup(files, p)
    requires forall p: Path | Lookup(dirs', p) != Lookup(dirs, p) :: p.top == t.backup && p.rel < rest[0]
    ensures StillToMove(files', dirs', t, rest[1..], expected)
  {
    forall r | r in rest[1..]
      ensures Movable(files', dirs', t.target, r, expected)
      ensures !Exists(files', dirs', Path(t.backup, r))
      ensures NoFileAbove(files', t.backup, r)
    {
      assert rest[0] in rest;
      assert r in rest && r != rest[0] && !(r < rest[0]) && !(rest[0] < r);
      StaysMovable(files, files', dirs, dirs', t.target, r, expected);
      assert Lookup(dirs', Path(t.backup, r)) == Lookup(dirs, Path(t.backup, r));
      forall i | 0 < i < |r|
        ensures Path(t.backup, r[..i]) !in files'
      {
        assert r[..i] != rest[0];
        assert Lookup(files', Path(t.backup, r[..i])) == Lookup(files, Path(t.backup, r[..i]));
      }
    }
  }

  /** Moves every owned file of the target into the backup, recording what went where. */
  method MoveAside(fs: FileSystem, t: Tops, owned: seq<Relative>, expected: Identities, ledger: RecoveryIdentity)
    returns (err: Option<Error>, moved: seq<Relative>)
    requires fs.Valid() && t.Distinct() && NoDuplicates(owned) && Antichain(owned) && [] !in owned
    requires HasRoot(ledger.entries) && Exact(fs.files, fs.dirs, t.backup, ledger.entries)
    requires forall r | r in owned :: Movable(fs.files, fs.dirs, t.target, r, expected)
    requires forall r: Relative | r != [] :: !Exists(fs.files, fs.dirs, Path(t.backup, r))
    modifies fs, ledger`entries
    ensures fs.Valid() && moved <= owned
    ensures AllPlaced(t, old(fs.files), Elements(moved), {}, fs.files)
    ensures forall p: Path | p.top != t.backup :: Lookup(fs.dirs, p) == old(Lookup(fs.dirs, p))
    ensures HasRoot(ledger.entries) && Present(fs.files, fs.dirs, t.backup, ledger.entries)
    ensures ParentsExpected(ledger.entries)
    ensures Elements(moved) <= ledger.entries.Keys
    ensures err.None? ==>
              && moved == owned && fs.faults == old(fs.faults)
              && Exact(fs.files, fs.dirs, t.backup, ledger.entries)
    ensures err.Some? ==> err != Some(RecoveryRequired) && fs.faults == old(fs.faults) + 1
    ensures err.Some? ==> Exact(fs.files, fs.dirs, t.backup, ledger.entries) || Delicate(owned)
    ensures owned != [] && Stuck(fs.mkdirs, t.backup, owned[0]) ==>
              err.Some? && !Exact(fs.files, fs.dirs, t.backup, ledger.entries)
  {
    hide WellFormed, Exact, Present, AllPlaced, Movable, ParentsExpected, NeedsTwo, Stuck, Delicate, AncestorsOf,
      StillToMove, NoFileAbove;
    moved := [];
    AllToMove(fs.files, fs.dirs, t, owned, expected);
    ExactIsClosed(fs.files, fs.dirs, t.backup, ledger.entries);
    ExactMeansPresent(fs.files, fs.dirs, t.backup, ledger.entries);
    NothingPlaced(t, fs.files);
    while |moved| < |owned|
      invariant fs.Valid() && moved <= owned && fs.faults == old(fs.faults)
      invariant AllPlaced(t, old(fs.files), Elements(moved), {}, fs.files)
      invariant forall p: Path | p.top != t.backup :: Lookup(fs.dirs, p) == old(Lookup(fs.dirs, p))
      invariant HasRoot(ledger.entries) && Exact(fs.files, fs.dirs, t.backup, ledger.entries)
      invariant Present(fs.files, fs.dirs, t.backup, ledger.entries) && ParentsExpected(ledger.entries)
      invariant Elements(moved) <= ledger.entries.Keys
      invariant StillToMove(fs.files, fs.dirs, t, owned[|moved|..], expected)
      invariant moved == [] ==> forall r: Relative | r != [] :: !Exists(fs.files, fs.dirs, Path(t.backup, r))
      invariant owned != [] && Stuck(fs.mkdirs, t.backup, owned[0]) ==> moved == []
    {
      var rel := owned[|moved|];
      assert moved == owned[..|moved|];
      SuffixAntichain(owned, |moved|);
      ghost var files, dirs, recorded := fs.files, fs.dirs, ledger.entries;
      NextToMove(files, dirs, t, owned[|moved|..], expected);
      ElementsOfPrefix(owned, |moved|);
      err := MoveOneAside(fs, t, rel, expected, ledger, old(fs.files), Elements(moved));
      if err.Some? {
        if NeedsTwo(recorded.Keys, rel) {
          MovedIsDelicate(recorded, owned, |moved|);
        }
        return;
      }
      StillToMoveAfter(files, dirs, fs.files, fs.dirs, t, owned[|moved|..], expected);
      moved := moved + [rel];
    }
    err := None;
  }

  lemma NoPrefixes(rel: Relative)
    ensures Prefixes(rel[..0]) == {}
  {}

  lemma OneMorePrefix(rel: Relative, i: nat)
    requires 0 < i <= |rel|
    ensures Prefixes(rel[..i]) == Prefixes(rel[..i - 1]) + {rel[..i]} && rel[..|rel|] == rel
  {
    forall k
      ensures k in Prefixes(rel[..i]) <==> k in Prefixes(rel[..i - 1]) || k == rel[..i]
    {
      PrefixMember(k, rel[..i]);
      PrefixMember(k, rel[..i - 1]);
      assert |k| < i ==> rel[..i][..|k|] == rel[..|k|] == rel[..i - 1][..|k|];
    }
    assert rel[..|rel|] == rel;
  }

  /** Records a published file and the directories above it. */
  method RecordOwnedDestination(fs: FileSystem, top: string, rel: Relative, ownership: Identities)
    returns (ok: bool, recorded: Identities)
    requires Present(fs.files, fs.dirs, top, ownership) && rel != []
    requires AncestorsAreDirectories(fs.dirs, top, rel) && Exists(fs.files, fs.dirs, Path(top, rel))
    ensures ok && Present(fs.files, fs.dirs, top, recorded)
    ensures recorded.Keys == ownership.Keys + Prefixes(rel)
  {
    hide Prefixes;
    recorded := ownership;
    var i := 1;
    NoPrefixes(rel);
    while i < |rel|
      invariant 1 <= i <= |rel|
      invariant Present(fs.files, fs.dirs, top, recorded)
      invariant recorded.Keys == ownership.Keys + Prefixes(rel[..i - 1])
    {
      OneMorePrefix(rel, i);
      var a := rel[..i];
      assert Lookup(fs.dirs, Path(top, a)).Some?;
      var observed := IdentityAt(fs.files, fs.dirs, Path(top, a)).value;
      if a !in recorded {
        recorded := recorded[a := observed];
      }
      if recorded[a] != observed {
        return false, recorded;
      }
      i := i + 1;
    }
    OneMorePrefix(rel, |rel|);
    recorded := recorded[rel := IdentityAt(fs.files, fs.dirs, Path(top, rel)).value];
    ok := SourceCurrent(fs.files, fs.dirs, top, rel, recorded);
  }

  /** Nothing stands where rel is to be published, and no file where its directories are needed. */
  ghost predicate Open(files: Files, dirs: Directories, top: string, rel: Relative) {
    NoFileAbove(files, top, rel) && !Exists(files, dirs, Path(top, rel))
  }

  method PublishOne(
    fs: FileSystem, t: Tops, rel: Relative, expected: Identities, ownership: Identities,
    ghost start: Files, ghost moved: set<Relative>, ghost installed: set<Relative>)
    returns (err: Option<Error>, recorded: Identities)
    requires fs.Valid() && t.Distinct() && rel != [] && rel !in installed
    requires AllPlaced(t, start, moved, installed, fs.files)
    requires Path(t.stage, rel) in fs.files && Path(t.target, []) in fs.dirs
    requires DirectoriesCurrent(fs.files, fs.dirs, t.target, expected)
    requires Present(fs.files, fs.dirs, t.target, ownership)
    modifies fs
    ensures fs.Valid() && old(fs.faults) <= fs.faults <= old(fs.faults) + 1
    ensures AllPlaced(t, start, moved, if err.None? then installed + {rel} else installed, fs.files)
    ensures forall p: Path | p.rel != rel :: Lookup(fs.files, p) == old(Lookup(fs.files, p))
    ensures GrownAbove(old(fs.dirs), fs.dirs, t.target, rel)
    ensures Present(fs.files, fs.dirs, t.target, recorded)
    ensures recorded.Keys == if err.None? then ownership.Keys + Prefixes(rel) else ownership.Keys
    ensures err.None? ==> fs.faults == old(fs.faults) && old(Open(fs.files, fs.dirs, t.target, rel))
    ensures err.Some? ==>
              if old(Open(fs.files, fs.dirs, t.target, rel)) then
                fs.faults == old(fs.faults) + 1 && err != Some(RecoveryRequired)
              else
                err == Some(PluginDrift)
  {
    hide WellFormed, AllPlaced, Present, DirectoriesCurrent, GrownAbove;
    recorded := ownership;
    AncestorsOfFile(fs.files, fs.dirs, t.stage, rel);
    if !AncestorsAreDirectories(fs.dirs, t.stage, rel) {
      return Some(PluginDrift), recorded;
    }
    ghost var before, held := fs.dirs, fs.files;
    var ok := PrepareOwnedDestination(fs, t.target, rel);
    GrowthSoFar(fs.files, before, fs.dirs, t.target, rel, expected, ownership);
    if !ok {
      return Some(PluginDrift), recorded;
    }
    if !DirectoriesCurrent(fs.files, fs.dirs, t.target, expected) {
      return Some(OsError), recorded;
    }
    var source, destination := Path(t.stage, rel), Path(t.target, rel);
    if Exists(fs.files, fs.dirs, destination) {
      return Some(PluginDrift), recorded;
    }
    HasRoom(fs.dirs, t.target, rel);
    ok := fs.Replace(source, destination);
    if !ok {
      return Some(OsError), recorded;
    }
    PublishedOneMore(t, start, moved, installed, held, rel);
    ArrivalKeepsPresent(held, fs.files, fs.dirs, t.target, rel, ownership);
    assert Lookup(fs.files, destination).Some?;
    ok, recorded := RecordOwnedDestination(fs, t.target, rel, ownership);
    err := None;
  }

  lemma GrowthKeepsIdentities(files: Files, dirs: Directories, dirs': Directories, top: string, rel: Relative)
    requires WellFormed(files, dirs) && WellFormed(files, dirs') && GrownAbove(dirs, dirs', top, rel)
    ensures forall p | Exists(files, dirs, p) :: IdentityAt(files, dirs', p) == IdentityAt(files, dirs, p)
    ensures forall p: Path | !IsAncestor(p.rel, rel) || p.top != top :: Lookup(dirs', p) == Lookup(dirs, p)
    ensures NoFileAbove(files, top, rel) || !AncestorsAreDirectories(dirs', top, rel)
  {
    forall p | Exists(files, dirs, p)
      ensures IdentityAt(files, dirs', p) == IdentityAt(files, dirs, p)
    {
      if p !in dirs {
        assert p in files && p !in dirs';
      }
    }
    if AncestorsAreDirectories(dirs', top, rel) {
      assert forall i | 0 < i < |rel| :: Path(top, rel[..i]) in dirs' && Path(top, rel[..i]) !in files;
    }
  }

  lemma GrowthSoFar(
    files: Files, dirs: Directories, dirs': Directories, top: string, rel: Relative,
    expected: Identities, ownership: Identities)
    requires WellFormed(files, dirs) && WellFormed(files, dirs') && GrownAbove(dirs, dirs', top, rel)
    requires DirectoriesCurrent(files, dirs, top, expected) && Present(files, dirs, top, ownership)
    ensures DirectoriesCurrent(files, dirs', top, expected) && Present(files, dirs', top, ownership)
    ensures Lookup(dirs', Path(top, rel)) == Lookup(dirs, Path(top, rel))
    ensures NoFileAbove(files, top, rel) || !AncestorsAreDirectories(dirs', top, rel)
  {
    hide WellFormed, GrownAbove, NoFileAbove, AncestorsAreDirectories;
    GrowthKeepsIdentities(files, dirs, dirs', top, rel);
  }

  lemma ArrivalKeepsPresent(
    files: Files, files': Files, dirs: Directories, top: string, rel: Relative, ownership: Identities)
    requires Present(files, dirs, top, ownership) && !Exists(files, dirs, Path(top, rel))
    requires forall r: Relative | r != rel :: Lookup(files', Path(top, r)) == Lookup(files, Path(top, r))
    ensures Present(files', dirs, top, ownership)
  {
    forall r | r in ownership
      ensures IdentityAt(files', dirs, Path(top, r)) == Some(ownership[r])
    {
      assert IdentityAt(files, dirs, Path(top, r)) == Some(ownership[r]);
    }
  }

  /** Once moved is out of the way, the target has room for rel: no foreign file and no directory is in its place. */
  ghost predicate Free(start: Files, dirs: Directories, top: string, moved: set<Relative>, rel: Relative) {
    && (forall i | 0 < i <= |rel| :: Path(top, rel[..i]) in start ==> rel[..i] in moved)
    && Path(top, rel) !in dirs
  }

  ghost predicate AllFree(start: Files, dirs: Directories, top: string, moved: set<Relative>, upcoming: seq<Relative>) {
    forall r | r in upcoming :: Free(start, dirs, top, moved, r)
  }

  /** dirs' has the directories of dirs, and others only where names allows. */
  ghost predicate GrownAmong(dirs: Directories, dirs': Directories, top: string, names: set<Relative>) {
    && (forall p | p in dirs :: p in dirs' && dirs'[p] == dirs[p])
    && (forall p | p in dirs' :: p in dirs || (p.top == top && p.rel in names))
  }

  lemma OpenMeansFree(
    t: Tops, start: Files, startDirs: Directories, moved: set<Relative>, upcoming: seq<Relative>, n: nat,
    files: Files, dirs: Directories)
    requires t.Distinct() && n < |upcoming| && NoDuplicates(upcoming) && Antichain(upcoming) && [] !in upcoming
    requires AllPlaced(t, start, moved, Elements(upcoming[..n]), files)
    requires GrownAmong(startDirs, dirs, t.target, AncestorsOf(upcoming))
    ensures Open(files, dirs, t.target, upcoming[n]) <==> Free(start, startDirs, t.target, moved, upcoming[n])
  {
    var rel := upcoming[n];
    ElementsOfPrefix(upcoming, n);
    assert rel in upcoming;
    forall i | 0 < i <= |rel|
      ensures Path(t.target, rel[..i]) in files <==> Path(t.target, rel[..i]) in start && rel[..i] !in moved
    {
      assert rel[..i] == rel || rel[..i] < rel;
      assert forall r | r in Elements(upcoming[..n]) :: r in upcoming;
      assert Lookup(files, Path(t.target, rel[..i]))
          == Placed(t, start, moved, Elements(upcoming[..n]), Path(t.target, rel[..i]));
    }
    assert rel[..|rel|] == rel;
    AncestorsOfMember(upcoming, rel);
  }

  lemma NothingPublishedYet(files: Files, dirs: Directories, t: Tops, names: set<Relative>, expected: Identities)
    requires HasRoot(expected) && DirectoriesCurrent(files, dirs, t.target, expected)
    ensures Elements([]) == {} && PathsTo([]) == {} && GrownAmong(dirs, dirs, t.target, names)
    ensures Path(t.target, []) in dirs && Present(files, dirs, t.target, map[[] := expected[[]]])
  {
    assert IdentityAt(files, dirs, Path(t.target, [])) == Some(expected[[]]);
    PathsToOneMore([], []);
  }

  /** Moves the staged files into the target, as far as nothing is in the way. */
  method Publish(
    fs: FileSystem, t: Tops, upcoming: seq<Relative>, expected: Identities,
    ghost start: Files, ghost moved: set<Relative>)
    returns (err: Option<Error>, installed: seq<Relative>, ownership: Identities)
    requires fs.Valid() && t.Distinct()
    requires NoDuplicates(upcoming) && Antichain(upcoming) && [] !in upcoming
    requires AllPlaced(t, start, moved, {}, fs.files)
    requires forall r | r in upcoming :: Path(t.stage, r) in fs.files
    requires HasRoot(expected) && DirectoriesCurrent(fs.files, fs.dirs, t.target, expected)
    modifies fs
    ensures fs.Valid() && fs.faults >= old(fs.faults) && installed <= upcoming
    ensures AllPlaced(t, start, moved, Elements(installed), fs.files)
    ensures GrownAmong(old(fs.dirs), fs.dirs, t.target, AncestorsOf(upcoming))
    ensures Present(fs.files, fs.dirs, t.target, ownership) && ownership.Keys == {[]} + PathsTo(installed)
    ensures AllFree(start, old(fs.dirs), t.target, moved, installed)
    ensures err.None? ==>
              && installed == upcoming && fs.faults == old(fs.faults)
              && AllFree(start, old(fs.dirs), t.target, moved, upcoming)
    ensures err.Some? ==>
              && err != Some(RecoveryRequired)
              && if AllFree(start, old(fs.dirs), t.target, moved, upcoming) then fs.faults == old(fs.faults) + 1
                 else fs.faults <= old(fs.faults) + 1
  {
    hide WellFormed, AllPlaced, Free, Open, Present, DirectoriesCurrent, GrownAmong, GrownAbove, PathsTo, Prefixes, AncestorsOf;
    installed, ownership := [], map[[] := expected[[]]];
    NothingPublishedYet(fs.files, fs.dirs, t, AncestorsOf(upcoming), expected);
    while |installed| < |upcoming|
      invariant fs.Valid() && installed <= upcoming && fs.faults == old(fs.faults)
      invariant AllPlaced(t, start, moved, Elements(installed), fs.files)
      invariant GrownAmong(old(fs.dirs), fs.dirs, t.target, AncestorsOf(upcoming))
      invariant Present(fs.files, fs.dirs, t.target, ownership) && ownership.Keys == {[]} + PathsTo(installed)
      invariant Path(t.target, []) in fs.dirs && DirectoriesCurrent(fs.files, fs.dirs, t.target, expected)
      invariant forall k | |installed| <= k < |upcoming| :: Lookup(fs.files, Path(t.stage, upcoming[k])).Some?
      invariant forall k | 0 <= k < |installed| :: Free(start, old(fs.dirs), t.target, moved, upcoming[k])
    {
      var rel := upcoming[|installed|];
      assert rel in upcoming && installed == upcoming[..|installed|];
      ElementsOfPrefix(upcoming, |installed|);
      OpenMeansFree(t, start, old(fs.dirs), moved, upcoming, |installed|, fs.files, fs.dirs);
      ghost var files, dirs := fs.files, fs.dirs;
      err, ownership := PublishOne(fs, t, rel, expected, ownership, start, moved, Elements(installed));
      GrowthAmong(old(fs.dirs), dirs, fs.dirs, t.target, rel, upcoming);
      if err.Some? {
        return;
      }
      DirectoriesStayCurrent(files, dirs, fs.files, fs.dirs, t.target, rel, expected);
      PathsToOneMore(installed, rel);
      installed := installed + [rel];
    }
    err := None;
  }

  lemma GrowthAmong(
    dirs: Directories, dirs': Directories, dirs'': Directories, top: string, rel: Relative, upcoming: seq<Relative>)
    requires GrownAmong(dirs, dirs', top, AncestorsOf(upcoming)) && GrownAbove(dirs', dirs'', top, rel)
    requires rel in upcoming
    ensures GrownAmong(dirs, dirs'', top, AncestorsOf(upcoming))
  {
    forall p | p in dirs'' && IsAncestor(p.rel, rel)
      ensures p.rel in AncestorsOf(upcoming)
    {
      AncestorsOfMember(upcoming, p.rel);
    }
  }

  lemma DirectoriesStayCurrent(
    files: Files, dirs: Directories, files': Files, dirs': Directories, top: string, rel: Relative, expected: Identities)
    requires HasRoot(expected) && DirectoriesCurrent(files, dirs, top, expected)
    requires GrownAbove(dirs, dirs', top, rel)
    ensures DirectoriesCurrent(files', dirs', top, expected) && Path(top, []) in dirs'
  {
    assert IdentityAt(files, dirs, Path(top, [])) == Some(expected[[]]);
    forall d | d in expected && expected[d].DirectoryIdentity?
      ensures IdentityAt(files', dirs', Path(top, d)) == Some(expected[d])
    {
      assert IdentityAt(files, dirs, Path(top, d)) == Some(expected[d]);
    }
  }

  lemma PruningKeepsPresent(
    files: Files, dirs: Directories, dirs': Directories, top: string, gone: set<Relative>,
    installed: seq<Relative>, ownership: Identities)
    requires WellFormed(files, dirs) && WellFormed(files, dirs') && ShrunkTo(dirs, dirs', top, gone)
    requires Present(files, dirs, top, ownership) && ownership.Keys == {[]} + PathsTo(installed) && [] !in gone
    requires forall r | r in installed :: Path(top, r) in files
    ensures Present(files, dirs', top, ownership)
  {
    forall k | k in ownership
      ensures IdentityAt(files, dirs', Path(top, k)) == Some(ownership[k])
    {
      assert IdentityAt(files, dirs, Path(top, k)) == Some(ownership[k]);
      if k != [] {
        var r :| r in installed && k in Prefixes(r);
        var i :| 0 < i <= |r| && k == r[..i];
        assert Exists(files, dirs', Path(top, r));
        PrefixExists(files, dirs', top, r, i);
      }
    }
  }

  lemma PresentIsCapture(files: Files, dirs: Directories, top: string, rels: seq<Relative>, ownership: Identities)
    requires Present(files, dirs, top, ownership) && ownership.Keys == OwnedKeys(rels)
    ensures Capture(files, dirs, top, rels) == Some(ownership)
  {
    assert forall k | k in OwnedKeys(rels) :: IdentityAt(files, dirs, Path(top, k)) == Some(ownership[k]);
    assert Capture(files, dirs, top, rels).value == ownership;
  }

  /** Prunes what the old version left behind and verifies the new one before the backup may go. */
  method VerifyPublication(
    fs: FileSystem, host: Host, t: Tops, previous: seq<Relative>, next: Receipt, ownership: Identities,
    ledger: RecoveryIdentity)
    returns (err: Option<Error>)
    requires fs.Valid() && FaithfulCodec(host) && Holds(host, fs.files, t.target, next)
    requires Present(fs.files, fs.dirs, t.target, ownership) && ownership.Keys == OwnedKeys(Paths(next.files))
    requires Path(t.target, []) in fs.dirs
    requires ledger.publishedTarget == t.target && ledger.publishedRelatives == Paths(next.files)
    modifies fs`dirs, fs`faults, ledger`publishedIdentity, ledger`guardActive
    ensures fs.Valid() && fs.faults >= old(fs.faults)
    ensures ShrunkTo(old(fs.dirs), fs.dirs, t.target, AncestorsOf(previous))
    ensures fs.faults == old(fs.faults) ==> NoneLeftEmpty(fs.files, fs.dirs, t.target, AncestorsOf(previous))
    ensures Present(fs.files, fs.dirs, t.target, ownership)
    ensures err.None? <==> |host.encode(next)| <= MAX_RECEIPT_BYTES
    ensures err.None? ==> ledger.guardActive && ledger.PublishedCurrent(fs.files, fs.dirs)
    ensures err.Some? ==> err != Some(RecoveryRequired) && ledger.guardActive == old(ledger.guardActive)
  {
    hide WellFormed, Capture, Holds, ShrunkTo, Verified, PathsTo, NoneLeftEmpty, AncestorsOf;
    ghost var before := fs.dirs;
    PruneEmptyOwnedDirectories(fs, t.target, previous);
    PublicationSurvivesPruning(fs.files, before, fs.dirs, host, t.target, previous, next, ownership);
    HeldVerifies(host, fs.files, fs.dirs, t.target, next);
    var result := Verify(fs, host, t.target, Some(host.version));
    if result.Failure? {
      return Some(result.error);
    }
    VerifiedReceiptIsUnique(host, fs.files, fs.dirs, t.target, Some(host.version), result.value.receipt, next);
    if result.value.receipt != next || result.value.ownership != ownership {
      return Some(PluginDrift);
    }
    ledger.publishedIdentity, ledger.guardActive := ownership, true;
    err := if ledger.PublishedCurrent(fs.files, fs.dirs) then None else Some(PluginDrift);
  }

  lemma PublicationSurvivesPruning(
    files: Files, dirs: Directories, dirs': Directories, host: Host, top: string,
    previous: seq<Relative>, next: Receipt, ownership: Identities)
    requires WellFormed(files, dirs) && WellFormed(files, dirs')
    requires ShrunkTo(dirs, dirs', top, AncestorsOf(previous)) && Holds(host, files, top, next)
    requires Present(files, dirs, top, ownership) && ownership.Keys == OwnedKeys(Paths(next.files))
    requires Path(top, []) in dirs
    ensures Present(files, dirs', top, ownership) && Capture(files, dirs', top, Paths(next.files)) == Some(ownership)
    ensures Path(top, []) in dirs'
  {
    AncestorsOfMember(previous, []);
    OwnedIsSeparate(host, files, dirs, top, next);
    PruningKeepsPresent(files, dirs, dirs', top, AncestorsOf(previous), Owned(next), ownership);
    PresentIsCapture(files, dirs', top, Paths(next.files), ownership);
  }

  lemma VerifiedReceiptIsUnique(
    host: Host, files: Files, dirs: Directories, top: string, v: Option<Version>, r: Receipt, s: Receipt)
    requires Verified(host, files, dirs, top, v, r)
    ensures Verified(host, files, dirs, top, v, s) ==> r == s
  {}

  /** AllPlaced, but for the backup, which a retirement may have rebuilt or taken away. */
  ghost predicate PlacedOutsideBackup(
    t: Tops, start: Files, moved: set<Relative>, installed: set<Relative>, files: Files)
  {
    forall p: Path | p.top != t.backup :: Lookup(files, p) == Placed(t, start, moved, installed, p)
  }

  /** Outside the backup only directories of the target that names lists have come or gone. */
  ghost predicate DirectoriesChanged(t: Tops, dirs: Directories, dirs': Directories, names: set<Relative>) {
    forall p: Path | p.top != t.backup && !(p.top == t.target && p.rel in names) :: Lookup(dirs', p) == Lookup(dirs, p)
  }

  function Parents(owned: seq<Relative>, upcoming: seq<Relative>): set<Relative> {
    AncestorsOf(owned) + AncestorsOf(upcoming)
  }

  /** The upgrade can be published: nothing foreign is in its way and its receipt can be read back. */
  ghost predicate Installable(
    host: Host, start: Files, dirs: Directories, t: Tops, owned: seq<Relative>, next: Receipt)
  {
    && AllFree(start, dirs, t.target, Elements(owned), Owned(next))
    && |host.encode(next)| <= MAX_RECEIPT_BYTES
  }

  /** What has to hold of the tree when the files start moving. */
  ghost predicate Prepared(
    host: Host, files: Files, dirs: Directories, t: Tops, previous: VerifiedReceipt, next: Receipt,
    entries: Identities)
  {
    && t.Distinct() && FaithfulCodec(host)
    && Verified(host, files, dirs, t.target, Some(previous.receipt.version), previous.receipt)
    && Capture(files, dirs, t.target, Paths(previous.receipt.files)) == Some(previous.ownership)
    && Holds(host, files, t.stage, next)
    && HasRoot(entries) && entries.Keys == {[]} && Exact(files, dirs, t.backup, entries)
  }

  lemma CapturedIsMovable(
    files: Files, dirs: Directories, top: string, rels: seq<Relative>, expected: Identities)
    requires WellFormed(files, dirs) && Path(top, []) in dirs
    requires Capture(files, dirs, top, rels) == Some(expected)
    requires forall r | r in rels + [RECEIPT] :: Path(top, r) in files && r != []
    ensures HasRoot(expected) && Present(files, dirs, top, expected) && DirectoriesCurrent(files, dirs, top, expected)
    ensures forall r | r in rels + [RECEIPT] :: Movable(files, dirs, top, r, expected)
  {
    assert [] in OwnedKeys(rels);
    forall r | r in rels + [RECEIPT]
      ensures r in expected
    {
      PrefixMember(r, r);
    }
  }

  lemma OnlyRoot(files: Files, dirs: Directories, top: string, entries: Identities)
    requires entries.Keys == {[]} && Exact(files, dirs, top, entries)
    ensures forall r: Relative | r != [] :: !Exists(files, dirs, Path(top, r))
  {
    forall r: Relative | r != []
      ensures !Exists(files, dirs, Path(top, r))
    {
      assert IdentityAt(files, dirs, Path(top, r)) == Lookup(entries, r);
    }
  }

  lemma TreeStable(files: Files, dirs: Directories, files': Files, dirs': Directories, top: string)
    requires forall r: Relative ::
               && Lookup(files', Path(top, r)) == Lookup(files, Path(top, r))
               && Lookup(dirs', Path(top, r)) == Lookup(dirs, Path(top, r))
    ensures forall e :: Present(files, dirs, top, e) <==> Present(files', dirs', top, e)
    ensures forall e :: Exact(files, dirs, top, e) <==> Exact(files', dirs', top, e)
    ensures forall e :: DirectoriesCurrent(files, dirs, top, e) <==> DirectoriesCurrent(files', dirs', top, e)
  {
    forall r: Relative
      ensures IdentityAt(files', dirs', Path(top, r)) == IdentityAt(files, dirs, Path(top, r))
    {
      assert Lookup(files', Path(top, r)) == Lookup(files, Path(top, r));
    }
  }

  lemma PublishingSparesBackup(
    t: Tops, start: Files, moved: set<Relative>, installed: set<Relative>,
    files: Files, dirs: Directories, files': Files, dirs': Directories, names: set<Relative>)
    requires t.Distinct() && AllPlaced(t, start, moved, {}, files) && AllPlaced(t, start, moved, installed, files')
    requires GrownAmong(dirs, dirs', t.target, names)
    ensures forall r: Relative ::
              && Lookup(files', Path(t.backup, r)) == Lookup(files, Path(t.backup, r))
              && Lookup(dirs', Path(t.backup, r)) == Lookup(dirs, Path(t.backup, r))
  {
    forall r: Relative
      ensures Lookup(files', Path(t.backup, r)) == Lookup(files, Path(t.backup, r))
    {
      assert Lookup(files, Path(t.backup, r)) == Placed(t, start, moved, {}, Path(t.backup, r));
      assert Lookup(files', Path(t.backup, r)) == Placed(t, start, moved, installed, Path(t.backup, r));
    }
  }

  lemma MovingSparesTarget(t: Tops, dirs: Directories, dirs': Directories, names: set<Relative>)
    requires t.Distinct() && forall p: Path | p.top != t.backup :: Lookup(dirs', p) == Lookup(dirs, p)
    ensures DirectoriesChanged(t, dirs, dirs', names)
  {}

  lemma PublishingChanges(t: Tops, dirs: Directories, dirs': Directories, dirs'': Directories, owned: seq<Relative>, upcoming: seq<Relative>)
    requires DirectoriesChanged(t, dirs, dirs', Parents(owned, upcoming))
    requires GrownAmong(dirs', dirs'', t.target, AncestorsOf(upcoming))
    ensures DirectoriesChanged(t, dirs, dirs'', Parents(owned, upcoming))
  {
    forall p: Path | p.top != t.backup && !(p.top == t.target && p.rel in Parents(owned, upcoming))
      ensures Lookup(dirs'', p) == Lookup(dirs, p)
    {
      assert Lookup(dirs', p) == Lookup(dirs, p);
    }
  }

  lemma StagedStillThere(
    t: Tops, start: Files, moved: set<Relative>, files: Files, upcoming: seq<Relative>)
    requires t.Distinct() && AllPlaced(t, start, moved, {}, files)
    requires forall r | r in upcoming :: Path(t.stage, r) in start
    ensures forall r | r in upcoming :: Path(t.stage, r) in files
  {
    forall r | r in upcoming
      ensures Lookup(files, Path(t.stage, r)).Some?
    {
      assert Lookup(files, Path(t.stage, r)) == Placed(t, start, moved, {}, Path(t.stage, r));
    }
  }

  lemma SameFree(
    start: Files, dirs: Directories, dirs': Directories, top: string, moved: set<Relative>, upcoming: seq<Relative>)
    requires forall r: Relative :: Lookup(dirs', Path(top, r)) == Lookup(dirs, Path(top, r))
    ensures AllFree(start, dirs, top, moved, upcoming) <==> AllFree(start, dirs', top, moved, upcoming)
  {
    forall r: Relative
      ensures Free(start, dirs, top, moved, r) <==> Free(start, dirs', top, moved, r)
    {
      assert Lookup(dirs', Path(top, r)) == Lookup(dirs, Path(top, r));
    }
  }

  lemma NothingFreeYet(start: Files, dirs: Directories, top: string)
    ensures forall moved: set<Relative> :: AllFree(start, dirs, top, moved, [])
  {}

  method MoveAndPublish(
    fs: FileSystem, host: Host, t: Tops, previous: VerifiedReceipt, next: Receipt, ledger: RecoveryIdentity)
    returns (err: Option<Error>, moved: seq<Relative>, installed: seq<Relative>, ownership: Identities)
    requires fs.Valid() && Prepared(host, fs.files, fs.dirs, t, previous, next, ledger.entries)
    modifies fs, ledger`entries
    ensures fs.Valid() && fs.faults >= old(fs.faults)
    ensures moved <= Owned(previous.receipt) && installed <= Owned(next)
    ensures AllPlaced(t, old(fs.files), Elements(moved), Elements(installed), fs.files)
    ensures DirectoriesChanged(t, old(fs.dirs), fs.dirs, Parents(Owned(previous.receipt), Owned(next)))
    ensures Present(fs.files, fs.dirs, t.target, ownership) && ownership.Keys == {[]} + PathsTo(installed)
    ensures AllFree(old(fs.files), old(fs.dirs), t.target, Elements(moved), installed)
    ensures HasRoot(ledger.entries) && Present(fs.files, fs.dirs, t.backup, ledger.entries)
    ensures ParentsExpected(ledger.entries)
    ensures Elements(moved) <= ledger.entries.Keys
    ensures fs.faults == old(fs.faults) ==> Exact(fs.files, fs.dirs, t.backup, ledger.entries)
    ensures Exact(fs.files, fs.dirs, t.backup, ledger.entries) || Delicate(Owned(previous.receipt))
    ensures Stuck(fs.mkdirs, t.backup, Owned(previous.receipt)[0]) ==>
              err.Some? && fs.faults == old(fs.faults) + 1 && !Exact(fs.files, fs.dirs, t.backup, ledger.entries)
    ensures err.None? ==>
              && moved == Owned(previous.receipt) && installed == Owned(next) && fs.faults == old(fs.faults)
              && AllFree(old(fs.files), old(fs.dirs), t.target, Elements(Owned(previous.receipt)), Owned(next))
    ensures err.Some? ==>
              && err != Some(RecoveryRequired) && fs.faults <= old(fs.faults) + 1
              && (AllFree(old(fs.files), old(fs.dirs), t.target, Elements(Owned(previous.receipt)), Owned(next)) ==>
                    fs.faults == old(fs.faults) + 1)
  {
    hide WellFormed, AllPlaced, Present, Exact, DirectoriesCurrent, Capture, Movable, DirectoriesChanged, GrownAmong,
      AllFree, PathsTo, Parents, Elements, WellShaped, Antichain, NoDuplicates, ParentsExpected, Stuck, Delicate;
    ghost var start, startDirs := fs.files, fs.dirs;
    var owned, upcoming := Owned(previous.receipt), Owned(next);
    var expected := previous.ownership;
    OwnedIsSeparate(host, start, startDirs, t.target, previous.receipt);
    OwnedIsSeparate(host, start, startDirs, t.stage, next);
    CapturedIsMovable(start, startDirs, t.target, Paths(previous.receipt.files), expected);
    OnlyRoot(start, startDirs, t.backup, ledger.entries);
    installed, ownership := [], map[[] := expected[[]]];
    NothingFreeYet(start, startDirs, t.target);
    err, moved := MoveAside(fs, t, owned, expected, ledger);
    ghost var files, dirs := fs.files, fs.dirs;
    DirectoriesIgnoreFiles(start, startDirs, files, dirs, t.target, expected);
    NothingPublishedYet(fs.files, fs.dirs, t, {}, expected);
    MovingSparesTarget(t, startDirs, fs.dirs, Parents(owned, upcoming));
    if err.Some? {
      return;
    }
    StagedStillThere(t, start, Elements(moved), fs.files, upcoming);
    SameFree(start, startDirs, fs.dirs, t.target, Elements(owned), upcoming);
    err, installed, ownership := Publish(fs, t, upcoming, expected, start, Elements(moved));
    PublishingSparesBackup(t, start, Elements(moved), Elements(installed), files, dirs, fs.files, fs.dirs, AncestorsOf(upcoming));
    TreeStable(files, dirs, fs.files, fs.dirs, t.backup);
    SameFree(start, startDirs, dirs, t.target, Elements(moved), installed);
    PublishingChanges(t, startDirs, dirs, fs.dirs, owned, upcoming);
  }

  lemma DirectoriesIgnoreFiles(
    files: Files, dirs: Directories, files': Files, dirs': Directories, top: string, expected: Identities)
    requires DirectoriesCurrent(files, dirs, top, expected)
    requires forall r: Relative :: Lookup(dirs', Path(top, r)) == Lookup(dirs, Path(top, r))
    ensures DirectoriesCurrent(files', dirs', top, expected)
  {
    forall d | d in expected && expected[d].DirectoryIdentity?
      ensures IdentityAt(files', dirs', Path(top, d)) == Some(expected[d])
    {
      assert IdentityAt(files, dirs, Path(top, d)) == Some(expected[d]);
    }
  }

  lemma PublishedHolds(host: Host, t: Tops, start: Files, moved: set<Relative>, files: Files, next: Receipt)
    requires t.Distinct() && Holds(host, start, t.stage, next)
    requires AllPlaced(t, start, moved, Elements(Owned(next)), files)
    ensures Holds(host, files, t.target, next)
  {
    forall r | r in Owned(next)
      ensures Lookup(files, Path(t.target, r)) == Lookup(start, Path(t.stage, r))
    {
      assert Lookup(files, Path(t.target, r)) == Placed(t, start, moved, Elements(Owned(next)), Path(t.target, r));
    }
    forall e | e in next.files
      ensures EntryMatches(host, files, t.target, e)
    {
      PathOfEntry(next.files, e);
    }
    assert RECEIPT in Owned(next);
  }

  lemma PathOfEntry(entries: seq<Entry>, e: Entry)
    requires e in entries
    ensures e.path in Paths(entries)
  {
    var i :| 0 <= i < |entries| && entries[i] == e;
    assert Paths(entries)[i] == e.path;
  }

  lemma PruningChanges(
    t: Tops, dirs: Directories, dirs': Directories, dirs'': Directories, gone: set<Relative>, names: set<Relative>)
    requires t.Distinct() && DirectoriesChanged(t, dirs, dirs', names) && ShrunkTo(dirs', dirs'', t.target, gone)
    requires gone <= names
    ensures DirectoriesChanged(t, dirs, dirs'', names)
    ensures forall r: Relative :: Lookup(dirs'', Path(t.backup, r)) == Lookup(dirs', Path(t.backup, r))
  {
    forall p: Path | !(p.top == t.target && p.rel in names)
      ensures Lookup(dirs'', p) == Lookup(dirs', p)
    {}
  }

  lemma ParentsInclude(receipt: Receipt, upcoming: seq<Relative>)
    ensures AncestorsOf(Paths(receipt.files)) <= Parents(Owned(receipt), upcoming)
  {}

  /** Every file set aside is small enough to be kept in memory while its backup is retired. */
  lemma BackupIsSmall(
    host: Host, t: Tops, start: Files, dirs: Directories, v: Option<Version>, receipt: Receipt,
    moved: seq<Relative>, installed: set<Relative>, files: Files)
    requires t.Distinct() && Verified(host, start, dirs, t.target, v, receipt) && moved <= Owned(receipt)
    requires AllPlaced(t, start, Elements(moved), installed, files)
    requires forall r: Relative :: Path(t.backup, r) !in start
    ensures SmallFiles(files, t.backup)
  {
    forall rel: Relative | Lookup(files, Path(t.backup, rel)).Some?
      ensures |files[Path(t.backup, rel)].data| <= MAX_ARCHIVE_BYTES
    {
      assert Lookup(files, Path(t.backup, rel)) == Placed(t, start, Elements(moved), installed, Path(t.backup, rel));
      assert rel in moved && rel in Owned(receipt);
      OwnedIsSmall(host, start, dirs, t.target, v, receipt, rel);
    }
  }

  lemma OwnedIsSmall(
    host: Host, files: Files, dirs: Directories, top: string, v: Option<Version>, receipt: Receipt, rel: Relative)
    requires Verified(host, files, dirs, top, v, receipt) && rel in Owned(receipt)
    ensures Path(top, rel) in files && |files[Path(top, rel)].data| <= MAX_ARCHIVE_BYTES
  {
    if rel in Paths(receipt.files) {
      var i :| 0 <= i < |receipt.files| && Paths(receipt.files)[i] == rel;
      assert EntryMatches(host, files, top, receipt.files[i]);
    } else {
      assert rel == RECEIPT;
    }
  }

  lemma OutsideBackup(
    t: Tops, start: Files, dirs: Directories, moved: set<Relative>, installed: set<Relative>,
    files: Files, files': Files, dirs': Directories, dirs'': Directories, names: set<Relative>)
    requires AllPlaced(t, start, moved, installed, files) && DirectoriesChanged(t, dirs, dirs', names)
    requires SameOutside(t.backup, files, dirs', files', dirs'')
    ensures PlacedOutsideBackup(t, start, moved, installed, files')
    ensures DirectoriesChanged(t, dirs, dirs'', names)
    ensures t.Distinct() ==> forall r: Relative ::
              && Lookup(files', Path(t.target, r)) == Lookup(files, Path(t.target, r))
              && Lookup(dirs'', Path(t.target, r)) == Lookup(dirs', Path(t.target, r))
  {
    forall p: Path | p.top != t.backup
      ensures Lookup(files', p) == Placed(t, start, moved, installed, p)
    {
      assert Lookup(files, p) == Placed(t, start, moved, installed, p);
    }
  }

  lemma NothingRetired(t: Tops, files: Files, dirs: Directories)
    ensures SameOutside(t.backup, files, dirs, files, dirs)
  {}

  /** Whether a directory is empty is seen in its own tree. */
  lemma EmptinessStable(
    files: Files, dirs: Directories, files': Files, dirs': Directories, top: string, rels: set<Relative>)
    requires forall r: Relative ::
               && Lookup(files', Path(top, r)) == Lookup(files, Path(top, r))
               && Lookup(dirs', Path(top, r)) == Lookup(dirs, Path(top, r))
    ensures NoneLeftEmpty(files, dirs, top, rels) ==> NoneLeftEmpty(files', dirs', top, rels)
  {
    if NoneLeftEmpty(files, dirs, top, rels) {
      forall a | a in rels && Path(top, a) in dirs'
        ensures !IsEmpty(files', dirs', Path(top, a))
      {
        assert Lookup(dirs, Path(top, a)).Some? && !IsEmpty(files, dirs, Path(top, a));
        var q :| (q in files || q in dirs) && IsChild(q, Path(top, a));
        assert IsChild(q, Path(top, a));
        assert q == Path(top, q.rel);
        assert Lookup(files', q) == Lookup(files, q) && Lookup(dirs', q) == Lookup(dirs, q);
        assert q in files' || q in dirs';
      }
    }
  }

  /** The part of an upgrade that may be interrupted: on an error the caller rolls back. */
  method TryReplace(
    fs: FileSystem, host: Host, t: Tops, previous: VerifiedReceipt, next: Receipt, ledger: RecoveryIdentity)
    returns (err: Option<Error>, moved: seq<Relative>, installed: seq<Relative>, ownership: Identities)
    requires fs.Valid() && Prepared(host, fs.files, fs.dirs, t, previous, next, ledger.entries)
    requires !ledger.guardActive && ledger.publishedTarget == t.target && ledger.publishedRelatives == Paths(next.files)
    modifies fs, ledger`entries, ledger`publishedIdentity, ledger`guardActive
    ensures fs.Valid() && fs.faults >= old(fs.faults)
    ensures moved <= Owned(previous.receipt) && installed <= Owned(next)
    ensures PlacedOutsideBackup(t, old(fs.files), Elements(moved), Elements(installed), fs.files)
    ensures DirectoriesChanged(t, old(fs.dirs), fs.dirs, Parents(Owned(previous.receipt), Owned(next)))
    ensures Present(fs.files, fs.dirs, t.target, ownership) && ownership.Keys == {[]} + PathsTo(installed)
    ensures AllFree(old(fs.files), old(fs.dirs), t.target, Elements(moved), installed)
    ensures ledger.PublishedCurrent(fs.files, fs.dirs)
    ensures err.None? ==>
              && moved == Owned(previous.receipt) && installed == Owned(next)
              && NothingIn(fs.files, fs.dirs, t.backup)
    ensures err.None? && fs.faults == old(fs.faults) ==>
              NoneLeftEmpty(fs.files, fs.dirs, t.target, AncestorsOf(Paths(previous.receipt.files)))
    ensures err.Some? ==> HasRoot(ledger.entries)
    ensures err.Some? && err != Some(RecoveryRequired) ==>
              && Present(fs.files, fs.dirs, t.backup, ledger.entries) && ParentsExpected(ledger.entries)
              && Elements(moved) <= ledger.entries.Keys && SmallFiles(fs.files, t.backup)
    ensures err.Some? && fs.faults == old(fs.faults) ==> Exact(fs.files, fs.dirs, t.backup, ledger.entries)
    ensures err.Some? && err != Some(RecoveryRequired) ==>
              Exact(fs.files, fs.dirs, t.backup, ledger.entries) || Delicate(Owned(previous.receipt))
    ensures Stuck(fs.mkdirs, t.backup, Owned(previous.receipt)[0]) ==>
              && err.Some? && err != Some(RecoveryRequired) && fs.faults == old(fs.faults) + 1
              && !Exact(fs.files, fs.dirs, t.backup, ledger.entries)
    ensures err.Some? && fs.faults <= old(fs.faults) + 1 ==> err != Some(RecoveryRequired)
    ensures err.None? ==>
              Installable(host, old(fs.files), old(fs.dirs), t, Owned(previous.receipt), next)
    ensures Installable(host, old(fs.files), old(fs.dirs), t, Owned(previous.receipt), next)
            && fs.faults == old(fs.faults)
            ==> err.None?
  {
    hide WellFormed, AllPlaced, Present, Exact, DirectoriesCurrent, Capture, DirectoriesChanged, ShrunkTo, Holds,
      AllFree, PathsTo, Parents, Elements, WellShaped, SameOutside, NoneLeftEmpty, NothingIn, Keepable,
      PlacedOutsideBackup, AncestorsOf, ParentsExpected, SmallFiles, Stuck, Delicate;
    ghost var start, startDirs := fs.files, fs.dirs;
    var owned, upcoming := Owned(previous.receipt), Owned(next);
    ghost var names := Parents(owned, upcoming);
    BackupStartsEmpty(start, startDirs, t.backup, ledger.entries);
    err, moved, installed, ownership := MoveAndPublish(fs, host, t, previous, next, ledger);
    ghost var files, dirs := fs.files, fs.dirs;
    BackupIsSmall(
      host, t, start, startDirs, Some(previous.receipt.version), previous.receipt, moved, Elements(installed), files);
    NothingRetired(t, files, dirs);
    OutsideBackup(t, start, startDirs, Elements(moved), Elements(installed), files, files, dirs, dirs, names);
    if err.Some? {
      return;
    }
    PublishedHolds(host, t, start, Elements(moved), files, next);
    TargetStays(t, startDirs, dirs, owned, upcoming);
    ParentsInclude(previous.receipt, upcoming);
    err := VerifyPublication(fs, host, t, Paths(previous.receipt.files), next, ownership, ledger);
    PruningChanges(t, startDirs, dirs, fs.dirs, AncestorsOf(Paths(previous.receipt.files)), names);
    TreeStable(files, dirs, fs.files, fs.dirs, t.backup);
    ExactMeansPresent(fs.files, fs.dirs, t.backup, ledger.entries);
    if err.Some? {
      return;
    }
    SmallIsKeepable(fs.files, fs.dirs, t.backup, ledger.entries);
    dirs := fs.dirs;
    err := RetireOwnedRecovery(fs, t.backup, ledger);
    OutsideBackup(t, start, startDirs, Elements(moved), Elements(installed), files, fs.files, dirs, fs.dirs, names);
    PublishedStable(files, dirs, fs.files, fs.dirs, t.backup, ledger);
    TreeStable(files, dirs, fs.files, fs.dirs, t.target);
    EmptinessStable(files, dirs, fs.files, fs.dirs, t.target, AncestorsOf(Paths(previous.receipt.files)));
    ExactMeansPresent(fs.files, fs.dirs, t.backup, ledger.entries);
    if err.Some? && err != Some(RecoveryRequired) {
      SameTreeStaysSmall(files, dirs, fs.files, fs.dirs, t.backup);
      ExactIsClosed(fs.files, fs.dirs, t.backup, ledger.entries);
    }
    if err.None? && !ledger.PublishedCurrent(fs.files, fs.dirs) {
      err := Some(PluginDrift);
    }
  }

  lemma BackupStartsEmpty(files: Files, dirs: Directories, top: string, entries: Identities)
    requires WellFormed(files, dirs) && entries.Keys == {[]} && Exact(files, dirs, top, entries) && HasRoot(entries)
    ensures forall r: Relative :: Path(top, r) !in files
  {
    OnlyRoot(files, dirs, top, entries);
    assert IdentityAt(files, dirs, Path(top, [])) == Lookup(entries, []);
    forall r: Relative
      ensures Path(top, r) !in files
    {
      if r != [] {
        assert !Exists(files, dirs, Path(top, r));
      }
    }
  }

  lemma TargetStays(t: Tops, dirs: Directories, dirs': Directories, owned: seq<Relative>, upcoming: seq<Relative>)
    requires t.Distinct() && DirectoriesChanged(t, dirs, dirs', Parents(owned, upcoming))
    ensures Lookup(dirs', Path(t.target, [])) == Lookup(dirs, Path(t.target, []))
  {
    AncestorsOfMember(owned, []);
    AncestorsOfMember(upcoming, []);
  }
}
