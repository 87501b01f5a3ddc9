/** A directory tree whose mutating calls may fail at any time. */
module FileSystems {
  import opened Wrappers

  /** The slash-separated components of a relative path; [] is the top directory itself. */
  type Relative = seq<string>
  type Bytes = seq<bv8>

  /**
    The target, its backup, its quarantine and its stage are siblings in one existing
    directory, so an absolute path is the sibling's name and the components below it.
   */
  datatype Path = Path(top: string, rel: Relative)

  datatype File = File(id: int, mode: int, mtime: int, data: Bytes)
  datatype Directory = Directory(id: int, mode: int)

  type Files = map<Path, File>
  type Directories = map<Path, Directory>

  function Parent(p: Path): Path
    requires p.rel != []
  {
    Path(p.top, p.rel[..|p.rel| - 1])
  }

  predicate HasParent(dirs: Directories, p: Path) {
    p.rel == [] || Parent(p) in dirs
  }

  predicate Exists(files: Files, dirs: Directories, p: Path) {
    Lookup(files, p).Some? || Lookup(dirs, p).Some?
  }

  predicate IsChild(q: Path, p: Path) {
    q.rel != [] && Parent(q) == p
  }

  predicate IsEmpty(files: Files, dirs: Directories, p: Path) {
    && (forall q | q in files :: !IsChild(q, p))
    && (forall q | q in dirs :: !IsChild(q, p))
  }

  ghost predicate WellFormed(files: Files, dirs: Directories) {
    && files.Keys !! dirs.Keys
    && (forall p {:trigger HasParent(dirs, p)} | p in files :: HasParent(dirs, p))
    && (forall p {:trigger HasParent(dirs, p)} | p in dirs :: HasParent(dirs, p))
  }

  lemma AddingKeepsParents(dirs: Directories, d: Path, node: Directory)
    ensures forall q {:trigger HasParent(dirs[d := node], q)} :: HasParent(dirs, q) ==> HasParent(dirs[d := node], q)
  {}

  lemma RemovingKeepsParents(files: Files, dirs: Directories, d: Path)
    requires IsEmpty(files, dirs, d)
    ensures forall q {:trigger HasParent(dirs - {d}, q)} | q in files || q in dirs ::
              HasParent(dirs, q) ==> HasParent(dirs - {d}, q)
  {}

  /** Everything outside the tree named top is the same in both states. */
  ghost predicate SameOutside(top: string, files: Files, dirs: Directories, files': Files, dirs': Directories) {
    forall p: Path | p.top != top ::
      Lookup(files, p) == Lookup(files', p) && Lookup(dirs, p) == Lookup(dirs', p)
  }

  /** Whether the system lets a directory be made that nothing in the tree forbids. */
  datatype Habit = Always | Sometimes | Never

  class FileSystem {
    const mkdirs: Path -> Habit
    var files: Files
    var dirs: Directories
    /** How many calls have failed although nothing in the tree forbade them. */
    var faults: nat

    ghost predicate Valid()
      reads this
    {
      WellFormed(files, dirs)
    }

    constructor (files: Files, dirs: Directories, mkdirs: Path -> Habit)
      requires WellFormed(files, dirs)
      ensures Valid() && this.files == files && this.dirs == dirs && faults == 0 && this.mkdirs == mkdirs
    {
      this.files, this.dirs, this.mkdirs, faults := files, dirs, mkdirs, 0;
    }

    method Mkdir(p: Path) returns (ok: bool)
      requires Valid()
      modifies this`dirs, this`faults
      ensures Valid()
      ensures ok ==> old(!Exists(files, dirs, p) && HasParent(dirs, p)) && faults == old(faults)
      ensures ok ==> p in dirs && dirs == old(dirs)[p := dirs[p]]
      ensures !ok ==> dirs == old(dirs)
      ensures !ok ==> faults == old(faults) + if old(!Exists(files, dirs, p) && HasParent(dirs, p)) then 1 else 0
      ensures mkdirs(p) == Always && old(!Exists(files, dirs, p) && HasParent(dirs, p)) ==> ok
      ensures mkdirs(p) == Never ==> !ok
    {
      ok := !Exists(files, dirs, p) && HasParent(dirs, p);
      if ok {
        var fails: bool := *;
        if mkdirs(p) == Never || (mkdirs(p) == Sometimes && fails) {
          ok, faults := false, faults + 1;
        } else {
          var id: int, mode: int := *, *;
          AddingKeepsParents(dirs, p, Directory(id, mode));
          dirs := dirs[p := Directory(id, mode)];
        }
      }
    }

    method Rmdir(p: Path) returns (ok: bool)
      requires Valid()
      modifies this`dirs, this`faults
      ensures Valid()
      ensures ok ==> old(p in dirs && IsEmpty(files, dirs, p)) && faults == old(faults)
      ensures ok ==> dirs == old(dirs) - {p}
      ensures !ok ==> dirs == old(dirs)
      ensures !ok ==> faults == old(faults) + if old(p in dirs && IsEmpty(files, dirs, p)) then 1 else 0
    {
      ok := p in dirs && IsEmpty(files, dirs, p);
      if ok {
        if * {
          ok, faults := false, faults + 1;
        } else {
          RemovingKeepsParents(files, dirs, p);
          dirs := dirs - {p};
        }
      }
    }

    method Unlink(p: Path) returns (ok: bool)
      requires Valid()
      modifies this`files, this`faults
      ensures Valid()
      ensures ok ==> old(p in files) && faults == old(faults)
      ensures ok ==> files == old(files) - {p}
      ensures !ok ==> files == old(files)
      ensures !ok ==> faults == old(faults) + if old(p in files) then 1 else 0
    {
      ok := p in files;
      if ok {
        if * {
          ok, faults := false, faults + 1;
        } else {
          files := files - {p};
        }
      }
    }

    /** os.replace on a file: the object moves, a file at the destination is replaced. */
    method Replace(src: Path, dst: Path) returns (ok: bool)
      requires Valid() && src != dst
      modifies this`files, this`faults
      ensures Valid()
      ensures ok ==> old(src in files && dst !in dirs && HasParent(dirs, dst)) && faults == old(faults)
      ensures ok ==> files == old(files)[dst := old(files)[src]] - {src}
      ensures !ok ==> files == old(files)
      ensures !ok ==> faults == old(faults) + if old(src in files && dst !in dirs && HasParent(dirs, dst)) then 1 else 0
    {
      ok := src in files && dst !in dirs && HasParent(dirs, dst);
      if ok {
        if * {
          ok, faults := false, faults + 1;
        } else {
          files := files[dst := files[src]] - {src};
        }
      }
    }

    /** Exclusive creation and write; a failure may leave a partial file behind. */
    method WriteExclusive(p: Path, data: Bytes) returns (ok: bool)
      requires Valid()
      modifies this`files, this`faults
      ensures Valid()
      ensures ok ==> old(!Exists(files, dirs, p) && HasParent(dirs, p)) && faults == old(faults)
      ensures ok ==> p in files && files == old(files)[p := files[p]] && files[p].data == data
      ensures !ok ==> files == old(files)
                      || (!old(Exists(files, dirs, p)) && p in files && files == old(files)[p := files[p]])
      ensures !ok ==> faults == old(faults) + if old(!Exists(files, dirs, p) && HasParent(dirs, p)) then 1 else 0
    {
      ok := !Exists(files, dirs, p) && HasParent(dirs, p);
      if ok {
        var id: int, mode: int, mtime: int := *, *, *;
        if * {
          ok, faults := false, faults + 1;
          if * {
            var partial: Bytes := *;
            files := files[p := File(id, mode, mtime, partial)];
          }
        } else {
          files := files[p := File(id, mode, mtime, data)];
        }
      }
    }

    method ChmodFile(p: Path, mode: int) returns (ok: bool)
      requires Valid()
      modifies this`files, this`faults
      ensures Valid()
      ensures ok ==> old(p in files) && faults == old(faults)
      ensures ok ==> files == old(files)[p := old(files)[p].(mode := mode)]
      ensures !ok ==> files == old(files)
      ensures !ok ==> faults == old(faults) + if old(p in files) then 1 else 0
    {
      ok := p in files;
      if ok {
        if * {
          ok, faults := false, faults + 1;
        } else {
          files := files[p := files[p].(mode := mode)];
        }
      }
    }

    method ChmodDirectory(p: Path, mode: int) returns (ok: bool)
      requires Valid()
      modifies this`dirs, this`faults
      ensures Valid()
      ensures ok ==> old(p in dirs) && faults == old(faults)
      ensures ok ==> dirs == old(dirs)[p := old(dirs)[p].(mode := mode)]
      ensures !ok ==> dirs == old(dirs)
      ensures !ok ==> faults == old(faults) + if old(p in dirs) then 1 else 0
    {
      ok := p in dirs;
      if ok {
        if * {
          ok, faults := false, faults + 1;
        } else {
          AddingKeepsParents(dirs, p, dirs[p].(mode := mode));
          dirs := dirs[p := dirs[p].(mode := mode)];
        }
      }
    }

    /** os.replace on a directory: the whole tree named src becomes the tree named dst. */
    method ReplaceTree(src: string, dst: string) returns (ok: bool)
      requires Valid() && src != dst
      modifies this`files, this`dirs, this`faults
      ensures Valid()
      ensures ok ==> old(CanReplaceTree(files, dirs, src, dst)) && faults == old(faults)
      ensures ok ==> forall p: Path ::
                && Lookup(files, p) == old(LookupMoved(files, src, dst, p))
                && Lookup(dirs, p) == old(LookupMoved(dirs, src, dst, p))
      ensures !ok ==> files == old(files) && dirs == old(dirs)
      ensures !ok ==> faults == old(faults) + if old(CanReplaceTree(files, dirs, src, dst)) then 1 else 0
    {
      ok := CanReplaceTree(files, dirs, src, dst);
      if ok {
        if * {
          ok, faults := false, faults + 1;
        } else {
          MovedIsWellFormed(files, dirs, src, dst);
          files, dirs := Moved(files, src, dst), Moved(dirs, src, dst);
        }
      }
    }
  }

  predicate CanReplaceTree(files: Files, dirs: Directories, src: string, dst: string) {
    Path(src, []) in dirs && !Exists(files, dirs, Path(dst, []))
  }

  function LookupMoved<V>(m: map<Path, V>, src: string, dst: string, p: Path): Option<V> {
    if p.top == dst then Lookup(m, Path(src, p.rel)) else if p.top == src then None else Lookup(m, p)
  }

  function Moved<V>(m: map<Path, V>, src: string, dst: string): (moved: map<Path, V>)
    requires src != dst
    ensures forall p: Path :: Lookup(moved, p) == LookupMoved(m, src, dst, p)
  {
    var arrived := set p | p in m && p.top == src :: Path(dst, p.rel);
    var stayed := set p | p in m && p.top != src && p.top != dst;
    (map p | p in stayed :: m[p]) + (map q | q in arrived && Path(src, q.rel) in m :: m[Path(src, q.rel)])
  }

  lemma MovedIsWellFormed(files: Files, dirs: Directories, src: string, dst: string)
    requires WellFormed(files, dirs) && src != dst && CanReplaceTree(files, dirs, src, dst)
    ensures WellFormed(Moved(files, src, dst), Moved(dirs, src, dst))
  {
    var files', dirs' := Moved(files, src, dst), Moved(dirs, src, dst);
    forall p | p in files' || p in dirs'
      ensures HasParent(dirs', p) && !(p in files' && p in dirs')
    {
      var q := if p.top == dst then Path(src, p.rel) else p;
      assert Lookup(files', p) == LookupMoved(files, src, dst, p) && Lookup(dirs', p) == LookupMoved(dirs, src, dst, p);
      assert HasParent(dirs, q);
      if p.rel != [] {
        assert Lookup(dirs', Parent(p)) == LookupMoved(dirs, src, dst, Parent(p));
      }
    }
  }
}
