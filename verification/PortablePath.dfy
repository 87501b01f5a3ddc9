/** What a portable path promises, said of its text, of its resolution, and of the names of devices. */
module PortablePaths {
  import opened FileSystems
  import opened Ownership
  import opened Receipts

  const SEPARATORS := "/\\"

  const DEVICES: set<string> := {
    "con", "prn", "aux", "nul", "clock$", "conin$", "conout$",
    "com1", "com2", "com3", "com4", "com5", "com6", "com7", "com8", "com9",
    "lpt1", "lpt2", "lpt3", "lpt4", "lpt5", "lpt6", "lpt7", "lpt8", "lpt9"
  }

  /** The path as it is written. */
  function Text(rel: Relative): string {
    if rel == [] then "" else if |rel| == 1 then rel[0] else rel[0] + ("/" + Text(rel[1..]))
  }

  /** What a system that knows both separators reads from a text, current being the component so far. */
  function Components(s: string, current: string): seq<string> {
    if s == "" then [current]
    else if s[0] in SEPARATORS then [current] + Components(s[1..], "")
    else Components(s[1..], current + [s[0]])
  }

  /** One step of resolving a path: an empty component or a dot stays, two dots go up. */
  function Descend(base: Relative, part: string): Relative {
    if part == "" || part == "." then base
    else if part == ".." then (if base == [] then [] else base[..|base| - 1])
    else base + [part]
  }

  function Resolved(base: Relative, parts: Relative): Relative
    decreases |parts|
  {
    if parts == [] then base else Resolved(Descend(base, parts[0]), parts[1..])
  }

  /** The part before the first dot. */
  ghost predicate IsStem(stem: string, part: string) {
    stem <= part && '.' !in stem && (|stem| < |part| ==> part[|stem|] == '.')
  }

  /**
    A path that every system reads the same way: it is resolved without a step back, its characters
    mean nothing else to any system, and no component names a device.
   */
  ghost predicate Unambiguous(host: Host, rel: Relative) {
    && 1 <= |rel| <= 16 && |Text(rel)| <= 1024
    && Resolved([], rel) == rel
    && (forall ch | ch in Text(rel) :: ch >= ' ' && ch != 127 as char && ch != '\\' && ch != ':')
    && forall part | part in rel ::
         && '/' !in part && |part| <= 255 && (part != "" ==> part[|part| - 1] != '.' && part[|part| - 1] != ' ')
         && forall stem | IsStem(stem, part) :: host.fold(stem) !in DEVICES
  }

  lemma {:induction false} TextLength(rel: Relative)
    requires rel != []
    ensures |Text(rel)| + 1 == Length(rel)
  {
    if |rel| > 1 {
      TextLength(rel[1..]);
    } else {
      assert Length(rel[1..]) == 0;
    }
  }

  lemma {:induction false} TextHolds(rel: Relative, ch: char)
    ensures ch in Text(rel) <==> (exists part :: part in rel && ch in part) || (ch == '/' && |rel| > 1)
  {
    if |rel| > 1 {
      TextHolds(rel[1..], ch);
      assert rel == [rel[0]] + rel[1..];
      if part :| part in rel && ch in part {
        assert part == rel[0] || part in rel[1..];
      }
    } else if |rel| == 1 {
      assert rel[0] in rel;
    }
  }

  lemma {:induction false} StemIsStem(part: string)
    ensures IsStem(Stem(part), part)
  {
    if part != "" && part[0] != '.' {
      StemIsStem(part[1..]);
    }
  }

  lemma OneStem(a: string, b: string, part: string)
    requires IsStem(a, part) && IsStem(b, part)
    ensures a == b
  {}

  lemma Ports(c: char)
    requires '1' <= c <= '9'
    ensures ['c', 'o', 'm', c] in DEVICES && ['l', 'p', 't', c] in DEVICES
  {
    assert c in {'1', '2', '3', '4', '5', '6', '7', '8', '9'};
  }

  lemma FourLetters(stem: string)
    requires |stem| == 4
    ensures stem[..3] in {"com", "lpt"} && '1' <= stem[3] <= '9' <==> stem in DEVICES
  {
    assert stem == [stem[0], stem[1], stem[2], stem[3]] && stem[..3] == [stem[0], stem[1], stem[2]];
    if '1' <= stem[3] <= '9' {
      Ports(stem[3]);
    }
  }

  lemma ReservedAreDevices(stem: string)
    ensures ReservedName(stem) <==> stem in DEVICES
  {
    if |stem| == 4 {
      FourLetters(stem);
    }
  }

  /** A step back or a step that stays makes the result shorter. */
  lemma {:induction false} ResolvedLength(base: Relative, parts: Relative)
    ensures |Resolved(base, parts)| <= |base| + |parts|
    ensures |Resolved(base, parts)| == |base| + |parts| ==>
              forall part | part in parts :: part != "" && part != "." && part != ".."
    ensures (forall part | part in parts :: part != "" && part != "." && part != "..") ==>
              Resolved(base, parts) == base + parts
    decreases |parts|
  {
    if parts == [] {
      assert base + parts == base;
    } else {
      var next := Descend(base, parts[0]);
      ResolvedLength(next, parts[1..]);
      assert parts == [parts[0]] + parts[1..] && parts[0] in parts && forall part | part in parts[1..] :: part in parts;
      if parts[0] != "" && parts[0] != "." && parts[0] != ".." {
        assert next + parts[1..] == base + parts;
      }
    }
  }

  lemma ComponentMeans(host: Host, part: string)
    ensures PortableComponent(host, part) <==>
            && part != "" && part != "." && part != ".." && |part| <= 255
            && (forall ch | ch in part :: ch >= ' ' && ch != 127 as char && ch != '\\' && ch != ':' && ch != '/')
            && part[|part| - 1] != '.' && part[|part| - 1] != ' '
            && forall stem | IsStem(stem, part) :: host.fold(stem) !in DEVICES
  {
    StemIsStem(part);
    ReservedAreDevices(host.fold(Stem(part)));
    forall stem | IsStem(stem, part)
      ensures stem == Stem(part)
    {
      OneStem(stem, Stem(part), part);
    }
  }

  /** The installer accepts exactly the unambiguous paths. */
  lemma PortableIsUnambiguous(host: Host, rel: Relative)
    ensures Portable(host, rel) <==> Unambiguous(host, rel)
  {
    hide PortableComponent, Text, Length, Resolved, IsStem;
    if 1 <= |rel| <= 16 {
      TextLength(rel);
      if Unambiguous(host, rel) {
        UnambiguousIsPortable(host, rel);
      }
      if Portable(host, rel) {
        PortableIsPlain(host, rel);
      }
    }
  }

  lemma UnambiguousIsPortable(host: Host, rel: Relative)
    requires Unambiguous(host, rel)
    ensures forall part | part in rel :: PortableComponent(host, part)
  {
    hide PortableComponent, Text, Resolved, IsStem;
    ResolvedLength([], rel);
    forall part | part in rel
      ensures PortableComponent(host, part)
    {
      forall ch | ch in part
        ensures ch in Text(rel)
      {
        TextHolds(rel, ch);
      }
      ComponentMeans(host, part);
    }
  }

  lemma PortableIsPlain(host: Host, rel: Relative)
    requires rel != [] && forall part | part in rel :: PortableComponent(host, part)
    ensures Resolved([], rel) == rel
    ensures forall ch | ch in Text(rel) :: ch >= ' ' && ch != 127 as char && ch != '\\' && ch != ':'
    ensures forall part | part in rel ::
         && '/' !in part && |part| <= 255 && part != "" && part[|part| - 1] != '.' && part[|part| - 1] != ' '
         && forall stem | IsStem(stem, part) :: host.fold(stem) !in DEVICES
  {
    hide PortableComponent, Text, Resolved, IsStem;
    forall part | part in rel
      ensures part != "" && part != "." && part != ".."
      ensures '/' !in part && |part| <= 255 && part[|part| - 1] != '.' && part[|part| - 1] != ' '
      ensures forall stem | IsStem(stem, part) :: host.fold(stem) !in DEVICES
    {
      ComponentMeans(host, part);
    }
    ResolvedLength([], rel);
    assert [] + rel == rel;
    forall ch | ch in Text(rel)
      ensures ch >= ' ' && ch != 127 as char && ch != '\\' && ch != ':'
    {
      TextHolds(rel, ch);
      if part :| part in rel && ch in part {
        ComponentMeans(host, part);
      }
    }
  }

  lemma {:induction false} OneComponent(part: string, rest: string, current: string)
    requires forall ch | ch in part :: ch !in SEPARATORS
    requires rest == "" || rest[0] in SEPARATORS
    ensures Components(part + rest, current) == Components(rest, current + part)
    decreases |part|
  {
    if part == "" {
      assert part + rest == rest && current + part == current;
    } else {
      assert part[0] in part && (part + rest)[0] == part[0] && (part + rest)[1..] == part[1..] + rest;
      assert forall ch | ch in part[1..] :: ch in part;
      OneComponent(part[1..], rest, current + [part[0]]);
      assert current + [part[0]] + part[1..] == current + part;
    }
  }

  lemma NextComponent(rest: string, current: string)
    ensures Components("/" + rest, current) == [current] + Components(rest, "") && Components("", current) == [current]
  {
    assert ("/" + rest)[1..] == rest;
  }

  lemma TextStep(rel: Relative)
    requires rel != []
    ensures Text(rel) == if |rel| == 1 then rel[0] else rel[0] + ("/" + Text(rel[1..]))
  {}

  /** A path is read back from its text, whichever separators the system knows. */
  lemma {:induction false} TextIsReadBack(rel: Relative)
    requires rel != [] && forall part, ch | part in rel && ch in part :: ch !in SEPARATORS
    ensures Components(Text(rel), "") == rel
  {
    hide Components, Text;
    var part := rel[0];
    assert part in rel && "" + part == part;
    TextStep(rel);
    if |rel| == 1 {
      assert part + "" == part && rel == [part];
      OneComponent(part, "", "");
      NextComponent("", part);
    } else {
      OneComponent(part, "/" + Text(rel[1..]), "");
      NextComponent(Text(rel[1..]), part);
      assert forall p | p in rel[1..] :: p in rel;
      TextIsReadBack(rel[1..]);
      assert rel == [part] + rel[1..];
    }
  }

  /** No way leads out: below any directory, a portable path is resolved to its components. */
  lemma PortableStaysBelow(host: Host, rel: Relative, base: Relative)
    requires Portable(host, rel)
    ensures Resolved(base, rel) == base + rel && Components(Text(rel), "") == rel
  {
    hide PortableComponent, Text, Length, Resolved, Components;
    forall part | part in rel
      ensures part != "" && part != "." && part != ".." && forall ch | ch in part :: ch !in SEPARATORS
    {
      ComponentMeans(host, part);
    }
    ResolvedLength(base, rel);
    TextIsReadBack(rel);
  }

  /** Some component differs even when case is folded. */
  ghost predicate Apart(host: Host, r: Relative, s: Relative) {
    exists k: nat :: k < |r| && k < |s| && host.fold(r[k]) != host.fold(s[k])
  }

  lemma ApartMeans(host: Host, r: Relative, s: Relative)
    ensures Apart(host, r, s) <==> !(Folded(host, r) <= Folded(host, s)) && !(Folded(host, s) <= Folded(host, r))
  {
    var a, b := Folded(host, r), Folded(host, s);
    if !Apart(host, r, s) {
      assert forall k: nat | k < |r| && k < |s| :: a[k] == b[k];
      assert |a| <= |b| ==> a == b[..|a|];
      assert |b| <= |a| ==> b == a[..|b|];
    } else {
      var k: nat :| k < |r| && k < |s| && host.fold(r[k]) != host.fold(s[k]);
      assert a[k] != b[k];
    }
  }

  ghost predicate AllApart(host: Host, rels: seq<Relative>) {
    forall i, j | 0 <= i < j < |rels| :: Apart(host, rels[i], rels[j])
  }

  lemma AllApartMeans(host: Host, rels: seq<Relative>)
    ensures AllApart(host, rels) <==>
            && (forall i, j | 0 <= i < j < |rels| :: Folded(host, rels[i]) != Folded(host, rels[j]))
            && (forall r, s | r in rels && s in rels :: !(Folded(host, r) < Folded(host, s)))
  {
    hide Apart, Folded;
    forall i, j | 0 <= i < |rels| && 0 <= j < |rels|
      ensures Apart(host, rels[i], rels[j]) <==>
              && !(Folded(host, rels[i]) <= Folded(host, rels[j]))
              && !(Folded(host, rels[j]) <= Folded(host, rels[i]))
    {
      ApartMeans(host, rels[i], rels[j]);
    }
    if AllApart(host, rels) {
      forall i, j | 0 <= i < |rels| && 0 <= j < |rels|
        ensures !(Folded(host, rels[i]) < Folded(host, rels[j]))
      {
        assert i < j ==> Apart(host, rels[i], rels[j]);
        assert j < i ==> Apart(host, rels[j], rels[i]);
      }
    }
  }

  /** The shape of a receipt or a manifest, without reference to folded lists. */
  lemma ShapeMeans(host: Host, rels: seq<Relative>)
    ensures WellShaped(host, rels) <==>
            && 1 <= |rels| <= MAX_MEMBERS && AllApart(host, rels)
            && forall r | r in rels :: Unambiguous(host, r) && (|r| == 1 ==> host.fold(r[0]) != host.fold(RECEIPT[0]))
  {
    hide Unambiguous, Portable, AllApart, Folded;
    AllApartMeans(host, rels);
    forall r | r in rels
      ensures Portable(host, r) <==> Unambiguous(host, r)
      ensures Folded(host, r) == Folded(host, RECEIPT) <==> |r| == 1 && host.fold(r[0]) == host.fold(RECEIPT[0])
    {
      PortableIsUnambiguous(host, r);
      FoldedReceipt(host, r);
    }
  }

  lemma FoldedReceipt(host: Host, r: Relative)
    ensures Folded(host, r) == Folded(host, RECEIPT) <==> |r| == 1 && host.fold(r[0]) == host.fold(RECEIPT[0])
  {
    assert Folded(host, RECEIPT) == [host.fold(RECEIPT[0])];
    if |r| == 1 {
      assert Folded(host, r) == [host.fold(r[0])];
    }
  }
}
