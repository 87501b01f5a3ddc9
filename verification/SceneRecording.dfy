/**
  The manager of scene recording sessions: acquisition with roll-back, capacity, one recording a
  scene, and a bounded history.
 */
module SceneRecordings {
  import opened Wrappers
  import opened SceneHosts
  import opened SceneSessions

  predicate Complete(r: Recording) {
    && r.source.Some? && r.copy.Some? && r.view.Some? && r.video.Some?
    && r.encoder.Some? && r.audio.Some? && r.audioEncoder.Some? && r.output.Some?
  }

  /** The handles of a recording, in the order in which they are acquired. */
  function Acquired(r: Recording): multiset<Handle> {
    Maybe(r.source) + Maybe(r.copy) + Maybe(r.view) + Maybe(r.video)
    + Maybe(r.encoder) + Maybe(r.audio) + Maybe(r.audioEncoder) + Maybe(r.output)
  }

  lemma AcquiredIsHeld(r: Recording)
    ensures Acquired(r) == HeldBy(r)
  {
    hide Maybe;
  }

  lemma Gathered(
      live: multiset<Handle>, a: multiset<Handle>, b: multiset<Handle>, c: multiset<Handle>, d: multiset<Handle>,
      e: multiset<Handle>, f: multiset<Handle>, g: multiset<Handle>, h: multiset<Handle>)
    ensures live + a + b + c + d + e + f + g + h == live + (a + b + c + d + e + f + g + h)
  {}

  lemma NoHandle(live: multiset<Handle>)
    ensures live + Maybe(None) == live && forall from: nat :: AllNew(Maybe(None), from)
  {}

  lemma TakeAndGive(live: multiset<Handle>, m: multiset<Handle>)
    ensures m <= live + m && live + m - m == live
  {}

  /** View, encoders and output; what cannot be had stays None. */
  method AcquireEncoding(host: Host, r: Recording) returns (r': Recording)
    requires host.Valid()
    requires r.view.None? && r.video.None? && r.encoder.None? && r.audio.None? && r.audioEncoder.None? && r.output.None?
    modifies host`serial, host`live, host`faults
    ensures host.Valid() && host.faults >= old(host.faults)
    ensures host.faults == old(host.faults) <==>
            && r'.view.Some? && r'.video.Some? && r'.encoder.Some?
            && r'.audio.Some? && r'.audioEncoder.Some? && r'.output.Some?
    ensures r'.source == r.source && r'.copy == r.copy && r'.scene == r.scene && r'.path == r.path
    ensures Built(r') && r'.stopRequested == r.stopRequested
    ensures host.serial >= old(host.serial)
    ensures AllNew(Maybe(r'.view) + Maybe(r'.video) + Maybe(r'.encoder)
                   + Maybe(r'.audio) + Maybe(r'.audioEncoder) + Maybe(r'.output), old(host.serial))
    ensures host.live == old(host.live) + Maybe(r'.view) + Maybe(r'.video) + Maybe(r'.encoder)
                         + Maybe(r'.audio) + Maybe(r'.audioEncoder) + Maybe(r'.output)
  {
    hide Handles, Host.Valid, Maybe, AllNew;
    var view := host.Acquire();
    var video: Option<Handle> := None;
    ghost var from, all := old(host.serial), Maybe(view);
    NoHandle(host.live);
    ghost var later := host.serial;
    if view.Some? {
      video := host.Acquire();
    }
    NewTogether(all, Maybe(video), from, later);
    all, later := all + Maybe(video), host.serial;
    var encoder := host.Acquire();
    NewTogether(all, Maybe(encoder), from, later);
    all, later := all + Maybe(encoder), host.serial;
    var audio := host.Acquire();
    NewTogether(all, Maybe(audio), from, later);
    all, later := all + Maybe(audio), host.serial;
    var audioEncoder: Option<Handle> := None;
    NoHandle(host.live);
    if audio.Some? {
      audioEncoder := host.Acquire();
    }
    NewTogether(all, Maybe(audioEncoder), from, later);
    all, later := all + Maybe(audioEncoder), host.serial;
    var output := host.Acquire();
    NewTogether(all, Maybe(output), from, later);
    r' := r.(view := view, video := video, encoder := encoder, audio := audio, audioEncoder := audioEncoder, output := output);
  }

  function Blank(scene: string, path: string): Recording {
    Recording(scene, path, None, None, None, None, None, None, None, None, false)
  }

  /** Looks at the sources of a scene: exactly one capture, at most one overlay of each kind, the window that is meant, and a size. */
  method Examine(host: Host, spec: Spec) returns (refused: Option<Code>)
    requires host.Valid()
    modifies host`faults
    ensures host.Valid()
    ensures host.faults >= old(host.faults) && (refused.None? <==> host.faults == old(host.faults))
    ensures refused.Some? ==> refused.value in {TargetAmbiguous, SourceNotFound, WindowIdentityDrift, InstanceNotReady}
    ensures refused == Some(WindowIdentityDrift) ==> spec.bound
  {
    hide Handles, Host.Valid;
    var ambiguous := host.Refuses();
    if ambiguous {
      return Some(TargetAmbiguous);
    }
    var missing := host.Refuses();
    if missing {
      return Some(SourceNotFound);
    }
    if spec.bound {
      var drifted := host.Refuses();
      if drifted {
        return Some(WindowIdentityDrift);
      }
    }
    var noSize := host.Refuses();
    refused := if noSize then Some(InstanceNotReady) else None;
  }

  /** The source with the name of the scene, if it is a scene. */
  method AcquireSource(host: Host) returns (source: Option<Handle>)
    requires host.Valid()
    modifies host`faults, host`serial, host`live, host`released, host`active
    ensures host.Valid() && host.active <= old(host.active)
    ensures host.faults >= old(host.faults) && (source.Some? <==> host.faults == old(host.faults))
    ensures host.live == old(host.live) + Maybe(source)
    ensures host.serial >= old(host.serial) && AllNew(Maybe(source), old(host.serial))
  {
    hide Handles, Host.Valid, Maybe, AllNew;
    source := host.Acquire();
    NoHandle(old(host.live));
    if source.Some? {
      TakeAndGive(old(host.live), Maybe(source));
      var otherKind := host.Refuses();
      if otherKind {
        host.Release(source);
        source := None;
      }
    }
  }

  /** Only outputs with these handles have been forced to stop. */
  ghost predicate ForcedAmong(forced: set<Handle>, forced': set<Handle>, held: multiset<Handle>) {
    forall h | h in forced' :: h in forced || h in held
  }

  /** Only outputs that are newer than the first of these handles have been forced to stop. */
  ghost predicate ForcedNew(forced: set<Handle>, forced': set<Handle>, from: nat) {
    forall h | h in forced' :: h in forced || h >= from
  }

  lemma ForcedIsNew(forced: set<Handle>, forced': set<Handle>, held: multiset<Handle>, from: nat)
    requires ForcedAmong(forced, forced', held) && AllNew(held, from)
    ensures ForcedNew(forced, forced', from)
  {}

  lemma NothingForced(forced: set<Handle>, from: nat)
    ensures ForcedNew(forced, forced, from)
  {}

  lemma NewlyForced(a: set<Handle>, b: set<Handle>, c: set<Handle>, from: nat, later: nat)
    requires ForcedNew(a, b, from) && ForcedNew(b, c, later) && from <= later
    ensures ForcedNew(a, c, from)
  {}

  lemma ForcedIsAmong(forced: set<Handle>, forced': set<Handle>, rs: seq<Recording>, active: set<Handle>)
    requires OnlyForced(forced, forced', rs, active)
    ensures ForcedAmong(forced, forced', Held(rs))
  {
    hide HeldBy, Held;
    forall i | 0 <= i < |rs| && rs[i].output.Some?
      ensures rs[i].output.value in Held(rs)
    {
      OutputIsHeld(rs, i);
    }
  }

  lemma OneForced(forced: set<Handle>, forced': set<Handle>, r: Recording, active: set<Handle>)
    requires forced <= forced' <= forced + RunningOutputs([r], active)
    ensures ForcedAmong(forced, forced', HeldBy(r))
  {
    hide HeldBy;
    if r.output.Some? {
      OutputIsOneOfThem(r);
    }
  }

  /** Gives back all that one recording has acquired so far. */
  method GiveBack(host: Host, ghost live: multiset<Handle>, r: Recording)
    requires host.Valid() && host.live == live + HeldBy(r) && Built(r)
    modifies host`live, host`released, host`active, host`asked, host`forced
    ensures host.Valid() && host.active <= old(host.active) && host.live == live
    ensures host.asked == old(host.asked) && ForcedAmong(old(host.forced), host.forced, HeldBy(r))
  {
    hide Handles, Host.Valid, HeldBy, RunningOutputs;
    TakeAndGive(live, HeldBy(r));
    var emptied := Release(host, r, true);
    OneForced(old(host.forced), host.forced, r, old(host.active));
  }

  /** View, encoders and output for a scene that has been copied. */
  method Equip(host: Host, copied: Recording, ghost live: multiset<Handle>, ghost from: nat)
      returns (r: Result<Recording, Code>)
    requires host.Valid() && host.live == live + Maybe(copied.source) + Maybe(copied.copy) && from <= host.serial
    requires copied.source.Some? && copied.copy.Some? && AllNew(Maybe(copied.source) + Maybe(copied.copy), from)
    requires copied == Blank(copied.scene, copied.path).(source := copied.source, copy := copied.copy)
    modifies host`faults, host`serial, host`live, host`released, host`active, host`asked, host`forced
    ensures host.Valid() && host.active <= old(host.active) && host.serial >= old(host.serial)
    ensures host.faults >= old(host.faults) && (r.Success? <==> host.faults == old(host.faults))
    ensures r.Failure? ==> host.live == live && r.error == RequestFailed
    ensures r.Success? ==>
              && host.live == live + HeldBy(r.value) && Complete(r.value)
              && r.value.scene == copied.scene && r.value.path == copied.path && !r.value.stopRequested
    ensures r.Success? ==> AllNew(HeldBy(r.value), from)
    ensures host.asked == old(host.asked) && ForcedNew(old(host.forced), host.forced, from)
  {
    hide Handles, Host.Valid, Maybe, HeldBy, Acquired, AllNew, ForcedAmong, ForcedNew;
    NothingForced(host.forced, from);
    ghost var later := host.serial;
    var recording := AcquireEncoding(host, copied);
    AllHandles(live, recording);
    InThreeParts(recording, from, later);
    if !Complete(recording) {
      GiveBack(host, live, recording);
      ForcedIsNew(old(host.forced), host.forced, HeldBy(recording), from);
      return Failure(RequestFailed);
    }
    r := Success(recording);
  }

  lemma NotBuiltYet(r: Recording)
    requires r.video.None?
    ensures Built(r)
  {}

  /** The copy of the scene with what is to be seen in it, and all that records it. */
  method Furnish(host: Host, source: Recording, ghost live: multiset<Handle>, ghost from: nat)
      returns (r: Result<Recording, Code>)
    requires host.Valid() && host.live == live + HeldBy(source) && from <= host.serial
    requires source.source.Some? && AllNew(Maybe(source.source), from)
    requires source == Blank(source.scene, source.path).(source := source.source)
    modifies host`faults, host`serial, host`live, host`released, host`active, host`asked, host`forced
    ensures host.Valid() && host.active <= old(host.active) && host.serial >= old(host.serial)
    ensures host.faults >= old(host.faults) && (r.Success? <==> host.faults == old(host.faults))
    ensures r.Failure? ==> host.live == live && r.error == RequestFailed
    ensures r.Success? ==>
              && host.live == live + HeldBy(r.value) && Complete(r.value)
              && r.value.scene == source.scene && r.value.path == source.path && !r.value.stopRequested
    ensures r.Success? ==> AllNew(HeldBy(r.value), from)
    ensures host.asked == old(host.asked) && ForcedNew(old(host.forced), host.forced, from)
  {
    hide Handles, Host.Valid, Maybe, HeldBy, Acquired, AllNew, ForcedAmong, ForcedNew, Complete, Built;
    NotBuiltYet(source);
    FirstHandle(live, source);
    NothingForced(host.forced, from);
    ghost var later := host.serial;
    var copy := host.Acquire();
    NewTogether(Maybe(source.source), Maybe(copy), from, later);
    var recording := source.(copy := copy);
    NotBuiltYet(recording);
    FirstHandle(live, recording);
    var notAdded := host.Refuses();
    if copy.None? || notAdded {
      GiveBack(host, live, recording);
      ForcedIsNew(old(host.forced), host.forced, HeldBy(recording), from);
      return Failure(RequestFailed);
    }
    r := Equip(host, recording, live, from);
  }

  /** Acquires everything for one recording, or nothing. */
  method Prepare(host: Host, spec: Spec) returns (r: Result<Recording, Code>)
    requires host.Valid()
    modifies host`faults, host`serial, host`live, host`released, host`active, host`asked, host`forced
    ensures host.Valid() && host.active <= old(host.active)
    ensures host.faults >= old(host.faults) && (r.Success? <==> host.faults == old(host.faults))
    ensures r.Failure? ==> host.live == old(host.live) && r.error != ArgumentInvalid && r.error != OutputActive
    ensures r == Failure(WindowIdentityDrift) ==> spec.bound
    ensures r.Success? ==>
              && host.live == old(host.live) + HeldBy(r.value) && Complete(r.value)
              && r.value.scene == spec.scene && r.value.path == spec.path && !r.value.stopRequested
    ensures host.serial >= old(host.serial) && (r.Success? ==> AllNew(HeldBy(r.value), old(host.serial)))
    ensures host.asked == old(host.asked) && ForcedNew(old(host.forced), host.forced, old(host.serial))
  {
    hide Handles, Host.Valid, Maybe, HeldBy, Acquired, AllNew, ForcedAmong, ForcedNew;
    NothingForced(host.forced, host.serial);
    var source := AcquireSource(host);
    if source.None? {
      NoHandle(old(host.live));
      return Failure(SceneNotFound);
    }
    var recording := Blank(spec.scene, spec.path).(source := source);
    FirstHandle(old(host.live), recording);
    var refused := Examine(host, spec);
    if refused.Some? {
      GiveBack(host, old(host.live), recording);
      ForcedIsNew(old(host.forced), host.forced, HeldBy(recording), old(host.serial));
      return Failure(refused.value);
    }
    r := Furnish(host, recording, old(host.live), old(host.serial));
  }

  lemma FirstHandle(live: multiset<Handle>, r: Recording)
    requires r.view.None? && r.video.None? && r.encoder.None? && r.audio.None? && r.audioEncoder.None? && r.output.None?
    ensures live + Maybe(r.source) + Maybe(r.copy) == live + HeldBy(r)
    ensures HeldBy(r) == if r.copy.None? then Maybe(r.source) else Maybe(r.source) + Maybe(r.copy)
  {}

  lemma InThreeParts(r: Recording, from: nat, later: nat)
    requires AllNew(Maybe(r.source) + Maybe(r.copy), from) && from <= later
    requires AllNew(Maybe(r.view) + Maybe(r.video) + Maybe(r.encoder)
                    + Maybe(r.audio) + Maybe(r.audioEncoder) + Maybe(r.output), later)
    ensures AllNew(HeldBy(r), from)
  {
    hide Maybe, HeldBy;
    AcquiredIsHeld(r);
    SameSum(Maybe(r.source) + Maybe(r.copy), Maybe(r.view), Maybe(r.video), Maybe(r.encoder), Maybe(r.audio),
            Maybe(r.audioEncoder), Maybe(r.output));
  }

  lemma SameSum(
      ab: multiset<Handle>, c: multiset<Handle>, d: multiset<Handle>,
      e: multiset<Handle>, f: multiset<Handle>, g: multiset<Handle>, h: multiset<Handle>)
    ensures ab + c + d + e + f + g + h == ab + (c + d + e + f + g + h)
  {}

  lemma AllHandles(live: multiset<Handle>, r: Recording)
    ensures live + Maybe(r.source) + Maybe(r.copy) + Maybe(r.view) + Maybe(r.video) + Maybe(r.encoder)
            + Maybe(r.audio) + Maybe(r.audioEncoder) + Maybe(r.output) == live + HeldBy(r)
  {
    hide Maybe, HeldBy;
    AcquiredIsHeld(r);
    Gathered(live, Maybe(r.source), Maybe(r.copy), Maybe(r.view), Maybe(r.video), Maybe(r.encoder), Maybe(r.audio),
             Maybe(r.audioEncoder), Maybe(r.output));
  }

  /** The recordings that a list of requests asks for, complete. */
  ghost predicate Made(specs: seq<Spec>, rs: seq<Recording>) {
    && |rs| == |specs|
    && forall i | 0 <= i < |rs| ::
         && Complete(rs[i]) && !rs[i].stopRequested
         && rs[i].scene == specs[i].scene && rs[i].path == specs[i].path
  }

  ghost predicate DistinctPaths(rs: seq<Recording>) {
    forall i, j | 0 <= i < j < |rs| :: rs[i].path != rs[j].path
  }

  ghost predicate NoneExists(rs: seq<Recording>, files: set<string>) {
    forall i | 0 <= i < |rs| :: rs[i].path !in files
  }

  /** No file of these requests is there, and no two are the same. */
  ghost predicate FreshPaths(specs: seq<Spec>, files: set<string>) {
    && (forall i | 0 <= i < |specs| :: specs[i].path !in files)
    && (forall i, j | 0 <= i < j < |specs| :: specs[i].path != specs[j].path)
  }

  lemma MadeIsFresh(specs: seq<Spec>, rs: seq<Recording>, files: set<string>)
    requires Made(specs, rs) && DistinctPaths(rs) && NoneExists(rs, files)
    ensures FreshPaths(specs, files)
  {}

  lemma TakenIsNotFresh(specs: seq<Spec>, i: nat, rs: seq<Recording>, files: set<string>)
    requires i < |specs| && Made(specs[..i], rs)
    requires specs[i].path in files || exists k | 0 <= k < |rs| :: rs[k].path == specs[i].path
    ensures !FreshPaths(specs, files)
  {
    if k :| 0 <= k < |rs| && rs[k].path == specs[i].path {
      assert specs[..i][k].path == specs[i].path;
    }
  }

  lemma MadeIsBuilt(specs: seq<Spec>, rs: seq<Recording>)
    requires Made(specs, rs)
    ensures AllBuilt(rs)
  {}

  /** Acquires everything for all recordings, or nothing; no file is there yet, and no two are the same. */
  method PrepareAll(host: Host, specs: seq<Spec>) returns (r: Result<seq<Recording>, Code>)
    requires host.Valid()
    modifies host`faults, host`serial, host`live, host`released, host`active, host`asked, host`forced
    ensures host.Valid() && host.active <= old(host.active)
    ensures host.faults >= old(host.faults)
    ensures r.Success? <==> host.faults == old(host.faults) && FreshPaths(specs, host.files)
    ensures r == Failure(OutputActive) ==> !FreshPaths(specs, host.files)
    ensures r == Failure(ArgumentInvalid) ==> exists i | 0 <= i < |specs| :: specs[i].ownDirectory
    ensures r.Failure? && r.error != OutputActive ==> host.faults > old(host.faults)
    ensures r.Failure? ==> host.live == old(host.live)
    ensures r.Success? ==> host.live == old(host.live) + Held(r.value) && Made(specs, r.value)
    ensures r.Success? ==> AllNew(Held(r.value), old(host.serial))
    ensures r.Success? ==> DistinctPaths(r.value) && NoneExists(r.value, host.files)
    ensures host.asked == old(host.asked) && ForcedNew(old(host.forced), host.forced, old(host.serial))
  {
    hide Handles, Host.Valid, HeldBy, Held, Complete, Made, DistinctPaths, NoneExists, FreshPaths, AllNew, ForcedNew,
         ForcedAmong, OnlyForced;
    NothingForced(host.forced, host.serial);
    NewTogether(multiset{}, multiset{}, host.serial, host.serial) by {
      NoHandle(multiset{});
    }
    var rs: seq<Recording> := [];
    assert Held(rs) == multiset{} by {
      EmptiedHoldNothing(rs);
    }
    NoneMade(host.files);
    assert specs[..0] == [];
    for i := 0 to |specs|
      invariant host.Valid() && host.active <= old(host.active) && host.faults == old(host.faults)
      invariant host.live == old(host.live) + Held(rs)
      invariant host.serial >= old(host.serial) && AllNew(Held(rs), old(host.serial))
      invariant Made(specs[..i], rs) && DistinctPaths(rs) && NoneExists(rs, host.files)
      invariant host.asked == old(host.asked) && ForcedNew(old(host.forced), host.forced, old(host.serial))
    {
      ghost var before := host.forced;
      var refused: Option<Code> := None;
      // The directory is not absolute, too long, or cannot be made.
      var noDirectory := host.Refuses();
      if noDirectory {
        refused := Some(if specs[i].ownDirectory then ArgumentInvalid else RequestFailed);
      } else if specs[i].path in host.files || exists k | 0 <= k < |rs| :: rs[k].path == specs[i].path {
        TakenIsNotFresh(specs, i, rs, host.files);
        refused := Some(OutputActive);
      } else {
        ghost var later := host.serial;
        var prepared := Prepare(host, specs[i]);
        NewlyForced(old(host.forced), before, host.forced, old(host.serial), later);
        if prepared.Failure? {
          refused := Some(prepared.error);
        } else {
          HeldStep([prepared.value], 0, rs, prepared.value);
          NewTogether(Held(rs), HeldBy(prepared.value), old(host.serial), later);
          OneMoreMade(specs, i, rs, prepared.value, host.files);
          rs := rs + [prepared.value];
        }
      }
      if refused.Some? {
        MadeIsBuilt(specs[..i], rs);
        TakeAndGive(old(host.live), Held(rs));
        ghost var active, forced := host.active, host.forced;
        var emptied := ReleaseAll(host, rs);
        ForcedIsAmong(forced, host.forced, rs, active);
        ForcedIsNew(forced, host.forced, Held(rs), old(host.serial));
        NewlyForced(old(host.forced), forced, host.forced, old(host.serial), old(host.serial));
        return Failure(refused.value);
      }
    }
    assert specs[..|specs|] == specs;
    MadeIsFresh(specs, rs, host.files);
    r := Success(rs);
  }

  lemma NoneMade(files: set<string>)
    ensures Made([], []) && DistinctPaths([]) && NoneExists([], files)
  {}

  lemma OneMoreMade(specs: seq<Spec>, i: nat, rs: seq<Recording>, r: Recording, files: set<string>)
    requires i < |specs| && Made(specs[..i], rs) && DistinctPaths(rs) && NoneExists(rs, files)
    requires Complete(r) && !r.stopRequested && r.scene == specs[i].scene && r.path == specs[i].path
    requires r.path !in files && forall k | 0 <= k < |rs| :: rs[k].path != r.path
    ensures Made(specs[..i + 1], rs + [r]) && DistinctPaths(rs + [r]) && NoneExists(rs + [r], files)
  {}

  function Paths(rs: seq<Recording>): set<string> {
    set r | r in rs :: r.path
  }

  lemma OneMorePath(rs: seq<Recording>, i: nat)
    requires i < |rs|
    ensures Paths(rs[..i + 1]) == Paths(rs[..i]) + {rs[i].path}
  {
    assert rs[..i + 1] == rs[..i] + [rs[i]];
  }

  lemma NoPaths(rs: seq<Recording>, files: set<string>)
    requires rs == []
    ensures files - Paths(rs) == files == files + Paths(rs)
  {}

  lemma OneLess(files: set<string>, paths: set<string>, path: string)
    ensures files - paths - {path} == files - (paths + {path})
  {}

  method Discard(host: Host, r: Recording)
    requires host.Valid() && HeldBy(r) <= host.live && Built(r)
    modifies host`live, host`released, host`active, host`asked, host`forced, host`files
    ensures host.Valid() && host.active <= old(host.active)
    ensures host.live == old(host.live) - HeldBy(r) && host.files == old(host.files) - {r.path}
    ensures host.asked == old(host.asked)
    ensures old(host.forced) <= host.forced <= old(host.forced) + RunningOutputs([r], old(host.active))
  {
    hide Handles, Host.Valid, HeldBy;
    var emptied := Release(host, r, true);
    host.Remove(r.path);
  }

  /** Undoes a start that failed half-way: everything is released, and every file removed. */
  method RollBack(host: Host, rs: seq<Recording>)
    requires host.Valid() && Held(rs) <= host.live && AllBuilt(rs)
    modifies host`live, host`released, host`active, host`asked, host`forced, host`files
    ensures host.Valid() && host.active <= old(host.active)
    ensures host.live == old(host.live) - Held(rs)
    ensures host.files == old(host.files) - Paths(rs)
    ensures host.asked == old(host.asked) && OnlyForced(old(host.forced), host.forced, rs, old(host.active))
  {
    hide Handles, Host.Valid, HeldBy, Held, Paths, OnlyForced, RunningOutputs;
    NoneForced(host.forced, rs, host.active);
    ghost var base := host.live - Held(rs);
    assert rs[0..] == rs;
    NoPaths(rs[..0], host.files);
    for i := 0 to |rs|
      invariant host.Valid() && host.active <= old(host.active)
      invariant host.live == base + Held(rs[i..])
      invariant host.files == old(host.files) - Paths(rs[..i])
      invariant host.asked == old(host.asked) && OnlyForced(old(host.forced), host.forced, rs, old(host.active))
    {
      ghost var active, forced := host.active, host.forced;
      HeldStep(rs, i, [], rs[i]);
      Swapped(base, multiset{}, HeldBy(rs[i]), Held(rs[i + 1..]), multiset{});
      Discard(host, rs[i]);
      OneMoreForced(old(host.forced), forced, host.forced, rs, i, active, old(host.active));
      OneMorePath(rs, i);
      OneLess(old(host.files), Paths(rs[..i]), rs[i].path);
    }
    assert rs[..|rs|] == rs;
    assert Held(rs[|rs|..]) == multiset{} by {
      EmptiedHoldNothing(rs[|rs|..]);
    }
  }

  /** Starts every output, or undoes everything. */
  method StartOutputs(host: Host, rs: seq<Recording>) returns (ok: bool)
    requires host.Valid() && Held(rs) <= host.live && AllBuilt(rs)
    requires forall i | 0 <= i < |rs| :: Complete(rs[i])
    requires NoneExists(rs, host.files)
    modifies host`faults, host`live, host`released, host`active, host`asked, host`forced, host`files
    ensures host.Valid()
    ensures host.faults >= old(host.faults) && (ok <==> host.faults == old(host.faults))
    ensures ok ==> host.live == old(host.live) && host.files == old(host.files) + Paths(rs)
    ensures ok ==> forall h | h in host.active :: h in old(host.active) || h in Held(rs)
    ensures !ok ==> host.live == old(host.live) - Held(rs) && host.files == old(host.files)
    ensures !ok ==> host.active <= old(host.active)
    ensures host.asked == old(host.asked) && ForcedAmong(old(host.forced), host.forced, Held(rs))
  {
    hide Handles, Host.Valid, HeldBy, Held, Complete;
    for i := 0 to |rs|
      invariant host.Valid() && host.faults == old(host.faults) && host.asked == old(host.asked) && host.forced == old(host.forced)
      invariant host.live == old(host.live) && host.files == old(host.files) + Paths(rs[..i])
      invariant forall h | h in host.active :: h in old(host.active) || h in Held(rs)
    {
      CompleteHasOutput(rs[i]);
      OutputIsHeld(rs, i);
      ok := host.Start(rs[i].output.value, rs[i].path);
      assert rs[..i + 1] == rs[..i] + [rs[i]];
      if !ok {
        forall h: Handle ensures old(host.live)[h] <= 1 {
          LiveAtMostOnce(host, h);
        }
        ghost var active := host.active;
        RollBack(host, rs);
        ForcedIsAmong(old(host.forced), host.forced, rs, active);
        OnlyLiveIsActive(host, old(host.live), rs);
        return;
      }
    }
    assert rs[..|rs|] == rs;
    ok := true;
  }

  lemma {:induction false} OutputIsHeld(rs: seq<Recording>, i: nat)
    requires i < |rs| && rs[i].output.Some?
    ensures rs[i].output.value in Held(rs)
  {
    hide HeldBy;
    if i == 0 {
      OutputIsOneOfThem(rs[0]);
    } else {
      OutputIsHeld(rs[1..], i - 1);
    }
  }

  lemma CompleteHasOutput(r: Recording)
    requires Complete(r)
    ensures r.output.Some?
  {}

  lemma OutputIsOneOfThem(r: Recording)
    requires r.output.Some?
    ensures r.output.value in HeldBy(r)
  {
    hide Rendering;
  }

  /** What has just been released is not active. */
  lemma OnlyLiveIsActive(host: Host, before: multiset<Handle>, rs: seq<Recording>)
    requires host.Valid() && Held(rs) <= before && host.live == before - Held(rs)
    requires forall h: Handle :: before[h] <= 1
    ensures forall h | h in host.active :: h !in Held(rs)
  {}

  ghost predicate DistinctScenes(rs: seq<Recording>) {
    forall i, j | 0 <= i < j < |rs| :: rs[i].scene != rs[j].scene
  }

  lemma {:induction false} RunsOnce(rs: seq<Recording>, active: set<Handle>, j: Job)
    requires DistinctScenes(rs)
    ensures Running(rs, active)[j] <= 1
  {
    if rs != [] {
      RunsOnce(rs[1..], active, j);
      if j in JobOf(rs[0], active) && j in Running(rs[1..], active) {
        var i := WhoRuns(rs[1..], active, j);
      }
    }
  }

  /** New recordings of scenes that are not recorded, into files that are not there, join the others. */
  lemma JoinedExclusive(jobs: multiset<Job>, rs: seq<Recording>, active: set<Handle>, files: set<string>)
    requires Exclusive(jobs, files) && |jobs| + |rs| <= MAX_RECORDINGS
    requires DistinctPaths(rs) && DistinctScenes(rs) && NoneExists(rs, files)
    requires forall i | 0 <= i < |rs| :: !SceneRuns(jobs, rs[i].scene)
    ensures Exclusive(jobs + Running(rs, active), files + Paths(rs))
  {
    hide Running;
    var added := Running(rs, active);
    RunningBounded(rs, active);
    forall j | j in added
      ensures j !in jobs && added[j] == 1 && j.path in Paths(rs) && j.path !in files && !SceneRuns(jobs, j.scene)
    {
      RunsOnce(rs, active, j);
      var i := WhoRuns(rs, active, j);
      assert rs[i] in rs;
    }
    forall j, k | j in added && k in added && j != k
      ensures j.scene != k.scene && j.path != k.path
    {
      var i := WhoRuns(rs, active, j);
      var l := WhoRuns(rs, active, k);
    }
  }

  ghost predicate AllWellFormed(specs: seq<Spec>) {
    && (forall i | 0 <= i < |specs| :: specs[i].wellFormed)
    && (forall i, j | 0 <= i < j < |specs| :: specs[i].scene != specs[j].scene && specs[i].prefix != specs[j].prefix)
  }

  /** Requests that can be met while these jobs run and these files are there. */
  ghost predicate Fits(specs: seq<Spec>, jobs: multiset<Job>, files: set<string>) {
    && 1 <= |specs| && |jobs| + |specs| <= MAX_RECORDINGS
    && AllWellFormed(specs) && NoSceneRuns(specs, jobs) && FreshPaths(specs, files)
  }

  lemma FewerFit(specs: seq<Spec>, fewer: multiset<Job>, jobs: multiset<Job>, files: set<string>)
    requires Fits(specs, jobs, files) && fewer <= jobs
    ensures Fits(specs, fewer, files)
  {
    FewerJobs(fewer, jobs);
    forall i | 0 <= i < |specs|
      ensures !SceneRuns(fewer, specs[i].scene)
    {
      FewerScenes(fewer, jobs, specs[i].scene);
    }
  }

  ghost predicate NoSceneRuns(specs: seq<Spec>, jobs: multiset<Job>) {
    forall i | 0 <= i < |specs| :: !SceneRuns(jobs, specs[i].scene)
  }

  /** The checks of the requests, one after the other; the first that fails decides. */
  method CheckSpecs(host: Host, rs: seq<Recording>, specs: seq<Spec>) returns (refused: Option<Code>)
    requires host.Valid()
    modifies host`active
    ensures host.Valid() && host.active <= old(host.active)
    ensures refused.None? ==> AllWellFormed(specs) && NoSceneRuns(specs, Running(rs, host.active))
    ensures refused == Some(ArgumentInvalid) ==> !AllWellFormed(specs)
    ensures refused == Some(OutputActive) ==> !NoSceneRuns(specs, Running(rs, old(host.active)))
    ensures refused.Some? ==> refused.value == ArgumentInvalid || refused.value == OutputActive
  {
    hide Handles, Host.Valid, Running;
    for i := 0 to |specs|
      invariant host.Valid() && host.active <= old(host.active)
      invariant AllWellFormed(specs[..i]) && NoSceneRuns(specs[..i], Running(rs, host.active))
    {
      ghost var before := host.active;
      if !specs[i].wellFormed
         || (exists k | 0 <= k < i :: specs[k].scene == specs[i].scene)
         || (exists k | 0 <= k < i :: specs[k].prefix == specs[i].prefix) {
        return Some(ArgumentInvalid);
      }
      var active := SceneActive(host, rs, specs[i].scene);
      RunningShrinks(rs, old(host.active), before);
      RunningShrinks(rs, before, host.active);
      if active {
        return Some(OutputActive);
      }
    }
    assert specs[..|specs|] == specs;
    refused := None;
  }

  /** One session changes, the others stay. */
  lemma OneChanges(sessions: seq<Session>, i: nat, s': Session, active: set<Handle>)
    requires i < |sessions| && SessionTidied(sessions[i], s', active)
    ensures SessionsTidied(sessions, sessions[i := s'], active)
    ensures Held(sessions[i].recordings) <= Held(Flat(sessions))
    ensures Held(Flat(sessions[i := s'])) ==
            Held(Flat(sessions)) - Held(sessions[i].recordings) + Held(s'.recordings)
  {
    hide Held, Flat, Running, SessionTidied;
    var sessions' := sessions[i := s'];
    Share(sessions, i, active);
    Share(sessions', i, active);
    assert sessions'[..i] == sessions[..i] && sessions'[i + 1..] == sessions[i + 1..];
    NothingTidied(sessions, active);
  }

  lemma IsPart(sessions: seq<Session>, i: nat)
    requires i < |sessions|
    ensures Held(sessions[i].recordings) <= Held(Flat(sessions))
  {
    hide Held, Flat, Running;
    Share(sessions, i, {});
  }

  /** The outputs of recordings that were, or were not, asked to stop. */
  function Outputs(rs: seq<Recording>, asked: bool): set<Handle> {
    set r | r in rs && r.output.Some? && r.stopRequested == asked :: r.output.value
  }

  /** A recording is marked only when its output has been asked to stop; nothing else changes. */
  ghost predicate Asked(rs: seq<Recording>, rs': seq<Recording>, asked: set<Handle>) {
    |rs'| == |rs| && forall i | 0 <= i < |rs| ::
      || rs'[i] == rs[i]
      || (rs'[i] == rs[i].(stopRequested := true) && rs[i].output.Some? && rs[i].output.value in asked)
  }

  /** The first request to stop an output is polite, the second is not. */
  method StopOutputs(host: Host, rs: seq<Recording>) returns (rs': seq<Recording>)
    requires host.Valid() && AllBuilt(rs)
    modifies host`active, host`asked, host`forced
    ensures host.Valid() && host.active <= old(host.active)
    ensures Asked(rs, rs', host.asked)
    ensures host.asked <= old(host.asked) + Outputs(rs, false) && host.forced <= old(host.forced) + Outputs(rs, true)
    ensures forall i | 0 <= i < |rs| && IsRunning(rs[i], host.active) ::
              && rs'[i].stopRequested
              && rs[i].output.value in (if rs[i].stopRequested then host.forced else host.asked)
  {
    hide Handles, Host.Valid;
    rs' := [];
    for i := 0 to |rs|
      invariant host.Valid() && host.active <= old(host.active)
      invariant Asked(rs[..i], rs', host.asked)
      invariant host.asked <= old(host.asked) + Outputs(rs, false) && host.forced <= old(host.forced) + Outputs(rs, true)
      invariant forall k | 0 <= k < i && IsRunning(rs[k], host.active) ::
                  && rs'[k].stopRequested
                  && rs[k].output.value in (if rs[k].stopRequested then host.forced else host.asked)
    {
      var r' := rs[i];
      var active := host.IsActive(rs[i].output);
      if active {
        host.Stop(rs[i].output.value, rs[i].stopRequested);
        r' := r'.(stopRequested := true);
      }
      rs' := rs' + [r'];
    }
  }

  lemma StoppingTidies(rs: seq<Recording>, rs': seq<Recording>, asked: set<Handle>, active: set<Handle>)
    requires Asked(rs, rs', asked)
    ensures AllTidied(rs, rs', active) && (AllBuilt(rs) ==> AllBuilt(rs'))
  {}

  lemma {:induction false} StoppingHoldsTheSame(rs: seq<Recording>, rs': seq<Recording>, asked: set<Handle>)
    requires Asked(rs, rs', asked)
    ensures Held(rs') == Held(rs)
  {
    hide HeldBy;
    if rs != [] {
      assert rs'[0] == rs[0] || rs'[0] == rs[0].(stopRequested := true);
      SameHeld(rs[0]);
      assert Asked(rs[1..], rs'[1..], asked);
      StoppingHoldsTheSame(rs[1..], rs'[1..], asked);
    }
  }

  lemma SameHeld(r: Recording)
    ensures HeldBy(r.(stopRequested := true)) == HeldBy(r)
  {}

  /** Releases every recording of every session. */
  method ReleaseSessions(host: Host, sessions: seq<Session>) returns (sessions': seq<Session>)
    requires host.Valid() && Held(Flat(sessions)) <= host.live && AllHealthy(sessions, host.active)
    modifies host`live, host`released, host`active, host`asked, host`forced
    ensures host.Valid() && host.active <= old(host.active)
    ensures host.live == old(host.live) - Held(Flat(sessions))
    ensures |sessions'| == |sessions| && forall i | 0 <= i < |sessions| :: IsOver(sessions[i], sessions'[i])
  {
    hide Handles, Host.Valid, HeldBy, Held, Flat, Healthy, IsOver, OnlyForced, AllBuilt, RunningOutputs;
    ghost var base := host.live - Held(Flat(sessions));
    sessions' := [];
    assert sessions[0..] == sessions;
    for i := 0 to |sessions|
      invariant host.Valid() && host.active <= old(host.active)
      invariant host.live == base + Held(Flat(sessions[i..]))
      invariant |sessions'| == i && forall k | 0 <= k < i :: IsOver(sessions[k], sessions'[k])
    {
      FlatStep(sessions, i, [], sessions[i]);
      HealthyIsBuilt(sessions[i], old(host.active));
      Swapped(base, multiset{}, Held(sessions[i].recordings), Held(Flat(sessions[i + 1..])), multiset{});
      var rs' := ReleaseAll(host, sessions[i].recordings);
      var s' := sessions[i].(stopped := true, recordings := rs');
      AllReleased(sessions[i], s');
      sessions' := sessions' + [s'];
    }
    assert sessions[|sessions|..] == [];
    NoSessionsHoldNothing();
  }

  ghost predicate IsOver(s: Session, s': Session) {
    && s' == s.(stopped := true, recordings := s'.recordings) && |s'.recordings| == |s.recordings|
    && forall i | 0 <= i < |s.recordings| :: s'.recordings[i] == Emptied(s.recordings[i])
  }

  lemma AllReleased(s: Session, s': Session)
    requires s' == s.(stopped := true, recordings := s'.recordings) && |s'.recordings| == |s.recordings|
    requires forall i | 0 <= i < |s.recordings| :: s'.recordings[i] == Emptied(s.recordings[i])
    ensures IsOver(s, s')
  {}

  lemma OneIsOver(s: Session, s': Session, active: set<Handle>)
    requires IsOver(s, s')
    ensures Held(s'.recordings) == multiset{} && Running(s'.recordings, active) == multiset{}
    ensures Healthy(s', active) && s'.id == s.id
  {
    EmptiedHoldNothing(s'.recordings);
    NoneRuns(s'.recordings, active);
  }

  /** Sessions that are over hold nothing and run nothing. */
  lemma {:induction false} OverHoldsNothing(sessions: seq<Session>, sessions': seq<Session>, active: set<Handle>)
    requires |sessions'| == |sessions| && forall i | 0 <= i < |sessions| :: IsOver(sessions[i], sessions'[i])
    ensures Held(Flat(sessions')) == multiset{} && Running(Flat(sessions'), active) == multiset{}
  {
    hide Held, Running, IsOver;
    if sessions == [] {
      NoSessionsHoldNothing();
      NoSessionsRun(active);
    } else {
      OneIsOver(sessions[0], sessions'[0], active);
      OverHoldsNothing(sessions[1..], sessions'[1..], active);
      HeldConcat(sessions'[0].recordings, Flat(sessions'[1..]));
      RunningConcat(sessions'[0].recordings, Flat(sessions'[1..]), active);
    }
  }

  /** Sessions that are over keep their numbers. */
  lemma OverIsHealthy(sessions: seq<Session>, sessions': seq<Session>, active: set<Handle>)
    requires |sessions'| == |sessions| && forall i | 0 <= i < |sessions| :: IsOver(sessions[i], sessions'[i])
    ensures AllHealthy(sessions', active) && forall i | 0 <= i < |sessions| :: sessions'[i].id == sessions[i].id
  {
    hide Held, Running, IsOver, Healthy;
    forall i | 0 <= i < |sessions|
      ensures Healthy(sessions'[i], active) && sessions'[i].id == sessions[i].id
    {
      OneIsOver(sessions[i], sessions'[i], active);
    }
  }

  /** What a status request answers. */
  datatype Report = Report(sessionActive: bool, outputActive: seq<bool>)

  class Manager {
    const host: Host
    var sessions: seq<Session>
    var nextId: nat

    /** What holds between any two calls, whatever has ended in the meantime. */
    ghost predicate Valid()
      reads this, host
    {
      && host.Valid()
      && Held(Flat(sessions)) == host.live
      && Exclusive(Running(Flat(sessions), host.active), host.files)
      && |sessions| <= HISTORY_LIMIT && AllHealthy(sessions, host.active) && Numbered(sessions, nextId)
    }

    constructor (files: set<string>)
      ensures Valid() && sessions == [] && fresh(host) && host.files == files
    {
      host := new Host(files);
      sessions, nextId := [], 0;
    }

    /** Time passes: any outputs may end. */
    method OutputsEnd()
      requires Valid()
      modifies host`active
      ensures Valid() && host.active <= old(host.active)
    {
      hide Handles, Host.Valid, Held, Flat, Running, Exclusive, Healthy, Numbered;
      var looked := host.IsActive(None);
      StaysValid(old(host.active));
    }

    /** Outputs that end break nothing. */
    lemma StaysValid(before: set<Handle>)
      requires Exclusive(Running(Flat(sessions), before), host.files) && host.active <= before
      requires AllHealthy(sessions, before)
      ensures Exclusive(Running(Flat(sessions), host.active), host.files) && AllHealthy(sessions, host.active)
    {
      RunningShrinks(Flat(sessions), before, host.active);
      FewerAreExclusive(Running(Flat(sessions), before), Running(Flat(sessions), host.active), host.files);
      AllHealthyLater(sessions, before, host.active);
    }

    /** The sessions after tidying are as valid as those before. */
    lemma TidyStaysValid(tidied: seq<Session>, before: set<Handle>)
      requires Exclusive(Running(Flat(sessions), before), host.files) && host.active <= before
      requires SessionsTidied(sessions, tidied, host.active) && Numbered(sessions, nextId)
      ensures Exclusive(Running(Flat(tidied), host.active), host.files) && Numbered(tidied, nextId)
      ensures |tidied| == |sessions|
    {
      RunningShrinks(Flat(sessions), before, host.active);
      FewerAreExclusive(Running(Flat(sessions), before), Running(Flat(sessions), host.active), host.files);
      FlatTidied(sessions, tidied, host.active);
      forall i | 0 <= i < |sessions|
        ensures tidied[i].id == sessions[i].id
      {
        assert SessionTidied(sessions[i], tidied[i], host.active);
      }
    }

    /** Gives back what has ended, in every session. */
    method Tidy()
      requires Valid()
      modifies this`sessions, host`live, host`released, host`active, host`asked, host`forced
      ensures Valid() && host.active <= old(host.active)
      ensures SessionsTidied(old(sessions), sessions, host.active)
      ensures SessionsCollected(old(sessions), sessions, old(host.active))
      ensures host.asked == old(host.asked) && host.forced == old(host.forced)
    {
      hide Handles, Host.Valid, Held, Flat, Running, Exclusive, Healthy, Numbered, SessionsTidied, SessionsCollected;
      var tidied := TidyAll(host, sessions);
      TidyStaysValid(tidied, old(host.active));
      sessions := tidied;
    }

    lemma HeldIsOld()
      requires Valid()
      ensures forall h | h in Held(Flat(sessions)) :: h < host.serial
    {
      forall h | h in host.live
        ensures h < host.serial
      {
        LiveIsOld(host, h);
      }
    }

    function Find(id: nat): (i: nat)
      reads this
      ensures i < |sessions| ==> sessions[i].id == id
      ensures i >= |sessions| ==> forall k | 0 <= k < |sessions| :: sessions[k].id != id
    {
      FindFrom(sessions, id, 0)
    }

    /** Gives back what has ended in one session, and says what is active. */
    method Status(id: nat) returns (r: Option<Report>)
      requires Valid()
      modifies this`sessions, host`live, host`released, host`active, host`asked, host`forced
      ensures Valid() && host.active <= old(host.active)
      ensures SessionsTidied(old(sessions), sessions, host.active) && |sessions| == |old(sessions)|
      ensures r.Some? <==> old(Find(id)) < |sessions|
      ensures r.None? ==> sessions == old(sessions)
      ensures host.asked == old(host.asked) && host.forced == old(host.forced)
      ensures r.Some? ==> sessions == old(sessions)[old(Find(id)) := sessions[old(Find(id))]]
      ensures r.Some? ==>
                AllCollected(old(sessions)[old(Find(id))].recordings, sessions[old(Find(id))].recordings, old(host.active))
      ensures r.Some? ==> Truthful(r.value, old(sessions)[old(Find(id))].recordings, old(host.active), host.active)
    {
      hide Handles, Host.Valid, Held, Flat, Running, Exclusive, Healthy, Numbered, SessionsTidied, SessionTidied, Truthful, AllCollected;
      var i := Find(id);
      if i >= |sessions| {
        NothingTidied(sessions, host.active);
        return None;
      }
      IsPart(sessions, i);
      var s' := TidySession(host, sessions[i]);
      ghost var tidy := host.active;
      OneChanges(sessions, i, s', tidy);
      TidyStaysValid(sessions[i := s'], old(host.active));
      AllHealthyLater(sessions, old(host.active), tidy);
      sessions := sessions[i := s'];
      var report := LookAt(host, s'.recordings);
      StaysValid(tidy);
      StaysTidied(old(sessions), tidy);
      TidiedIsTruthful(report, old(sessions)[i], s', old(host.active), tidy, host.active);
      r := Some(report);
    }

    /** Asks the outputs of a session to stop; outputs that had been asked before are forced. */
    method Stop(id: nat) returns (found: bool)
      requires Valid()
      modifies this`sessions, host`active, host`asked, host`forced
      ensures Valid() && host.active <= old(host.active)
      ensures SessionsTidied(old(sessions), sessions, host.active)
      ensures found <==> old(Find(id)) < |sessions|
      ensures !found ==> sessions == old(sessions) && host.asked == old(host.asked) && host.forced == old(host.forced)
      ensures found ==> sessions == old(sessions)[old(Find(id)) := sessions[old(Find(id))]]
      ensures found ==>
                && host.asked <= old(host.asked) + Outputs(old(sessions)[old(Find(id))].recordings, false)
                && host.forced <= old(host.forced) + Outputs(old(sessions)[old(Find(id))].recordings, true)
      ensures found ==>
                Asked(old(sessions)[old(Find(id))].recordings, sessions[old(Find(id))].recordings, host.asked)
      ensures found ==> forall k: nat {:trigger sessions[old(Find(id))].recordings[k]} |
                k < |sessions[old(Find(id))].recordings| && k < |old(sessions)[old(Find(id))].recordings|
                && IsRunning(sessions[old(Find(id))].recordings[k], host.active) ::
                && sessions[old(Find(id))].recordings[k].stopRequested
                && sessions[old(Find(id))].recordings[k].output.value in
                   (if old(sessions)[old(Find(id))].recordings[k].stopRequested then host.forced else host.asked)
    {
      hide Handles, Host.Valid, Held, Flat, Running, Exclusive, Numbered, SessionsTidied;
      var i := Find(id);
      if i >= |sessions| {
        NothingTidied(sessions, host.active);
        return false;
      }
      var rs := sessions[i].recordings;
      assert Healthy(sessions[i], host.active);
      var rs' := StopOutputs(host, rs);
      StoppingTidies(rs, rs', host.asked, host.active);
      StoppingHoldsTheSame(rs, rs', host.asked);
      var s' := sessions[i].(recordings := rs');
      OneChanges(sessions, i, s', host.active);
      TidyStaysValid(sessions[i := s'], old(host.active));
      AllHealthyLater(sessions, old(host.active), host.active);
      TidyingKeepsRunning(rs, rs', host.active);
      sessions := sessions[i := s'];
      found := true;
    }

    /** Stops and gives back everything: each handle that was ever acquired has been released once. */
    method Shutdown()
      requires Valid()
      modifies this`sessions, host`live, host`released, host`active, host`asked, host`forced
      ensures Valid() && host.live == multiset{} && host.active == {}
      ensures |sessions| == |old(sessions)| && forall i | 0 <= i < |sessions| :: IsOver(old(sessions)[i], sessions[i])
      ensures forall h: Handle :: multiset(host.released)[h] == if h < host.serial then 1 else 0
    {
      hide Handles, Held, Flat, Running, Healthy, IsOver;
      var over := ReleaseSessions(host, sessions);
      OverHoldsNothing(sessions, over, host.active);
      OverIsHealthy(sessions, over, host.active);
      sessions := over;
      forall h: Handle
        ensures multiset(host.released)[h] == if h < host.serial then 1 else 0
      {
        HandlesAreDistinct(host.serial, h);
      }
    }

    lemma StaysTidied(original: seq<Session>, before: set<Handle>)
      requires SessionsTidied(original, sessions, before) && host.active <= before
      ensures SessionsTidied(original, sessions, host.active)
    {
      NothingTidied(sessions, host.active);
      SessionsTidiedLater(original, sessions, sessions, before, host.active);
    }

    /**
      Starts one recording for each request, all or none: a start that fails leaves the sessions,
      the files and what runs as they are, and gives back whatever it had acquired. It fails only for
      a reason, and tidied are the sessions once everything that had ended is given back.
     */
    method Start(specs: seq<Spec>) returns (r: Result<nat, Code>, ghost tidied: seq<Session>)
      requires Valid()
      modifies this`sessions, this`nextId, host`faults
      modifies host`serial, host`live, host`released, host`active, host`asked, host`forced, host`files
      ensures Valid()
      ensures SessionsCollected(old(sessions), tidied, old(host.active))
      ensures r.Success? ==>
                && AllWellFormed(specs) && 1 <= |specs| <= MAX_RECORDINGS
                && sessions != [] && Made(specs, Newest(sessions).recordings)
                && Newest(sessions).id == r.value && !Newest(sessions).stopped
                && NoneExists(Newest(sessions).recordings, old(host.files))
                && host.files == old(host.files) + Paths(Newest(sessions).recordings)
                && Running(Flat(Others(sessions)), host.active) == Running(Flat(old(sessions)), host.active)
                && (if |tidied| < HISTORY_LIMIT then Others(sessions) == tidied
                    else DroppedFirst(tidied, Others(sessions), old(host.active)))
      ensures r.Failure? ==>
                && sessions == tidied && host.files == old(host.files)
                && SessionsTidied(old(sessions), sessions, host.active) && host.active <= old(host.active)
      ensures host.asked == old(host.asked) && ForcedNew(old(host.forced), host.forced, old(host.serial))
      ensures host.faults >= old(host.faults)
      ensures host.faults == old(host.faults) && Fits(specs, Running(Flat(old(sessions)), old(host.active)), old(host.files))
              ==> r.Success?
      ensures r.Success? ==>
                && host.faults == old(host.faults)
                && Fits(specs, Running(Flat(old(sessions)), host.active), old(host.files))
      ensures r == Failure(OutputActive) ==>
                || |Running(Flat(old(sessions)), old(host.active))| + |specs| > MAX_RECORDINGS
                || !NoSceneRuns(specs, Running(Flat(old(sessions)), old(host.active)))
                || !FreshPaths(specs, old(host.files))
      ensures r == Failure(ArgumentInvalid) && host.faults == old(host.faults) ==>
                specs == [] || |specs| > MAX_RECORDINGS || !AllWellFormed(specs)
      ensures r.Failure? && r.error !in {OutputActive, ArgumentInvalid} ==> host.faults > old(host.faults)
      ensures specs == [] || |specs| > MAX_RECORDINGS ==> r == Failure(ArgumentInvalid)
    {
      hide Handles, Host.Valid, Held, Flat, Running, Exclusive, Healthy, Numbered, SessionsTidied, Made, DistinctPaths,
           NoneExists, Paths, AllWellFormed, NoSceneRuns, AllHealthy, AllNew, SessionsCollected, FreshPaths, DroppedFirst,
           ForcedNew;
      ghost var from, earlier := host.serial, host.active;
      HeldIsOld();
      Tidy();
      NothingForced(host.forced, from);
      tidied := sessions;
      ghost var before := host.active;
      if specs == [] || |specs| > MAX_RECORDINGS {
        r := Failure(ArgumentInvalid);
        return;
      }
      TidiedJobs(old(sessions), tidied, earlier, before, specs);
      var count := ActiveRecordingCount(host, sessions);
      StaysValid(before);
      StaysTidied(old(sessions), before);
      before := host.active;
      if count + |specs| > MAX_RECORDINGS {
        r := Failure(OutputActive);
        return;
      }
      TidiedJobs(old(sessions), tidied, earlier, before, specs);
      var refused := CheckSpecs(host, Flat(sessions), specs);
      StaysValid(before);
      StaysTidied(old(sessions), before);
      FewerRunning(Flat(sessions), before, host.active);
      before := host.active;
      if refused.Some? {
        r := Failure(refused.value);
        return;
      }
      // OBS has no video or no audio yet.
      var notReady := host.Refuses();
      if notReady {
        r := Failure(InstanceNotReady);
        return;
      }
      var prepared := PrepareAll(host, specs);
      StaysValid(before);
      StaysTidied(old(sessions), before);
      FewerRunning(Flat(sessions), before, host.active);
      StillFree(specs, Flat(sessions), before, host.active);
      before := host.active;
      if prepared.Failure? {
        r := Failure(prepared.error);
        return;
      }
      ghost var forced := host.forced;
      r := Launch(specs, prepared.value, old(sessions), from, earlier);
      NewlyForced(old(host.forced), forced, host.forced, from, from);
      if r.Failure? {
        StaysTidied(old(sessions), before);
      }
    }

    /** Starts what has been prepared, and files it. */
    method Launch(specs: seq<Spec>, rs: seq<Recording>, ghost original: seq<Session>, ghost from: nat, ghost earlier: set<Handle>)
        returns (r: Result<nat, Code>)
      requires host.Valid() && host.live == Held(Flat(sessions)) + Held(rs)
      requires Exclusive(Running(Flat(sessions), host.active), host.files)
      requires |sessions| <= HISTORY_LIMIT && AllHealthy(sessions, host.active) && Numbered(sessions, nextId)
      requires Made(specs, rs) && DistinctPaths(rs) && NoneExists(rs, host.files) && AllWellFormed(specs)
      requires |Running(Flat(sessions), host.active)| + |specs| <= MAX_RECORDINGS && specs != []
      requires NoSceneRuns(specs, Running(Flat(sessions), host.active))
      requires SessionsTidied(original, sessions, host.active) && host.active <= earlier
      requires AllNew(Held(rs), from) && forall h | h in Held(Flat(original)) :: h < from
      modifies this`sessions, this`nextId, host`faults
      modifies host`live, host`released, host`active, host`asked, host`forced, host`files
      ensures Valid()
      ensures host.faults >= old(host.faults) && (r.Success? <==> host.faults == old(host.faults))
      ensures host.asked == old(host.asked) && ForcedNew(old(host.forced), host.forced, from)
      ensures r.Success? ==>
                && sessions != [] && Newest(sessions) == Session(r.value, false, rs)
                && host.files == old(host.files) + Paths(rs)
                && Running(Flat(Others(sessions)), host.active) == Running(Flat(original), host.active)
                && Fits(specs, Running(Flat(original), host.active), old(host.files))
                && (if |old(sessions)| < HISTORY_LIMIT then Others(sessions) == old(sessions)
                    else DroppedFirst(old(sessions), Others(sessions), earlier))
      ensures r.Failure? ==>
                && r.error == RequestFailed
                && sessions == old(sessions) && host.files == old(host.files) && host.active <= old(host.active)
    {
      hide Handles, Host.Valid, Held, Flat, Running, Exclusive, Healthy, Numbered, SessionsTidied, DistinctPaths,
           NoneExists, Paths, AllWellFormed, NoSceneRuns, AllHealthy, Made, AllNew, Pruned, FreshPaths, Fits, DroppedFirst,
           ForcedAmong, ForcedNew;
      MadeIsBuilt(specs, rs);
      MadeIsComplete(specs, rs);
      MadeIsFresh(specs, rs, host.files);
      ItFits(specs, Running(Flat(sessions), host.active), host.files);
      var ok := StartOutputs(host, rs);
      ForcedIsNew(old(host.forced), host.forced, Held(rs), from);
      if !ok {
        StaysValid(old(host.active));
        return Failure(RequestFailed);
      }
      ghost var now := host.active;
      NotShared(host, Held(Flat(sessions)), Held(rs));
      Undisturbed(sessions, old(host.active), now);
      var added := Session(nextId, false, rs);
      Add(added, specs, old(host.active), old(host.files));
      if |old(sessions)| == HISTORY_LIMIT {
        DroppedEarlier(old(sessions), Others(sessions), now, earlier);
      }
      OthersKept(original, old(sessions), rs, from, old(host.active), host.active);
      RunningShrinks(Flat(old(sessions)), now, host.active);
      FewerFit(specs, Running(Flat(original), host.active), Running(Flat(old(sessions)), old(host.active)), old(host.files));
      r := Success(added.id);
    }

    /** Makes room in the history for a session that has started. */
    method Add(added: Session, ghost specs: seq<Spec>, ghost earlier: set<Handle>, ghost files: set<string>)
      requires host.Valid() && host.live == Held(Flat(sessions)) + Held(added.recordings)
      requires Exclusive(Running(Flat(sessions), earlier), files)
      requires |Running(Flat(sessions), earlier)| + |specs| <= MAX_RECORDINGS
      requires NoSceneRuns(specs, Running(Flat(sessions), earlier))
      requires Running(Flat(sessions), host.active) <= Running(Flat(sessions), earlier)
      requires AllHealthy(sessions, host.active) && Numbered(sessions, nextId)
      requires added.id == nextId && !added.stopped && Made(specs, added.recordings) && AllWellFormed(specs)
      requires DistinctPaths(added.recordings) && NoneExists(added.recordings, files)
      requires host.files == files + Paths(added.recordings)
      requires |sessions| <= HISTORY_LIMIT
      modifies this`sessions, this`nextId, host`live, host`released, host`active, host`asked, host`forced
      ensures Valid() && host.active <= old(host.active)
      ensures sessions != [] && Newest(sessions) == added
      ensures host.asked == old(host.asked) && host.forced == old(host.forced)
      ensures if |old(sessions)| < HISTORY_LIMIT then Others(sessions) == old(sessions)
              else DroppedFirst(old(sessions), Others(sessions), old(host.active))
      ensures Running(Flat(Others(sessions)), host.active) == Running(Flat(old(sessions)), host.active)
    {
      hide Handles, Host.Valid, Held, Flat, Running, Exclusive, Healthy, Numbered, DistinctPaths,
           NoneExists, Paths, AllWellFormed, NoSceneRuns, AllHealthy, Made, Pruned, DroppedFirst;
      FewerJobs(Running(Flat(sessions), host.active), Running(Flat(sessions), earlier));
      var kept := PruneHistory(host, sessions);
      PrunedCount(sessions, kept, host.active);
      RunningShrinks(Flat(sessions), old(host.active), host.active);
      JoinsValid(sessions, kept, added, earlier, host.active, files, specs);
      JoinsHeld(kept, added);
      JoinsNumbered(sessions, kept, added, host.active, nextId);
      sessions, nextId := kept + [added], nextId + 1;
      assert Others(sessions) == kept;
    }
  }

  lemma MadeIsComplete(specs: seq<Spec>, rs: seq<Recording>)
    requires Made(specs, rs)
    ensures |rs| == |specs| && forall i | 0 <= i < |rs| :: Complete(rs[i])
  {}

  /** No handle is held twice. */
  lemma NotShared(host: Host, a: multiset<Handle>, b: multiset<Handle>)
    requires host.Valid() && host.live == a + b
    ensures forall h | h in a :: h !in b
  {
    forall h | h in a
      ensures h !in b
    {
      LiveAtMostOnce(host, h);
    }
  }

  /** Outputs of others may start. */
  lemma Undisturbed(sessions: seq<Session>, active: set<Handle>, active': set<Handle>)
    requires forall h | h in active' :: h in active || h !in Held(Flat(sessions))
    requires AllHealthy(sessions, active)
    ensures AllHealthy(sessions, active')
    ensures Running(Flat(sessions), active') <= Running(Flat(sessions), active)
  {
    hide Held, Running, Flat, AllBuilt;
    RunningShrinks(Flat(sessions), active, active');
    forall i | 0 <= i < |sessions|
      ensures Healthy(sessions[i], active')
    {
      assert Healthy(sessions[i], active);
      Share(sessions, i, active);
      RunningShrinks(sessions[i].recordings, active, active');
    }
  }

  lemma FewerJobs(fewer: multiset<Job>, jobs: multiset<Job>)
    requires fewer <= jobs
    ensures |fewer| <= |jobs|
  {
    assert jobs == fewer + (jobs - fewer);
  }

  lemma RunsTheSame(rs: seq<Recording>, active: set<Handle>, active': set<Handle>)
    requires forall h | h in Held(rs) :: h in active <==> h in active'
    ensures Running(rs, active) == Running(rs, active')
  {
    hide Held, Running;
    RunningShrinks(rs, active, active');
    RunningShrinks(rs, active', active);
  }

  /** What ran before and has not ended runs on. */
  lemma OthersKept(original: seq<Session>, tidied: seq<Session>, rs: seq<Recording>, from: nat,
                   earlier: set<Handle>, active: set<Handle>)
    requires SessionsTidied(original, tidied, earlier)
    requires forall h | h in active :: h in earlier || h in Held(rs)
    requires AllNew(Held(rs), from) && forall h | h in Held(Flat(original)) :: h < from
    requires forall h | h in Held(Flat(tidied)) :: h !in Held(rs)
    ensures Running(Flat(tidied), active) == Running(Flat(original), active)
  {
    hide Held, Running, Flat, SessionsTidied;
    var common := active * earlier;
    NothingTidied(tidied, common);
    SessionsTidiedLater(original, tidied, tidied, earlier, common);
    FlatTidied(original, tidied, common);
    RunsTheSame(Flat(tidied), active, common);
    RunsTheSame(Flat(original), active, common);
  }

  /** Outputs that others have started do not count for the sessions that were there. */
  lemma DroppedEarlier(sessions: seq<Session>, sessions': seq<Session>, active: set<Handle>, earlier: set<Handle>)
    requires DroppedFirst(sessions, sessions', active)
    requires forall h | h in active :: h in earlier || h !in Held(Flat(sessions))
    ensures DroppedFirst(sessions, sessions', earlier)
  {
    hide Running, Flat, Held;
    ghost var i: nat :| i < |sessions| && sessions' == sessions[..i] + sessions[i + 1..] && AllRun(sessions, i, active);
    forall k | 0 <= k < i
      ensures Running(sessions[k].recordings, earlier) != multiset{}
    {
      IsPart(sessions, k);
      RunningShrinks(sessions[k].recordings, earlier, active);
    }
    assert AllRun(sessions, i, earlier);
  }

  /** What runs in tidied sessions ran in them before. */
  lemma TidiedJobs(original: seq<Session>, tidied: seq<Session>, earlier: set<Handle>, active: set<Handle>, specs: seq<Spec>)
    requires SessionsTidied(original, tidied, active) && active <= earlier
    ensures |Running(Flat(tidied), active)| <= |Running(Flat(original), earlier)|
    ensures NoSceneRuns(specs, Running(Flat(original), earlier)) ==> NoSceneRuns(specs, Running(Flat(tidied), active))
  {
    hide Running, Flat, SessionsTidied;
    FlatTidied(original, tidied, active);
    RunningShrinks(Flat(original), earlier, active);
    FewerJobs(Running(Flat(tidied), active), Running(Flat(original), earlier));
  }

  lemma ItFits(specs: seq<Spec>, jobs: multiset<Job>, files: set<string>)
    requires 1 <= |specs| && |jobs| + |specs| <= MAX_RECORDINGS
    requires AllWellFormed(specs) && NoSceneRuns(specs, jobs) && FreshPaths(specs, files)
    ensures Fits(specs, jobs, files)
  {}

  /** The new session joins those that pruning has left. */
  lemma JoinsValid(before: seq<Session>, kept: seq<Session>, added: Session, earlier: set<Handle>, active: set<Handle>,
                   files: set<string>, specs: seq<Spec>)
    requires Exclusive(Running(Flat(before), earlier), files) && AllHealthy(kept, active)
    requires |Running(Flat(before), earlier)| + |specs| <= MAX_RECORDINGS && NoSceneRuns(specs, Running(Flat(before), earlier))
    requires Made(specs, added.recordings) && AllWellFormed(specs) && !added.stopped
    requires DistinctPaths(added.recordings) && NoneExists(added.recordings, files)
    requires Running(Flat(kept), active) <= Running(Flat(before), earlier)
    ensures Exclusive(Running(Flat(kept + [added]), active), files + Paths(added.recordings))
    ensures AllHealthy(kept + [added], active)
  {
    hide Running, Paths, DistinctPaths, NoneExists, Complete, Exclusive, SceneRuns, AllWellFormed, Flat;
    var jobs := Running(Flat(kept), active);
    FewerAreExclusive(Running(Flat(before), earlier), jobs, files);
    FewerJobs(jobs, Running(Flat(before), earlier));
    forall i | 0 <= i < |added.recordings|
      ensures !SceneRuns(jobs, added.recordings[i].scene)
    {
      FewerScenes(jobs, Running(Flat(before), earlier), specs[i].scene);
    }
    MadeIsDistinct(specs, added.recordings);
    MadeIsBuilt(specs, added.recordings);
    JoinedExclusive(jobs, added.recordings, active, files);
    JoinsFlat(kept, added);
    RunningConcat(Flat(kept), added.recordings, active);
  }

  lemma FewerScenes(fewer: multiset<Job>, jobs: multiset<Job>, scene: string)
    requires fewer <= jobs && !SceneRuns(jobs, scene)
    ensures !SceneRuns(fewer, scene)
  {}

  lemma MadeIsDistinct(specs: seq<Spec>, rs: seq<Recording>)
    requires Made(specs, rs) && AllWellFormed(specs)
    ensures DistinctScenes(rs)
  {}

  lemma JoinsFlat(kept: seq<Session>, added: Session)
    ensures Flat(kept + [added]) == Flat(kept) + added.recordings
  {
    FlatConcat(kept, [added]);
    assert Flat([added]) == added.recordings;
  }

  lemma JoinsHeld(kept: seq<Session>, added: Session)
    ensures Held(Flat(kept + [added])) == Held(Flat(kept)) + Held(added.recordings)
  {
    hide Held, Flat;
    JoinsFlat(kept, added);
    HeldConcat(Flat(kept), added.recordings);
  }

  lemma JoinsNumbered(before: seq<Session>, kept: seq<Session>, added: Session, active: set<Handle>, next: nat)
    requires Pruned(before, kept, active) && Numbered(before, next) && added.id == next
    ensures Numbered(kept + [added], next + 1)
  {
    hide Running, Flat;
    assert Numbered(kept, next);
  }

  function FindFrom(sessions: seq<Session>, id: nat, from: nat): (i: nat)
    ensures i < |sessions| ==> sessions[i].id == id
    ensures i >= |sessions| ==> forall k | from <= k < |sessions| :: sessions[k].id != id
    decreases |sessions| - from
  {
    if from >= |sessions| then |sessions|
    else if sessions[from].id == id then from
    else FindFrom(sessions, id, from + 1)
  }

  /**
    What is reported as active was active when the call began, and what is reported as inactive is
    inactive for good.
   */
  ghost predicate Truthful(report: Report, rs: seq<Recording>, before: set<Handle>, after: set<Handle>) {
    && (report.sessionActive ==> Running(rs, before) != multiset{})
    && (!report.sessionActive ==> Running(rs, after) == multiset{})
    && |report.outputActive| == |rs|
    && forall k | 0 <= k < |rs| ::
         if report.outputActive[k] then IsRunning(rs[k], before) else !IsRunning(rs[k], after)
  }

  method LookAt(host: Host, rs: seq<Recording>) returns (report: Report)
    requires host.Valid()
    modifies host`active
    ensures host.Valid() && host.active <= old(host.active)
    ensures Truthful(report, rs, old(host.active), host.active)
  {
    hide Handles, Host.Valid, Running;
    var sessionActive := AnyActive(host, rs);
    ghost var looked := host.active;
    var outputs: seq<bool> := [];
    for i := 0 to |rs|
      invariant host.Valid() && host.active <= looked && |outputs| == i
      invariant forall k | 0 <= k < i ::
                  if outputs[k] then IsRunning(rs[k], old(host.active)) else !IsRunning(rs[k], host.active)
    {
      var active := host.IsActive(rs[i].output);
      outputs := outputs + [active];
    }
    RunningShrinks(rs, looked, host.active);
    report := Report(sessionActive, outputs);
  }

  /** What holds of the tidied session holds of the session. */
  lemma TidiedIsTruthful(report: Report, s: Session, s': Session, before: set<Handle>, tidy: set<Handle>, after: set<Handle>)
    requires SessionTidied(s, s', tidy) && after <= tidy <= before
    requires Truthful(report, s'.recordings, tidy, after)
    ensures Truthful(report, s.recordings, before, after)
  {
    hide Running, Tidied;
    TidiedLater(s.recordings, s'.recordings, s'.recordings, tidy, after) by {
      NothingChanged(s'.recordings, after);
    }
    TidyingKeepsRunning(s.recordings, s'.recordings, tidy);
    TidyingKeepsRunning(s.recordings, s'.recordings, after);
    RunningShrinks(s.recordings, before, tidy);
    forall k | 0 <= k < |s.recordings|
      ensures if report.outputActive[k] then IsRunning(s.recordings[k], before) else !IsRunning(s.recordings[k], after)
    {
      assert Tidied(s.recordings[k], s'.recordings[k], tidy) && Tidied(s.recordings[k], s'.recordings[k], after);
      OneTidied(s.recordings[k], s'.recordings[k], tidy);
      OneTidied(s.recordings[k], s'.recordings[k], after);
    }
  }

  lemma OneTidied(r: Recording, r': Recording, active: set<Handle>)
    requires Tidied(r, r', active)
    ensures IsRunning(r, active) <==> IsRunning(r', active)
  {}

  lemma StillFree(specs: seq<Spec>, rs: seq<Recording>, active: set<Handle>, active': set<Handle>)
    requires NoSceneRuns(specs, Running(rs, active)) && active' <= active
    ensures NoSceneRuns(specs, Running(rs, active'))
  {
    hide Running;
    RunningShrinks(rs, active, active');
  }

  function Others(sessions: seq<Session>): seq<Session>
    requires sessions != []
  {
    sessions[..|sessions| - 1]
  }

  function Newest(sessions: seq<Session>): Session
    requires sessions != []
  {
    sessions[|sessions| - 1]
  }
}
