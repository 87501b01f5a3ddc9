/** The OBS resources of a scene recording, and how they are released. */
module SceneHosts {
  import opened Wrappers

  type Handle = nat

  /** The handles that a recording has acquired and not released. */
  datatype Recording = Recording(
    scene: string, path: string,
    source: Option<Handle>, copy: Option<Handle>, view: Option<Handle>, video: Option<Handle>,
    encoder: Option<Handle>, audio: Option<Handle>, audioEncoder: Option<Handle>, output: Option<Handle>,
    stopRequested: bool)

  datatype Session = Session(id: nat, stopped: bool, recordings: seq<Recording>)

  /** What is recorded, and into which file. */
  datatype Job = Job(scene: string, path: string)

  /**
    prefix is the folded prefix of the file name, path the file that the request resolves to, in a
    directory of its own or in that of OBS; bound says that the request names one exact window.
   */
  datatype Spec = Spec(scene: string, prefix: string, path: string, ownDirectory: bool, bound: bool, wellFormed: bool)

  datatype Code =
    | ArgumentInvalid | OutputActive | InstanceNotReady | RequestFailed | SceneNotFound | TargetAmbiguous
    | SourceNotFound | WindowIdentityDrift | OutputNotFound

  const MAX_RECORDINGS: nat := 8
  const HISTORY_LIMIT: nat := 32

  function Maybe(h: Option<Handle>): multiset<Handle> {
    if h.Some? then multiset{h.value} else multiset{}
  }

  function Listed(h: Option<Handle>): seq<Handle> {
    if h.Some? then [h.value] else []
  }

  /** What encodes and writes: the output, and what it uses. */
  function Writing(r: Recording): multiset<Handle> {
    Maybe(r.output) + Maybe(r.encoder) + Maybe(r.audioEncoder) + Maybe(r.audio)
  }

  /** What is rendered: the video of a view, and what the view shows. */
  function Rendering(r: Recording): multiset<Handle> {
    Maybe(r.video) + Maybe(r.view) + Maybe(r.copy) + Maybe(r.source)
  }

  function HeldBy(r: Recording): multiset<Handle> {
    Writing(r) + Rendering(r)
  }

  function Held(rs: seq<Recording>): multiset<Handle> {
    if rs == [] then multiset{} else HeldBy(rs[0]) + Held(rs[1..])
  }

  predicate IsRunning(r: Recording, active: set<Handle>) {
    r.output.Some? && r.output.value in active
  }

  /** The outputs of these recordings that are active. */
  function RunningOutputs(rs: seq<Recording>, active: set<Handle>): set<Handle> {
    set r | r in rs && IsRunning(r, active) :: r.output.value
  }

  function JobOf(r: Recording, active: set<Handle>): multiset<Job> {
    if IsRunning(r, active) then multiset{Job(r.scene, r.path)} else multiset{}
  }

  function Running(rs: seq<Recording>, active: set<Handle>): multiset<Job> {
    if rs == [] then multiset{} else JobOf(rs[0], active) + Running(rs[1..], active)
  }

  function Flat(sessions: seq<Session>): seq<Recording> {
    if sessions == [] then [] else sessions[0].recordings + Flat(sessions[1..])
  }

  function WritingOrder(r: Recording): seq<Handle> {
    Listed(r.output) + Listed(r.encoder) + Listed(r.audioEncoder) + Listed(r.audio)
  }

  function RenderingOrder(r: Recording): seq<Handle> {
    Listed(r.video) + Listed(r.view) + Listed(r.copy) + Listed(r.source)
  }

  /** The order of release: whatever uses another resource goes first. */
  function ReleaseOrder(r: Recording): seq<Handle> {
    WritingOrder(r) + RenderingOrder(r)
  }

  function Emptied(r: Recording): Recording {
    r.(source := None, copy := None, view := None, video := None, encoder := None, audio := None,
    audioEncoder := None, output := None)
  }

  function Handles(n: nat): multiset<Handle> {
    if n == 0 then multiset{} else Handles(n - 1) + multiset{n - 1}
  }

  lemma OneMoreHandle(n: nat)
    ensures Handles(n + 1) == Handles(n) + multiset{n}
  {}

  lemma {:induction false} HandlesAreDistinct(n: nat, h: Handle)
    ensures Handles(n)[h] == if h < n then 1 else 0
  {
    if n > 0 {
      HandlesAreDistinct(n - 1, h);
    }
  }

  lemma {:induction false} HeldConcat(a: seq<Recording>, b: seq<Recording>)
    ensures Held(a + b) == Held(a) + Held(b)
  {
    if a == [] {
      assert a + b == b;
    } else {
      assert (a + b)[1..] == a[1..] + b;
      HeldConcat(a[1..], b);
    }
  }

  lemma {:induction false} RunningConcat(a: seq<Recording>, b: seq<Recording>, active: set<Handle>)
    ensures Running(a + b, active) == Running(a, active) + Running(b, active)
  {
    if a == [] {
      assert a + b == b;
    } else {
      assert (a + b)[1..] == a[1..] + b;
      RunningConcat(a[1..], b, active);
    }
  }

  lemma {:induction false} FlatConcat(a: seq<Session>, b: seq<Session>)
    ensures Flat(a + b) == Flat(a) + Flat(b)
  {
    if a == [] {
      assert a + b == b;
    } else {
      assert (a + b)[1..] == a[1..] + b;
      FlatConcat(a[1..], b);
      assert a[0].recordings + (Flat(a[1..]) + Flat(b)) == (a[0].recordings + Flat(a[1..])) + Flat(b);
    }
  }

  lemma FlatSplit(sessions: seq<Session>, i: nat)
    requires i < |sessions|
    ensures Flat(sessions) == Flat(sessions[..i]) + (sessions[i].recordings + Flat(sessions[i + 1..]))
  {
    var rest := sessions[i..];
    assert sessions == sessions[..i] + rest && rest[1..] == sessions[i + 1..];
    FlatConcat(sessions[..i], rest);
  }

  /** One session's share of the handles and of the running jobs. */
  lemma Share(sessions: seq<Session>, i: nat, active: set<Handle>)
    requires i < |sessions|
    ensures Held(Flat(sessions)) ==
            Held(Flat(sessions[..i])) + Held(sessions[i].recordings) + Held(Flat(sessions[i + 1..]))
    ensures Running(Flat(sessions), active) ==
            Running(Flat(sessions[..i]), active) + Running(sessions[i].recordings, active)
            + Running(Flat(sessions[i + 1..]), active)
  {
    hide Held, Running, Flat;
    FlatSplit(sessions, i);
    var a, r, b := Flat(sessions[..i]), sessions[i].recordings, Flat(sessions[i + 1..]);
    HeldConcat(a, r + b);
    HeldConcat(r, b);
    RunningConcat(a, r + b, active);
    RunningConcat(r, b, active);
  }

  /** Outputs that none of the recordings holds may start, others may stop. */
  lemma {:induction false} RunningShrinks(rs: seq<Recording>, active: set<Handle>, active': set<Handle>)
    requires forall h | h in active' :: h in active || h !in Held(rs)
    ensures Running(rs, active') <= Running(rs, active)
  {
    if rs != [] {
      RunningShrinks(rs[1..], active, active');
    }
  }

  lemma {:induction false} RunningBounded(rs: seq<Recording>, active: set<Handle>)
    ensures |Running(rs, active)| <= |rs|
  {
    if rs != [] {
      RunningBounded(rs[1..], active);
    }
  }

  /** At most eight recordings, each of its own scene into its own file. */
  ghost predicate Exclusive(jobs: multiset<Job>, files: set<string>) {
    && |jobs| <= MAX_RECORDINGS
    && (forall j | j in jobs :: jobs[j] == 1 && j.path in files)
    && (forall j, k | j in jobs && k in jobs && j != k :: j.scene != k.scene && j.path != k.path)
  }

  lemma FewerAreExclusive(jobs: multiset<Job>, fewer: multiset<Job>, files: set<string>)
    requires Exclusive(jobs, files) && fewer <= jobs
    ensures Exclusive(fewer, files)
  {
    assert fewer + (jobs - fewer) == jobs;
  }

  /** OBS as far as it is seen here. An active output may become inactive whenever it is looked at. */
  class Host {
    var serial: nat
    var live: multiset<Handle>
    var released: seq<Handle>
    var active: set<Handle>
    /** Outputs that were told to stop, and those that were forced to. */
    var asked: set<Handle>
    var forced: set<Handle>
    var files: set<string>
    /** How many things OBS or the machine has refused. */
    var faults: nat

    /** Every handle ever handed out is live or released, and not twice. */
    ghost predicate Valid()
      reads this
    {
      live + multiset(released) == Handles(serial) && forall h | h in active :: h in live
    }

    constructor (files: set<string>)
      ensures Valid() && serial == 0 && this.files == files && active == {} && live == multiset{} && released == []
    {
      serial, live, released, active, asked, forced, faults := 0, multiset{}, [], {}, {}, {}, 0;
      this.files := files;
    }

    method IsActive(output: Option<Handle>) returns (b: bool)
      requires Valid()
      modifies this`active
      ensures Valid() && active <= old(active)
      ensures b == (output.Some? && output.value in active)
    {
      hide Handles;
      var ended: set<Handle> := *;
      active := active - ended;
      b := output.Some? && output.value in active;
    }

    /** An answer of OBS, or of the machine, with which the request cannot go on. */
    method Refuses() returns (b: bool)
      requires Valid()
      modifies this`faults
      ensures Valid() && faults == old(faults) + if b then 1 else 0
    {
      b := *;
      if b {
        faults := faults + 1;
      }
    }

    method Acquire() returns (h: Option<Handle>)
      requires Valid()
      modifies this`serial, this`live, this`faults
      ensures faults == old(faults) + if h.Some? then 0 else 1
      ensures Valid() && live == old(live) + Maybe(h)
      ensures serial >= old(serial) && AllNew(Maybe(h), old(serial))
    {
      hide Handles;
      h := None;
      var refused := Refuses();
      if !refused {
        OneMoreHandle(serial);
        h, serial, live := Some(serial), serial + 1, live + multiset{serial};
      }
    }

    method Release(h: Option<Handle>)
      requires Valid() && Maybe(h) <= live
      modifies this`live, this`released, this`active
      ensures Valid() && live == old(live) - Maybe(h) && released == old(released) + Listed(h)
      ensures active <= old(active) && (h.Some? ==> h.value !in active)
    {
      hide Handles;
      if h.Some? {
        LiveAtMostOnce(this, h.value);
        OneReleased(live, released, h.value);
        live, released, active := live - multiset{h.value}, released + [h.value], active - {h.value};
      }
    }

    method Stop(output: Handle, force: bool)
      requires Valid()
      modifies this`active, this`asked, this`forced
      ensures Valid() && active <= old(active)
      ensures asked == old(asked) + (if force then {} else {output})
      ensures forced == old(forced) + (if force then {output} else {})
    {
      hide Handles;
      var ended: set<Handle> := *;
      active := active - ended;
      if force {
        forced := forced + {output};
      } else {
        asked := asked + {output};
      }
    }

    /** A start that fails may still have created the file. */
    method Start(output: Handle, path: string) returns (ok: bool)
      requires Valid() && output in live
      modifies this`active, this`files, this`faults
      ensures Valid() && faults == old(faults) + if ok then 0 else 1
      ensures ok ==> active <= old(active) + {output} && files == old(files) + {path}
      ensures !ok ==> active <= old(active) && old(files) <= files <= old(files) + {path}
    {
      hide Handles;
      var ended: set<Handle> := *;
      active := active - ended;
      if * {
        files := files + {path};
      }
      var refused := Refuses();
      ok := !refused;
      if ok {
        active, files := active + {output} - ended, files + {path};
      }
    }

    method Remove(path: string)
      requires Valid()
      modifies this`files
      ensures Valid() && files == old(files) - {path}
    {
      files := files - {path};
    }
  }

  lemma OneReleased(live: multiset<Handle>, released: seq<Handle>, h: Handle)
    requires h in live
    ensures live - multiset{h} + multiset(released + [h]) == live + multiset(released)
  {}

  /** Handles that were not there when the next was to be from. */
  ghost predicate AllNew(handles: multiset<Handle>, from: nat) {
    forall h | h in handles :: h >= from
  }

  lemma NewTogether(a: multiset<Handle>, b: multiset<Handle>, from: nat, later: nat)
    requires AllNew(a, from) && AllNew(b, later) && from <= later
    ensures AllNew(a + b, from) && AllNew(b, from) && AllNew(multiset{}, from)
  {}

  lemma LiveIsOld(host: Host, h: Handle)
    requires host.Valid() && h in host.live
    ensures h < host.serial
  {
    HandlesAreDistinct(host.serial, h);
  }

  lemma LiveAtMostOnce(host: Host, h: Handle)
    requires host.Valid()
    ensures host.live[h] + multiset(host.released)[h] <= 1
  {
    HandlesAreDistinct(host.serial, h);
  }

  /** A view is created before its video. */
  predicate Built(r: Recording) {
    r.video.Some? ==> r.view.Some?
  }

  /** Four multisets can be taken away one after the other. */
  lemma TakeAway(live: multiset<Handle>, a: multiset<Handle>, b: multiset<Handle>, c: multiset<Handle>, d: multiset<Handle>)
    requires a + b + c + d <= live
    ensures a <= live && b <= live - a && c <= live - a - b && d <= live - a - b - c
    ensures live - a - b - c - d == live - (a + b + c + d)
  {}

  lemma Appended(s: seq<Handle>, a: seq<Handle>, b: seq<Handle>, c: seq<Handle>, d: seq<Handle>)
    ensures s + a + b + c + d == s + (a + b + c + d)
  {}

  lemma NothingToRelease(host: Host)
    ensures host.live - Maybe(None) == host.live && host.released + Listed(None) == host.released
  {}

  method ReleaseWriting(host: Host, r: Recording)
    requires host.Valid() && Writing(r) <= host.live
    modifies host`live, host`released, host`active
    ensures host.Valid() && host.active <= old(host.active) && !IsRunning(r, host.active)
    ensures host.live == old(host.live) - Writing(r) && host.released == old(host.released) + WritingOrder(r)
  {
    hide Handles, Host.Valid, Maybe, Listed;
    TakeAway(host.live, Maybe(r.output), Maybe(r.encoder), Maybe(r.audioEncoder), Maybe(r.audio));
    Appended(host.released, Listed(r.output), Listed(r.encoder), Listed(r.audioEncoder), Listed(r.audio));
    host.Release(r.output);
    host.Release(r.encoder);
    host.Release(r.audioEncoder);
    host.Release(r.audio);
  }

  method ReleaseRendering(host: Host, r: Recording)
    requires host.Valid() && Rendering(r) <= host.live && Built(r)
    modifies host`live, host`released, host`active
    ensures host.Valid() && host.active <= old(host.active)
    ensures host.live == old(host.live) - Rendering(r) && host.released == old(host.released) + RenderingOrder(r)
  {
    hide Handles, Host.Valid, Maybe, Listed;
    TakeAway(host.live, Maybe(r.video), Maybe(r.view), Maybe(r.copy), Maybe(r.source));
    Appended(host.released, Listed(r.video), Listed(r.view), Listed(r.copy), Listed(r.source));
    NothingToRelease(host);
    if r.view.Some? {
      host.Release(r.video);
      host.Release(r.view);
    }
    host.Release(r.copy);
    host.Release(r.source);
  }

  lemma InTwoParts(live: multiset<Handle>, released: seq<Handle>, r: Recording)
    requires HeldBy(r) <= live
    ensures Writing(r) <= live && Rendering(r) <= live - Writing(r)
    ensures live - Writing(r) - Rendering(r) == live - HeldBy(r)
    ensures released + WritingOrder(r) + RenderingOrder(r) == released + ReleaseOrder(r)
  {
    hide Writing, Rendering, WritingOrder, RenderingOrder;
  }

  /** Gives everything back, in order, unless the output is active and not forced to stop. */
  method Release(host: Host, r: Recording, force: bool) returns (r': Recording)
    requires host.Valid() && HeldBy(r) <= host.live && Built(r)
    modifies host`live, host`released, host`active, host`asked, host`forced
    ensures host.Valid() && host.active <= old(host.active)
    ensures r' == r || r' == Emptied(r)
    ensures host.asked == old(host.asked)
    ensures host.forced <= old(host.forced) + if force then RunningOutputs([r], old(host.active)) else {}
    ensures old(host.forced) <= host.forced
    ensures r' == Emptied(r) ==>
              && host.live == old(host.live) - HeldBy(r) && host.released == old(host.released) + ReleaseOrder(r)
              && !IsRunning(r, host.active)
    ensures r' != Emptied(r) ==>
              !force && IsRunning(r, old(host.active)) && host.live == old(host.live) && host.released == old(host.released)
  {
    hide Handles, Host.Valid, HeldBy, ReleaseOrder, Writing, Rendering, WritingOrder, RenderingOrder;
    var active := host.IsActive(r.output);
    if active {
      if !force {
        return r;
      }
      assert r in [r];
      host.Stop(r.output.value, true);
    }
    InTwoParts(host.live, host.released, r);
    ReleaseWriting(host, r);
    ReleaseRendering(host, r);
    r' := Emptied(r);
  }

  /** A recording as an operation may leave it: as it was, told to stop, or given back because it had ended. */
  predicate Tidied(r: Recording, r': Recording, active: set<Handle>) {
    || r' == r.(stopRequested := r'.stopRequested)
    || (r' == Emptied(r).(stopRequested := r'.stopRequested) && !IsRunning(r, active))
  }

  ghost predicate AllTidied(rs: seq<Recording>, rs': seq<Recording>, active: set<Handle>) {
    |rs'| == |rs| && forall i | 0 <= i < |rs| :: Tidied(rs[i], rs'[i], active)
  }

  ghost predicate AllBuilt(rs: seq<Recording>) {
    forall i | 0 <= i < |rs| :: Built(rs[i])
  }

  /** Nothing that still runs has been dropped. */
  lemma {:induction false} TidyingKeepsRunning(rs: seq<Recording>, rs': seq<Recording>, active: set<Handle>)
    requires AllTidied(rs, rs', active)
    ensures Running(rs', active) == Running(rs, active)
  {
    if rs != [] {
      assert Tidied(rs[0], rs'[0], active);
      forall i | 0 <= i < |rs[1..]|
        ensures Tidied(rs[1..][i], rs'[1..][i], active)
      {
        assert Tidied(rs[i + 1], rs'[i + 1], active);
      }
      TidyingKeepsRunning(rs[1..], rs'[1..], active);
    }
  }

  lemma TidiedLater(rs: seq<Recording>, rs': seq<Recording>, rs'': seq<Recording>, active: set<Handle>, active': set<Handle>)
    requires AllTidied(rs, rs', active) && AllTidied(rs', rs'', active') && active' <= active
    ensures AllTidied(rs, rs'', active')
  {
    forall i | 0 <= i < |rs|
      ensures Tidied(rs[i], rs''[i], active')
    {
      assert Tidied(rs[i], rs'[i], active) && Tidied(rs'[i], rs''[i], active');
    }
  }

  lemma HeldStep(rs: seq<Recording>, i: nat, done: seq<Recording>, r': Recording)
    requires i < |rs|
    ensures Held(rs[i..]) == HeldBy(rs[i]) + Held(rs[i + 1..])
    ensures Held(done + [r']) == Held(done) + HeldBy(r')
  {
    assert rs[i..][1..] == rs[i + 1..];
    HeldConcat(done, [r']);
  }

  lemma {:induction false} EmptiedHoldNothing(rs: seq<Recording>)
    requires forall i | 0 <= i < |rs| :: rs[i] == Emptied(rs[i])
    ensures Held(rs) == multiset{}
  {
    if rs != [] {
      assert rs[0] == Emptied(rs[0]);
      EmptiedHoldNothing(rs[1..]);
    }
  }

  /** No output is forced to stop but those of these recordings that are active. */
  ghost predicate OnlyForced(forced: set<Handle>, forced': set<Handle>, rs: seq<Recording>, active: set<Handle>) {
    forced <= forced' <= forced + RunningOutputs(rs, active)
  }

  lemma NoneForced(forced: set<Handle>, rs: seq<Recording>, active: set<Handle>)
    ensures OnlyForced(forced, forced, rs, active)
  {}

  lemma OneMoreForced(
      forced: set<Handle>, before: set<Handle>, after: set<Handle>, rs: seq<Recording>, i: nat, active: set<Handle>,
      earlier: set<Handle>)
    requires i < |rs| && active <= earlier && OnlyForced(forced, before, rs, earlier)
    requires before <= after <= before + RunningOutputs([rs[i]], active)
    ensures OnlyForced(forced, after, rs, earlier)
  {
    forall h | h in RunningOutputs([rs[i]], active)
      ensures h in RunningOutputs(rs, earlier)
    {
      assert rs[i] in rs && IsRunning(rs[i], earlier) && rs[i].output.value == h;
    }
  }

  /** Releases every recording, whether it still runs or not. */
  method ReleaseAll(host: Host, rs: seq<Recording>) returns (rs': seq<Recording>)
    requires host.Valid() && Held(rs) <= host.live && AllBuilt(rs)
    modifies host`live, host`released, host`active, host`asked, host`forced
    ensures host.Valid() && host.active <= old(host.active)
    ensures host.live == old(host.live) - Held(rs)
    ensures host.asked == old(host.asked) && OnlyForced(old(host.forced), host.forced, rs, old(host.active))
    ensures |rs'| == |rs| && forall i | 0 <= i < |rs| :: rs'[i] == Emptied(rs[i])
  {
    hide Handles, Host.Valid, HeldBy, Held, OnlyForced, RunningOutputs;
    ghost var base := host.live - Held(rs);
    rs' := [];
    assert rs[0..] == rs;
    NoneForced(host.forced, rs, host.active);
    for i := 0 to |rs|
      invariant host.Valid() && host.active <= old(host.active)
      invariant host.live == base + Held(rs[i..])
      invariant host.asked == old(host.asked) && OnlyForced(old(host.forced), host.forced, rs, old(host.active))
      invariant |rs'| == i && forall k | 0 <= k < i :: rs'[k] == Emptied(rs[k])
    {
      HeldStep(rs, i, [], rs[i]);
      ghost var active, forced := host.active, host.forced;
      var r' := Release(host, rs[i], true);
      OneMoreForced(old(host.forced), forced, host.forced, rs, i, active, old(host.active));
      rs' := rs' + [r'];
    }
    assert Held(rs[|rs|..]) == multiset{} by {
      EmptiedHoldNothing(rs[|rs|..]);
    }
  }

  /** What had ended before has been given back, and nothing else has changed. */
  predicate Collected(r: Recording, r': Recording, before: set<Handle>) {
    r' == Emptied(r) || (r' == r && IsRunning(r, before))
  }

  ghost predicate AllCollected(rs: seq<Recording>, rs': seq<Recording>, before: set<Handle>) {
    |rs'| == |rs| && forall i | 0 <= i < |rs| :: Collected(rs[i], rs'[i], before)
  }

  method ReleaseIfEnded(host: Host, r: Recording) returns (r': Recording)
    requires host.Valid() && HeldBy(r) <= host.live && Built(r)
    modifies host`live, host`released, host`active, host`asked, host`forced
    ensures host.Valid() && host.active <= old(host.active)
    ensures host.live == old(host.live) - HeldBy(r) + HeldBy(r') && Built(r') && Tidied(r, r', host.active)
    ensures Collected(r, r', old(host.active)) && host.asked == old(host.asked) && host.forced == old(host.forced)
  {
    hide Handles, Host.Valid, HeldBy;
    r' := r;
    var active := host.IsActive(r.output);
    if !active {
      r' := Release(host, r, false);
      NothingLeft(r);
    }
  }

  lemma Swapped(base: multiset<Handle>, done: multiset<Handle>, x: multiset<Handle>, rest: multiset<Handle>, y: multiset<Handle>)
    ensures base + done + (x + rest) - x + y == base + (done + y) + rest
    ensures x <= base + done + (x + rest)
  {}

  lemma NoneTidied(active: set<Handle>)
    ensures AllTidied([], [], active) && AllCollected([], [], active)
  {}

  lemma OneMoreCollected(rs: seq<Recording>, i: nat, rs': seq<Recording>, r': Recording, active: set<Handle>, before: set<Handle>)
    requires i < |rs| && AllCollected(rs[..i], rs', before) && active <= before && Collected(rs[i], r', active)
    ensures AllCollected(rs[..i + 1], rs' + [r'], before)
  {
    forall k | 0 <= k < i + 1
      ensures Collected(rs[..i + 1][k], (rs' + [r'])[k], before)
    {
      if k < i {
        assert Collected(rs[..i][k], rs'[k], before);
      }
    }
  }

  lemma OneMoreTidied(rs: seq<Recording>, i: nat, rs': seq<Recording>, r': Recording, before: set<Handle>, active: set<Handle>)
    requires i < |rs| && AllTidied(rs[..i], rs', before) && active <= before && Tidied(rs[i], r', active)
    ensures AllTidied(rs[..i + 1], rs' + [r'], active)
  {
    forall k | 0 <= k < i + 1
      ensures Tidied(rs[..i + 1][k], (rs' + [r'])[k], active)
    {
      if k < i {
        assert Tidied(rs[..i][k], rs'[k], before);
      }
    }
  }

  /** Gives back the recordings that have ended. */
  method ReleaseInactive(host: Host, rs: seq<Recording>) returns (rs': seq<Recording>)
    requires host.Valid() && Held(rs) <= host.live && AllBuilt(rs)
    modifies host`live, host`released, host`active, host`asked, host`forced
    ensures host.Valid() && host.active <= old(host.active)
    ensures host.live == old(host.live) - Held(rs) + Held(rs') && AllBuilt(rs')
    ensures AllTidied(rs, rs', host.active) && AllCollected(rs, rs', old(host.active))
    ensures host.asked == old(host.asked) && host.forced == old(host.forced)
  {
    hide Handles, Host.Valid, HeldBy, Held, AllTidied, Tidied, Built, Collected, AllCollected;
    ghost var base := host.live - Held(rs);
    rs' := [];
    assert rs[0..] == rs && rs[..0] == [] && Held([]) == multiset{} by {
      EmptiedHoldNothing([]);
    }
    NoneTidied(host.active);
    for i := 0 to |rs|
      invariant host.Valid() && host.active <= old(host.active)
      invariant host.live == base + Held(rs') + Held(rs[i..])
      invariant AllBuilt(rs') && AllTidied(rs[..i], rs', host.active)
      invariant host.asked == old(host.asked) && host.forced == old(host.forced)
      invariant AllCollected(rs[..i], rs', old(host.active))
    {
      ghost var before := host.active;
      HeldStep(rs, i, [], rs[i]);
      var r' := ReleaseIfEnded(host, rs[i]);
      Swapped(base, Held(rs'), HeldBy(rs[i]), Held(rs[i + 1..]), HeldBy(r'));
      HeldStep(rs, i, rs', r');
      OneMoreTidied(rs, i, rs', r', before, host.active);
      OneMoreCollected(rs, i, rs', r', before, old(host.active));
      rs' := rs' + [r'];
    }
    assert rs[|rs|..] == [] && rs[..|rs|] == rs;
  }

  lemma NothingLeft(r: Recording)
    ensures HeldBy(Emptied(r)) == multiset{}
  {}

  /** any_of over outputs that may end while it looks. */
  method AnyActive(host: Host, rs: seq<Recording>) returns (b: bool)
    requires host.Valid()
    modifies host`active
    ensures host.Valid() && host.active <= old(host.active)
    ensures b ==> Running(rs, old(host.active)) != multiset{}
    ensures !b ==> Running(rs, host.active) == multiset{}
  {
    hide Handles, Host.Valid, HeldBy, Held;
    for i := 0 to |rs|
      invariant host.Valid() && host.active <= old(host.active)
      invariant forall k | 0 <= k < i :: !IsRunning(rs[k], host.active)
    {
      b := host.IsActive(rs[i].output);
      if b {
        OneRuns(rs, i, old(host.active));
        return;
      }
    }
    NoneRuns(rs, host.active);
    b := false;
  }

  lemma NoneRunning(rs: seq<Recording>, active: set<Handle>)
    requires Running(rs, active) == multiset{}
    ensures RunningOutputs(rs, active) == {}
  {
    forall i | 0 <= i < |rs|
      ensures !IsRunning(rs[i], active)
    {
      if IsRunning(rs[i], active) {
        OneRuns(rs, i, active);
      }
    }
  }

  lemma OneRuns(rs: seq<Recording>, i: nat, active: set<Handle>)
    requires i < |rs| && IsRunning(rs[i], active)
    ensures Job(rs[i].scene, rs[i].path) in Running(rs, active)
  {
    assert rs == rs[..i] + rs[i..];
    RunningConcat(rs[..i], rs[i..], active);
  }

  lemma {:induction false} NoneRuns(rs: seq<Recording>, active: set<Handle>)
    requires forall k | 0 <= k < |rs| :: !IsRunning(rs[k], active)
    ensures Running(rs, active) == multiset{}
  {
    if rs != [] {
      NoneRuns(rs[1..], active);
    }
  }
}
