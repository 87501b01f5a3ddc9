/** Sessions of scene recordings: what has ended is given back, what is active is counted, history is pruned. */
module SceneSessions {
  import opened Wrappers
  import opened SceneHosts

  /** A session with a stop time has no active recording, and never will. */
  ghost predicate Healthy(s: Session, active: set<Handle>) {
    AllBuilt(s.recordings) && (s.stopped ==> Running(s.recordings, active) == multiset{})
  }

  ghost predicate SessionTidied(s: Session, s': Session, active: set<Handle>) {
    s'.id == s.id && (s.stopped ==> s'.stopped) && AllTidied(s.recordings, s'.recordings, active)
  }

  ghost predicate AllHealthy(sessions: seq<Session>, active: set<Handle>) {
    forall i | 0 <= i < |sessions| :: Healthy(sessions[i], active)
  }

  ghost predicate SessionsTidied(sessions: seq<Session>, sessions': seq<Session>, active: set<Handle>) {
    |sessions'| == |sessions| && forall i | 0 <= i < |sessions| :: SessionTidied(sessions[i], sessions'[i], active)
  }

  ghost predicate SessionsCollected(sessions: seq<Session>, sessions': seq<Session>, before: set<Handle>) {
    |sessions'| == |sessions| && forall i | 0 <= i < |sessions| ::
      AllCollected(sessions[i].recordings, sessions'[i].recordings, before)
  }

  lemma CollectedBefore(rs: seq<Recording>, rs': seq<Recording>, active: set<Handle>, before: set<Handle>)
    requires AllCollected(rs, rs', active) && active <= before
    ensures AllCollected(rs, rs', before)
  {
    forall i | 0 <= i < |rs|
      ensures Collected(rs[i], rs'[i], before)
    {
      assert Collected(rs[i], rs'[i], active);
    }
  }

  lemma NothingCollected(before: set<Handle>)
    ensures SessionsCollected([], [], before)
  {}

  lemma OneMoreCollection(
      sessions: seq<Session>, i: nat, sessions': seq<Session>, s': Session, active: set<Handle>, before: set<Handle>)
    requires i < |sessions| && SessionsCollected(sessions[..i], sessions', before)
    requires AllCollected(sessions[i].recordings, s'.recordings, active) && active <= before
    ensures SessionsCollected(sessions[..i + 1], sessions' + [s'], before)
  {
    hide AllCollected;
    CollectedBefore(sessions[i].recordings, s'.recordings, active, before);
    forall k | 0 <= k < i + 1
      ensures AllCollected(sessions[..i + 1][k].recordings, (sessions' + [s'])[k].recordings, before)
    {
      if k < i {
        assert AllCollected(sessions[..i][k].recordings, sessions'[k].recordings, before);
      }
    }
  }

  lemma HealthyLater(s: Session, active: set<Handle>, active': set<Handle>)
    requires Healthy(s, active) && active' <= active
    ensures Healthy(s, active')
  {
    RunningShrinks(s.recordings, active, active');
  }

  lemma AllHealthyLater(sessions: seq<Session>, active: set<Handle>, active': set<Handle>)
    requires AllHealthy(sessions, active) && active' <= active
    ensures AllHealthy(sessions, active')
  {
    hide Healthy;
    forall i | 0 <= i < |sessions|
      ensures Healthy(sessions[i], active')
    {
      HealthyLater(sessions[i], active, active');
    }
  }

  lemma SessionsTidiedLater(a: seq<Session>, b: seq<Session>, c: seq<Session>, active: set<Handle>, active': set<Handle>)
    requires SessionsTidied(a, b, active) && SessionsTidied(b, c, active') && active' <= active
    ensures SessionsTidied(a, c, active')
  {
    hide AllTidied;
    forall i | 0 <= i < |a|
      ensures SessionTidied(a[i], c[i], active')
    {
      assert SessionTidied(a[i], b[i], active) && SessionTidied(b[i], c[i], active');
      TidiedLater(a[i].recordings, b[i].recordings, c[i].recordings, active, active');
    }
  }

  lemma NothingTidied(sessions: seq<Session>, active: set<Handle>)
    ensures SessionsTidied(sessions, sessions, active)
  {}

  lemma {:induction false} FlatTidied(sessions: seq<Session>, sessions': seq<Session>, active: set<Handle>)
    requires SessionsTidied(sessions, sessions', active)
    ensures Running(Flat(sessions'), active) == Running(Flat(sessions), active)
  {
    if sessions != [] {
      assert SessionTidied(sessions[0], sessions'[0], active);
      TidyingKeepsRunning(sessions[0].recordings, sessions'[0].recordings, active);
      forall i | 0 <= i < |sessions[1..]|
        ensures SessionTidied(sessions[1..][i], sessions'[1..][i], active)
      {
        assert SessionTidied(sessions[i + 1], sessions'[i + 1], active);
      }
      FlatTidied(sessions[1..], sessions'[1..], active);
      RunningConcat(sessions[0].recordings, Flat(sessions[1..]), active);
      RunningConcat(sessions'[0].recordings, Flat(sessions'[1..]), active);
    }
  }

  lemma FlatStep(sessions: seq<Session>, i: nat, done: seq<Session>, s': Session)
    requires i < |sessions|
    ensures Held(Flat(sessions[i..])) == Held(sessions[i].recordings) + Held(Flat(sessions[i + 1..]))
    ensures Held(Flat(done + [s'])) == Held(Flat(done)) + Held(s'.recordings)
  {
    hide Held, HeldBy;
    assert sessions[i..][1..] == sessions[i + 1..];
    HeldConcat(sessions[i].recordings, Flat(sessions[i + 1..]));
    FlatConcat(done, [s']);
    assert Flat([s']) == s'.recordings;
    HeldConcat(Flat(done), s'.recordings);
  }

  lemma NoSessionsHoldNothing()
    ensures Held(Flat([])) == multiset{}
  {}

  method TidySession(host: Host, s: Session) returns (s': Session)
    requires host.Valid() && Held(s.recordings) <= host.live && Healthy(s, host.active)
    modifies host`live, host`released, host`active, host`asked, host`forced
    ensures host.Valid() && host.active <= old(host.active)
    ensures host.live == old(host.live) - Held(s.recordings) + Held(s'.recordings)
    ensures Healthy(s', host.active) && SessionTidied(s, s', host.active)
    ensures AllCollected(s.recordings, s'.recordings, old(host.active))
    ensures !s'.stopped ==> Running(s.recordings, old(host.active)) != multiset{}
    ensures host.asked == old(host.asked) && host.forced == old(host.forced)
  {
    hide Handles, Host.Valid, HeldBy, Held, Running, AllTidied, AllBuilt, AllCollected;
    var rs' := ReleaseInactive(host, s.recordings);
    label Tidy:
    s' := s.(recordings := rs');
    ghost var before := host.active;
    var active := AnyActive(host, rs');
    TidiedLater(s.recordings, rs', rs', before, host.active) by {
      NothingChanged(rs', host.active);
    }
    TidyingKeepsRunning(s.recordings, rs', before);
    TidyingKeepsRunning(s.recordings, rs', host.active);
    RunningShrinks(s.recordings, old(host.active), before);
    RunningShrinks(s.recordings, old(host.active), host.active);
    if !active {
      s' := s'.(stopped := true);
    }
  }

  lemma NothingChanged(rs: seq<Recording>, active: set<Handle>)
    ensures AllTidied(rs, rs, active)
  {}

  /** Gives back, in every session, the recordings that have ended. */
  method TidyAll(host: Host, sessions: seq<Session>) returns (sessions': seq<Session>)
    requires host.Valid() && Held(Flat(sessions)) <= host.live && AllHealthy(sessions, host.active)
    modifies host`live, host`released, host`active, host`asked, host`forced
    ensures host.Valid() && host.active <= old(host.active)
    ensures host.live == old(host.live) - Held(Flat(sessions)) + Held(Flat(sessions'))
    ensures AllHealthy(sessions', host.active) && SessionsTidied(sessions, sessions', host.active)
    ensures SessionsCollected(sessions, sessions', old(host.active))
    ensures host.asked == old(host.asked) && host.forced == old(host.forced)
  {
    hide Handles, Host.Valid, HeldBy, Held, Healthy, SessionTidied, SessionsTidied, Flat, AllCollected, SessionsCollected;
    ghost var base := host.live - Held(Flat(sessions));
    sessions' := [];
    assert sessions[0..] == sessions && sessions[..0] == [];
    NoSessionsHoldNothing();
    NothingTidied([], host.active);
    NothingCollected(host.active);
    for i := 0 to |sessions|
      invariant host.Valid() && host.active <= old(host.active)
      invariant host.live == base + Held(Flat(sessions')) + Held(Flat(sessions[i..]))
      invariant AllHealthy(sessions', host.active) && SessionsTidied(sessions[..i], sessions', host.active)
      invariant SessionsCollected(sessions[..i], sessions', old(host.active))
      invariant host.asked == old(host.asked) && host.forced == old(host.forced)
    {
      ghost var before, held := host.active, Held(Flat(sessions'));
      FlatStep(sessions, i, [], sessions[i]);
      HealthyLater(sessions[i], old(host.active), host.active);
      var s' := TidySession(host, sessions[i]);
      Swapped(base, held, Held(sessions[i].recordings), Held(Flat(sessions[i + 1..])), Held(s'.recordings));
      FlatStep(sessions, i, sessions', s');
      OneMoreCollection(sessions, i, sessions', s', before, old(host.active));
      AllHealthyLater(sessions', before, host.active);
      OneMoreSession(sessions, i, sessions', s', before, host.active);
      sessions' := sessions' + [s'];
    }
    assert sessions[|sessions|..] == [] && sessions[..|sessions|] == sessions;
  }

  lemma OneMoreSession(
      sessions: seq<Session>, i: nat, sessions': seq<Session>, s': Session, before: set<Handle>, active: set<Handle>)
    requires i < |sessions| && SessionsTidied(sessions[..i], sessions', before) && active <= before
    requires SessionTidied(sessions[i], s', active)
    ensures SessionsTidied(sessions[..i + 1], sessions' + [s'], active)
  {
    forall k | 0 <= k < i + 1
      ensures SessionTidied(sessions[..i + 1][k], (sessions' + [s'])[k], active)
    {
      if k < i {
        assert SessionTidied(sessions[..i][k], sessions'[k], before);
        TidiedLater(sessions[k].recordings, sessions'[k].recordings, sessions'[k].recordings, before, active);
      }
    }
  }

  method CountActive(host: Host, rs: seq<Recording>) returns (count: nat)
    requires host.Valid()
    modifies host`active
    ensures host.Valid() && host.active <= old(host.active)
    ensures |Running(rs, host.active)| <= count <= |Running(rs, old(host.active))|
  {
    hide Handles, Host.Valid;
    count := 0;
    for i := 0 to |rs|
      invariant host.Valid() && host.active <= old(host.active)
      invariant |Running(rs[..i], host.active)| <= count <= |Running(rs[..i], old(host.active))|
    {
      ghost var before := host.active;
      var active := host.IsActive(rs[i].output);
      OneMoreRecording(rs, i, old(host.active));
      OneMoreRecording(rs, i, host.active);
      FewerRunning(rs[..i], before, host.active);
      if active {
        count := count + 1;
      }
    }
    assert rs[..|rs|] == rs;
  }

  lemma OneMoreRecording(rs: seq<Recording>, i: nat, active: set<Handle>)
    requires i < |rs|
    ensures |Running(rs[..i + 1], active)| == |Running(rs[..i], active)| + if IsRunning(rs[i], active) then 1 else 0
  {
    assert rs[..i + 1] == rs[..i] + [rs[i]];
    RunningConcat(rs[..i], [rs[i]], active);
  }

  lemma FewerRunning(rs: seq<Recording>, active: set<Handle>, active': set<Handle>)
    requires active' <= active
    ensures |Running(rs, active')| <= |Running(rs, active)|
  {
    RunningShrinks(rs, active, active');
    var gone := Running(rs, active) - Running(rs, active');
    assert Running(rs, active) == Running(rs, active') + gone;
  }

  /** The number of active recordings, somewhere between those before and those after the count. */
  method ActiveRecordingCount(host: Host, sessions: seq<Session>) returns (count: nat)
    requires host.Valid()
    modifies host`active
    ensures host.Valid() && host.active <= old(host.active)
    ensures |Running(Flat(sessions), host.active)| <= count <= |Running(Flat(sessions), old(host.active))|
  {
    hide Handles, Host.Valid, Running;
    count := 0;
    NoSessionsRun(host.active);
    for i := 0 to |sessions|
      invariant host.Valid() && host.active <= old(host.active)
      invariant |Running(Flat(sessions[..i]), host.active)| <= count <= |Running(Flat(sessions[..i]), old(host.active))|
    {
      ghost var before := host.active;
      var n := CountActive(host, sessions[i].recordings);
      OneMoreRunning(sessions, i, old(host.active));
      OneMoreRunning(sessions, i, host.active);
      FewerRunning(Flat(sessions[..i]), before, host.active);
      FewerRunning(sessions[i].recordings, old(host.active), before);
      count := count + n;
    }
    assert sessions[..|sessions|] == sessions;
  }

  lemma NoSessionsRun(active: set<Handle>)
    ensures Running(Flat([]), active) == multiset{}
  {}

  lemma OneMoreRunning(sessions: seq<Session>, i: nat, active: set<Handle>)
    requires i < |sessions|
    ensures Running(Flat(sessions[..i + 1]), active) ==
            Running(Flat(sessions[..i]), active) + Running(sessions[i].recordings, active)
  {
    assert sessions[..i + 1] == sessions[..i] + [sessions[i]];
    FlatConcat(sessions[..i], [sessions[i]]);
    assert Flat([sessions[i]]) == sessions[i].recordings;
    RunningConcat(Flat(sessions[..i]), sessions[i].recordings, active);
  }

  ghost predicate SceneRuns(jobs: multiset<Job>, scene: string) {
    exists j :: j in jobs && j.scene == scene
  }

  /** Whether some recording of the scene is active. */
  method SceneActive(host: Host, rs: seq<Recording>, scene: string) returns (b: bool)
    requires host.Valid()
    modifies host`active
    ensures host.Valid() && host.active <= old(host.active)
    ensures b ==> SceneRuns(Running(rs, old(host.active)), scene)
    ensures !b ==> !SceneRuns(Running(rs, host.active), scene)
  {
    hide Handles, Host.Valid, Running;
    for i := 0 to |rs|
      invariant host.Valid() && host.active <= old(host.active)
      invariant forall k | 0 <= k < i && rs[k].scene == scene :: !IsRunning(rs[k], host.active)
    {
      if rs[i].scene == scene {
        b := host.IsActive(rs[i].output);
        if b {
          OneRuns(rs, i, old(host.active));
          return;
        }
      }
    }
    forall j | j in Running(rs, host.active)
      ensures j.scene != scene
    {
      var i := WhoRuns(rs, host.active, j);
    }
    b := false;
  }

  lemma {:induction false} WhoRuns(rs: seq<Recording>, active: set<Handle>, j: Job) returns (i: nat)
    requires j in Running(rs, active)
    ensures i < |rs| && IsRunning(rs[i], active) && j == Job(rs[i].scene, rs[i].path)
  {
    if j in JobOf(rs[0], active) {
      i := 0;
    } else {
      i := WhoRuns(rs[1..], active, j);
      i := i + 1;
    }
  }

  /** If every session is active, there are at least as many active recordings. */
  lemma {:induction false} ActiveSessionsCount(sessions: seq<Session>, active: set<Handle>)
    requires forall i | 0 <= i < |sessions| :: Running(sessions[i].recordings, active) != multiset{}
    ensures |Running(Flat(sessions), active)| >= |sessions|
  {
    if sessions != [] {
      assert Running(sessions[0].recordings, active) != multiset{};
      RunningConcat(sessions[0].recordings, Flat(sessions[1..]), active);
      forall i | 0 <= i < |sessions[1..]|
        ensures Running(sessions[1..][i].recordings, active) != multiset{}
      {
        assert Running(sessions[i + 1].recordings, active) != multiset{};
      }
      ActiveSessionsCount(sessions[1..], active);
    }
  }

  ghost predicate AllRun(sessions: seq<Session>, n: nat, active: set<Handle>)
    requires n <= |sessions|
  {
    forall k | 0 <= k < n :: Running(sessions[k].recordings, active) != multiset{}
  }

  /** The first session that is not active, if there is one. */
  method FindInactive(host: Host, sessions: seq<Session>) returns (i: nat)
    requires host.Valid()
    modifies host`active
    ensures host.Valid() && host.active <= old(host.active)
    ensures i < |sessions| ==> Running(sessions[i].recordings, host.active) == multiset{}
    ensures AllRun(sessions, if i < |sessions| then i else |sessions|, old(host.active))
    ensures i >= |sessions| ==> |Running(Flat(sessions), old(host.active))| >= |sessions|
  {
    hide Handles, Host.Valid, Running, Flat;
    i := 0;
    while i < |sessions|
      invariant i <= |sessions|
      invariant host.Valid() && host.active <= old(host.active)
      invariant forall k | 0 <= k < i :: Running(sessions[k].recordings, old(host.active)) != multiset{}
    {
      RunningShrinks(sessions[i].recordings, old(host.active), host.active);
      var active := AnyActive(host, sessions[i].recordings);
      if !active {
        return;
      }
      i := i + 1;
    }
    ActiveSessionsCount(sessions, old(host.active));
  }

  ghost predicate Numbered(sessions: seq<Session>, next: nat) {
    && (forall i | 0 <= i < |sessions| :: sessions[i].id < next)
    && (forall i, j | 0 <= i < j < |sessions| :: sessions[i].id != sessions[j].id)
  }

  /** What pruning may do: it drops sessions, and none that is active now or later. */
  ghost predicate Pruned(sessions: seq<Session>, sessions': seq<Session>, active: set<Handle>) {
    && (forall a {:trigger Running(Flat(sessions'), a)} | a <= active ::
          Running(Flat(sessions'), a) == Running(Flat(sessions), a))
    && (forall s | s in sessions' :: s in sessions)
    && (forall next :: Numbered(sessions, next) ==> Numbered(sessions', next))
  }

  lemma DroppingKeepsRunning(sessions: seq<Session>, i: nat, active: set<Handle>)
    requires i < |sessions| && Running(sessions[i].recordings, active) == multiset{}
    ensures Running(Flat(sessions[..i] + sessions[i + 1..]), active) == Running(Flat(sessions), active)
  {
    hide Held, Running, Flat;
    Share(sessions, i, active);
    FlatConcat(sessions[..i], sessions[i + 1..]);
    RunningConcat(Flat(sessions[..i]), Flat(sessions[i + 1..]), active);
  }

  lemma Dropping(sessions: seq<Session>, i: nat, active: set<Handle>)
    requires i < |sessions| && Running(sessions[i].recordings, active) == multiset{}
    ensures Pruned(sessions, sessions[..i] + sessions[i + 1..], active)
    ensures Held(Flat(sessions[..i] + sessions[i + 1..])) == Held(Flat(sessions)) - Held(sessions[i].recordings)
    ensures Held(sessions[i].recordings) <= Held(Flat(sessions))
  {
    hide Held, Running, Flat;
    var a, b := sessions[..i], sessions[i + 1..];
    assert sessions == a + [sessions[i]] + b;
    Share(sessions, i, active);
    FlatConcat(a, b);
    HeldConcat(Flat(a), Flat(b));
    forall fewer | fewer <= active
      ensures Running(Flat(a + b), fewer) == Running(Flat(sessions), fewer)
    {
      RunningShrinks(sessions[i].recordings, active, fewer);
      DroppingKeepsRunning(sessions, i, fewer);
    }
  }

  /** A full history has lost one session, which comes after active ones only. */
  ghost predicate DroppedFirst(sessions: seq<Session>, sessions': seq<Session>, active: set<Handle>) {
    exists i: nat :: i < |sessions| && sessions' == sessions[..i] + sessions[i + 1..] && AllRun(sessions, i, active)
  }

  lemma DroppedBefore(sessions: seq<Session>, i: nat, active: set<Handle>, before: set<Handle>)
    requires i < |sessions| && AllRun(sessions, i, active) && active <= before
    ensures DroppedFirst(sessions, sessions[..i] + sessions[i + 1..], before)
  {
    hide Running;
    forall k | 0 <= k < i
      ensures Running(sessions[k].recordings, before) != multiset{}
    {
      RunningShrinks(sessions[k].recordings, before, active);
    }
    assert AllRun(sessions, i, before);
  }

  lemma PrunedLater(a: seq<Session>, b: seq<Session>, c: seq<Session>, active: set<Handle>, active': set<Handle>)
    requires Pruned(a, b, active) && Pruned(b, c, active') && active' <= active
    ensures Pruned(a, c, active')
  {
    hide Running, Flat;
    forall fewer | fewer <= active'
      ensures Running(Flat(c), fewer) == Running(Flat(a), fewer)
    {
      assert Running(Flat(b), fewer) == Running(Flat(a), fewer);
    }
  }

  method Drop(host: Host, sessions: seq<Session>, i: nat) returns (sessions': seq<Session>)
    requires host.Valid() && Held(Flat(sessions)) <= host.live && AllHealthy(sessions, host.active)
    requires i < |sessions| && Running(sessions[i].recordings, host.active) == multiset{}
    modifies host`live, host`released, host`active, host`asked, host`forced
    ensures host.Valid() && host.active <= old(host.active)
    ensures host.live == old(host.live) - Held(Flat(sessions)) + Held(Flat(sessions'))
    ensures sessions' == sessions[..i] + sessions[i + 1..]
    ensures host.asked == old(host.asked) && host.forced == old(host.forced)
    ensures AllHealthy(sessions', host.active) && Pruned(sessions, sessions', host.active)
  {
    hide Handles, Host.Valid, Running, Flat, Held, Pruned, Healthy;
    Dropping(sessions, i, host.active);
    assert Healthy(sessions[i], host.active);
    HealthyIsBuilt(sessions[i], host.active);
    NoneRunning(sessions[i].recordings, host.active);
    var emptied := ReleaseAll(host, sessions[i].recordings);
    sessions' := sessions[..i] + sessions[i + 1..];
    AllHealthyLater(sessions, old(host.active), host.active);
    PruningNothing(sessions', host.active);
    PrunedLater(sessions, sessions', sessions', old(host.active), host.active);
  }

  /** Makes room for one more session, at the cost of sessions that are not active. */
  method PruneHistory(host: Host, sessions: seq<Session>) returns (sessions': seq<Session>)
    requires host.Valid() && Held(Flat(sessions)) <= host.live && AllHealthy(sessions, host.active)
    requires |Running(Flat(sessions), host.active)| < HISTORY_LIMIT
    modifies host`live, host`released, host`active, host`asked, host`forced
    ensures host.Valid() && host.active <= old(host.active)
    ensures host.live == old(host.live) - Held(Flat(sessions)) + Held(Flat(sessions'))
    ensures host.asked == old(host.asked) && host.forced == old(host.forced)
    ensures |sessions'| < HISTORY_LIMIT && (|sessions| < HISTORY_LIMIT ==> sessions' == sessions)
    ensures |sessions| == HISTORY_LIMIT ==> DroppedFirst(sessions, sessions', old(host.active))
    ensures AllHealthy(sessions', host.active) && Pruned(sessions, sessions', host.active)
  {
    hide Handles, Host.Valid, Running, Flat, Held, Pruned, Healthy, AllRun, DroppedFirst;
    ghost var base := host.live - Held(Flat(sessions));
    sessions' := sessions;
    PruningNothing(sessions, host.active);
    while |sessions'| >= HISTORY_LIMIT
      invariant host.Valid() && host.active <= old(host.active)
      invariant host.live == base + Held(Flat(sessions')) && host.asked == old(host.asked) && host.forced == old(host.forced)
      invariant |sessions| < HISTORY_LIMIT ==> sessions' == sessions
      invariant |sessions| == HISTORY_LIMIT ==>
                  sessions' == sessions || (|sessions'| < HISTORY_LIMIT && DroppedFirst(sessions, sessions', old(host.active)))
      invariant AllHealthy(sessions', host.active) && Pruned(sessions, sessions', host.active)
      decreases |sessions'|
    {
      ghost var before := host.active;
      var i := FindInactive(host, sessions');
      if i >= |sessions'| {
        // Every session would be active, but there are not that many recordings.
        PrunedCount(sessions, sessions', before);
        FewerRunning(Flat(sessions), old(host.active), before);
        assert false;
        break;
      }
      AllHealthyLater(sessions', before, host.active);
      DroppedBefore(sessions', i, before, old(host.active));
      ghost var previous := sessions';
      sessions' := Drop(host, sessions', i);
      PrunedLater(sessions, previous, sessions', before, host.active);
    }
  }

  lemma PruningNothing(sessions: seq<Session>, active: set<Handle>)
    ensures Pruned(sessions, sessions, active)
  {}

  lemma PrunedCount(sessions: seq<Session>, sessions': seq<Session>, active: set<Handle>)
    requires Pruned(sessions, sessions', active)
    ensures Running(Flat(sessions'), active) == Running(Flat(sessions), active)
  {}

  lemma HealthyIsBuilt(s: Session, active: set<Handle>)
    requires Healthy(s, active)
    ensures AllBuilt(s.recordings)
  {}
}
