/** Mutations that are confirmed by reading back, against a deadline and a clock. */
module Reconciliation {
  import opened Wrappers

  datatype Kind = Mutation | Readback

  datatype Code =
    | TimedOut | TransportFailed | RequestFailed | InstanceDrift | SequenceInvalid | ResponseInvalid
    | MutationRejected | PostconditionFailed

  /** A response that was accepted; state is what it says of the host. */
  datatype Reading = Reading(kind: Kind, accepted: bool, state: int, sequence: nat)

  datatype Outcome = Verified(reading: Reading) | Pending(reading: Reading)

  /** A request that was started, and a sleep that was asked for, at a reading of the clock. */
  datatype Event = Requested(kind: Kind, at: real) | Slept(at: real, duration: real)

  const RETURN_MARGIN := 1.0

  function Min(a: real, b: real): real {
    if b < a then b else a
  }

  /** No request starts at or after the deadline, and no sleep is asked for that passes it. */
  ghost predicate Timely(events: seq<Event>, deadline: real) {
    forall i | 0 <= i < |events| ::
      match events[i]
      case Requested(_, at) => at < deadline
      case Slept(at, duration) => 0.0 <= duration && at + duration <= deadline
  }

  /** What is counted: requests of a kind, and pauses. */
  datatype Tag = Sent(kind: Kind) | Pause

  function TagOf(event: Event): Tag {
    match event
    case Requested(kind, _) => Sent(kind)
    case Slept(_, _) => Pause
  }

  function Count(events: seq<Event>, tag: Tag): nat {
    if events == [] then 0
    else Count(events[..|events| - 1], tag) + if TagOf(events[|events| - 1]) == tag then 1 else 0
  }

  lemma {:induction false} CountConcat(a: seq<Event>, b: seq<Event>, tag: Tag)
    ensures Count(a + b, tag) == Count(a, tag) + Count(b, tag)
  {
    if b == [] {
      assert a + b == a;
    } else {
      assert (a + b)[..|a + b| - 1] == a + b[..|b| - 1];
      CountConcat(a, b[..|b| - 1], tag);
    }
  }

  /** The events of one operation, one after another. */
  ghost predicate Extends(before: seq<Event>, after: seq<Event>, deadline: real) {
    before <= after && Timely(after[|before|..], deadline)
  }

  lemma ExtendsFurther(a: seq<Event>, b: seq<Event>, c: seq<Event>, deadline: real)
    requires Extends(a, b, deadline) && Extends(b, c, deadline)
    ensures |a| <= |c| && Extends(a, c, deadline)
    ensures forall tag :: Count(c[|a|..], tag) == Count(b[|a|..], tag) + Count(c[|b|..], tag)
  {
    assert c[|a|..] == b[|a|..] + c[|b|..];
    forall tag {
      CountConcat(b[|a|..], c[|b|..], tag);
    }
  }

  lemma NothingYet(events: seq<Event>, deadline: real)
    ensures Extends(events, events, deadline) && forall tag :: Count(events[|events|..], tag) == 0
  {
    assert events[|events|..] == [];
  }

  /** Readbacks may fail to fit, and none of them that fits is passed over. */
  ghost predicate NoneFits(before: seq<Reading>, after: seq<Reading>, matches: int -> bool) {
    before <= after && forall i | |before| <= i < |after| && after[i].kind == Readback :: !matches(after[i].state)
  }

  lemma NoneFitsFurther(a: seq<Reading>, b: seq<Reading>, matches: int -> bool)
    requires NoneFits(a, b, matches)
    ensures forall reading: Reading | reading.kind == Mutation :: NoneFits(a, b + [reading], matches)
    ensures forall seen | NoneMatches(seen, matches) :: NoneFits(a, b + seen, matches)
  {}

  /** What each error of a request says: the time is up, the response is not a new one, or something was refused. */
  ghost predicate Justified(error: Code, timeIsUp: bool, notNewer: bool, refused: bool) {
    match error
    case TimedOut => timeIsUp
    case SequenceInvalid => notNewer
    case MutationRejected => false
    case PostconditionFailed => false
    case _ => refused
  }

  class Bridge {
    const attempts: nat
    const poll: real
    /** How much time a request takes at least. */
    const tick: real
    var clock: real
    var sequence: nat
    var events: seq<Event>
    /** The responses that were accepted, the number of the last response, and how much was refused or failed. */
    var readings: seq<Reading>
    var received: nat
    var faults: nat

    ghost predicate Valid()
    {
      1 <= attempts <= 20 && 0.0 <= poll <= 1.0 && tick >= 0.0
    }

    constructor (attempts: nat, poll: real, tick: real, clock: real, sequence: nat)
      requires 1 <= attempts <= 20 && 0.0 <= poll <= 1.0 && tick >= 0.0
      ensures Valid() && events == [] && readings == [] && this.sequence == sequence && this.clock == clock
    {
      this.attempts, this.poll, this.tick, this.clock, this.sequence, events := attempts, poll, tick, clock, sequence, [];
      readings, received, faults := [], 0, 0;
    }

    /** Whether the transport fails, or the host or the validation of the response refuses. */
    method Refuses() returns (b: bool)
      modifies this`faults
      ensures faults == old(faults) + if b then 1 else 0
    {
      b := *;
      if b {
        faults := faults + 1;
      }
    }

    method Now() returns (now: real)
      modifies this`clock
      ensures now == clock && clock >= old(clock)
    {
      var elapsed: real := *;
      clock := if elapsed > 0.0 then clock + elapsed else clock;
      now := clock;
    }

    /** Sleeping takes the time asked for, or more. */
    method Sleep(duration: real)
      modifies this`clock, this`events
      ensures clock >= old(clock) + duration && clock >= old(clock)
      ensures events == old(events) + [Slept(old(clock), duration)]
    {
      events := events + [Slept(clock, duration)];
      var more: real := *;
      clock := clock + (if duration > 0.0 then duration else 0.0) + if more > 0.0 then more else 0.0;
    }

    /** A request and its response: nothing is sent once the deadline has come, nothing accepted once it has passed. */
    method Request(kind: Kind, deadline: real) returns (r: Result<Reading, Code>)
      requires Valid()
      modifies this`clock, this`events, this`received, this`faults
      ensures clock >= old(clock) && Extends(old(events), events, deadline) && faults >= old(faults)
      ensures r.Success? ==> r.value.kind == kind && clock <= deadline && clock >= old(clock) + tick
      ensures r.Success? ==> received == r.value.sequence
      ensures Count(events[|old(events)|..], Sent(kind)) <= 1
      ensures r.Success? ==> Count(events[|old(events)|..], Sent(kind)) == 1
      ensures r.Failure? ==> Justified(r.error, clock >= deadline, false, faults > old(faults))
      ensures forall other | other != Sent(kind) :: Count(events[|old(events)|..], other) == 0
    {
      var now := Now();
      if now >= deadline {
        return Failure(TimedOut);
      }
      events := events + [Requested(kind, now)];
      assert events[|old(events)|..] == [Requested(kind, now)];
      OneEvent([Requested(kind, now)]);
      var reading: Reading := *;
      clock := clock + tick;
      var failed := Refuses();
      if failed {
        return Failure(TransportFailed);
      }
      now := Now();
      if now > deadline {
        return Failure(TimedOut);
      }
      failed := Refuses();
      if failed {
        return Failure(ResponseInvalid);
      }
      failed := Refuses();
      if failed {
        return Failure(RequestFailed);
      }
      received := reading.sequence;
      r := Success(reading.(kind := kind));
    }

    /** A request whose response comes from the right instance and is newer than all before. */
    method Checked(kind: Kind, deadline: real) returns (r: Result<Reading, Code>)
      requires Valid()
      modifies this`clock, this`events, this`sequence, this`readings, this`received, this`faults
      ensures clock >= old(clock) && Extends(old(events), events, deadline) && faults >= old(faults)
      ensures r.Success? ==> r.value.kind == kind && clock <= deadline && clock >= old(clock) + tick
      ensures r.Success? ==> r.value.sequence > old(sequence) && sequence == r.value.sequence
      ensures r.Success? ==> readings == old(readings) + [r.value]
      ensures r.Failure? ==> sequence == old(sequence) && readings == old(readings)
      ensures r.Failure? ==> Justified(r.error, clock >= deadline, received <= sequence, faults > old(faults))
      ensures Count(events[|old(events)|..], Sent(kind)) <= 1
      ensures r.Success? ==> Count(events[|old(events)|..], Sent(kind)) == 1
      ensures forall other | other != Sent(kind) :: Count(events[|old(events)|..], other) == 0
    {
      r := Request(kind, deadline);
      if r.Failure? {
        return;
      }
      var otherInstance := Refuses();
      if otherInstance {
        return Failure(InstanceDrift);
      }
      if r.value.sequence <= sequence {
        return Failure(SequenceInvalid);
      }
      var invalid := Refuses();
      if invalid {
        return Failure(ResponseInvalid);
      }
      sequence := r.value.sequence;
      readings := readings + [r.value];
    }

    /** The pause between two readbacks. */
    method Poll(deadline: real) returns (ok: bool)
      requires Valid()
      modifies this`clock, this`events
      ensures clock >= old(clock) && Extends(old(events), events, deadline)
      ensures forall tag :: Count(events[|old(events)|..], tag) == if tag == Pause && ok then 1 else 0
      ensures ok ==>
                && |events| == |old(events)| + 1 && events[|old(events)|].Slept?
                && events[|old(events)|].at >= old(clock)
                && events[|old(events)|].duration == Min(poll, deadline - events[|old(events)|].at)
      ensures !ok ==> clock >= deadline && events == old(events)
    {
      var now := Now();
      if deadline - now <= 0.0 {
        return false;
      }
      Sleep(Min(poll, deadline - now));
      OneEvent(events[|old(events)|..]);
      ok := true;
    }

    /** One more readback, after those that did not fit. */
    method ReadOnce(ghost start: seq<Event>, ghost from: nat, ghost seen: seq<Reading>, deadline: real, matches: int -> bool)
        returns (r: Result<Reading, Code>)
      requires Valid() && |start| <= |events| && Extends(start, events, deadline)
      requires Count(events[|start|..], Sent(Mutation)) == 0 && Count(events[|start|..], Sent(Readback)) == |seen|
      requires ReadBack(seen, from, matches, None)
      requires sequence >= from && sequence == if seen == [] then from else seen[|seen| - 1].sequence
      modifies this`clock, this`events, this`sequence, this`readings, this`received, this`faults
      ensures clock >= old(clock) && |start| <= |events| && Extends(start, events, deadline) && faults >= old(faults)
      ensures Count(events[|start|..], Sent(Mutation)) == 0
      ensures Count(events[|start|..], Pause) == old(Count(events[|start|..], Pause))
      ensures Count(events[|start|..], Sent(Readback)) <= |seen| + 1
      ensures r.Success? ==>
                && Count(events[|start|..], Sent(Readback)) == |seen| + 1
                && readings == old(readings) + [r.value] && sequence == r.value.sequence > from
                && clock >= old(clock) + tick
                && ReadBack(seen + [r.value], from, matches, if matches(r.value.state) then Some(r.value) else None)
                && (!matches(r.value.state) ==> NoneMatches(seen + [r.value], matches))
      ensures r.Failure? ==> readings == old(readings) && sequence == old(sequence)
      ensures r.Failure? ==> Justified(r.error, clock >= deadline, received <= sequence, faults > old(faults))
    {
      hide Extends, Count, ReadBack, NoneMatches;
      r := Checked(Readback, deadline);
      ExtendsFurther(start, old(events), events, deadline);
      if r.Success? {
        ReadOneMore(seen, from, matches, r.value);
        if !matches(r.value.state) {
          NoneRead(seen + [r.value], from, matches);
        }
      }
    }

    /**
      Reads back up to attempts times. seen are the readbacks that were accepted: the last of them
      fits if the operation is verified, and none fits otherwise.
     */
    method ReadUntil(deadline: real, matches: int -> bool) returns (r: Result<Reading, Code>, ghost seen: seq<Reading>)
      requires Valid()
      modifies this`clock, this`events, this`sequence, this`readings, this`received, this`faults
      ensures clock >= old(clock) && Extends(old(events), events, deadline) && faults >= old(faults)
      ensures readings == old(readings) + seen
      ensures Count(events[|old(events)|..], Sent(Mutation)) == 0 && Count(events[|old(events)|..], Sent(Readback)) <= attempts
      ensures sequence >= old(sequence)
      ensures ReadBack(seen, old(sequence), matches, if r.Success? then Some(r.value) else None)
      ensures r.Success? ==> sequence == r.value.sequence
      ensures r == Failure(PostconditionFailed) ==> |seen| == attempts == Count(events[|old(events)|..], Sent(Readback))
      ensures r.Success? || r == Failure(PostconditionFailed) ==> Count(events[|old(events)|..], Pause) == |seen| - 1
      ensures r.Failure? && r.error != PostconditionFailed ==>
                Justified(r.error, clock >= deadline, received <= sequence, faults > old(faults))
    {
      hide Extends, Count, ReadBack;
      seen := [];
      NothingYet(events, deadline);
      NothingRead(sequence, matches);
      for attempt := 0 to attempts
        invariant |old(events)| <= |events|
        invariant clock >= old(clock) && Extends(old(events), events, deadline)
        invariant Count(events[|old(events)|..], Sent(Mutation)) == 0
        invariant Count(events[|old(events)|..], Sent(Readback)) == attempt == |seen|
        invariant readings == old(readings) + seen && faults >= old(faults)
        invariant Count(events[|old(events)|..], Pause) == if attempt < attempts then attempt else attempts - 1
        invariant sequence >= old(sequence) && ReadBack(seen, old(sequence), matches, None)
        invariant sequence == if seen == [] then old(sequence) else seen[|seen| - 1].sequence
      {
        var readback := ReadOnce(old(events), old(sequence), seen, deadline, matches);
        if readback.Failure? {
          return Failure(readback.error), seen;
        }
        seen := seen + [readback.value];
        if matches(readback.value.state) {
          return Success(readback.value), seen;
        }
        if attempt + 1 < attempts {
          ghost var before := events;
          var polled := Poll(deadline);
          ExtendsFurther(old(events), before, events, deadline);
          if !polled {
            return Failure(TimedOut), seen;
          }
        }
      }
      r := Failure(PostconditionFailed);
    }

    /** Every error of an operation has its reason. */
    ghost predicate Explained(error: Code, answer: Option<Reading>, deadline: real, before: nat)
      reads this
    {
      match error
      case MutationRejected => answer.Some? && !answer.value.accepted
      case PostconditionFailed => answer.Some? && answer.value.accepted
      case _ => Justified(error, clock >= deadline, received <= sequence, faults > before)
    }

    /** A mutation, once, and then readbacks until one shows what it was to bring about. */
    method MutateAndReconcile(deadline: real, matches: int -> bool)
        returns (r: Result<Outcome, Code>, ghost answer: Option<Reading>, ghost seen: seq<Reading>)
      requires Valid()
      modifies this`clock, this`events, this`sequence, this`readings, this`received, this`faults
      ensures Extends(old(events), events, deadline) && clock >= old(clock)
      ensures readings == old(readings) + Listed(answer) + seen
      ensures r.Failure? ==> NoneMatches(seen, matches) && Explained(r.error, answer, deadline, old(faults))
      ensures Count(events[|old(events)|..], Sent(Mutation)) <= 1 && Count(events[|old(events)|..], Sent(Readback)) <= attempts
      ensures r.Success? ==> r.value.Verified? && Confirmed(r.value.reading, answer, seen, old(sequence), matches)
      ensures r == Failure(PostconditionFailed) ==> answer.Some? && |seen| == attempts
      ensures r.Success? || r == Failure(PostconditionFailed) ==> Count(events[|old(events)|..], Pause) == |seen| - 1
      ensures r == Failure(MutationRejected) ==> seen == []
    {
      answer, seen := None, [];
      var mutated := Checked(Mutation, deadline);
      if mutated.Failure? {
        return Failure(mutated.error), answer, seen;
      }
      answer := Some(mutated.value);
      if !mutated.value.accepted {
        return Failure(MutationRejected), answer, seen;
      }
      ghost var before := events;
      var readback;
      readback, seen := ReadUntil(deadline, matches);
      ExtendsFurther(old(events), before, events, deadline);
      r := if readback.Success? then Success(Verified(readback.value)) else Failure(readback.error);
    }

    method Rest(remaining: real, deadline: real)
      requires Valid() && 0.0 < remaining && clock + remaining <= deadline
      modifies this`clock, this`events
      ensures clock >= old(clock) + Min(poll, remaining) && Extends(old(events), events, deadline)
      ensures forall tag :: Count(events[|old(events)|..], tag) == if tag == Pause then 1 else 0
    {
      SleptInTime(events, clock, Min(poll, remaining), deadline);
      Sleep(Min(poll, remaining));
    }

    /**
      Reads back after a mutation of the recording: up to attempts times, or for a stop until one
      second before the deadline, when it is reported as pending.
     */
    method AwaitRecording(stop: bool, deadline: real, matches: int -> bool)
        returns (r: Result<Outcome, Code>, ghost seen: seq<Reading>)
      requires Valid() && (stop ==> poll + tick > 0.0)
      modifies this`clock, this`events, this`sequence, this`readings, this`received, this`faults
      ensures Extends(old(events), events, deadline) && clock >= old(clock) && faults >= old(faults)
      ensures readings == old(readings) + seen
      ensures r.Success? && r.value.Verified? ==> ReadBack(seen, old(sequence), matches, Some(r.value.reading))
      ensures r.Success? && r.value.Pending? ==>
                && stop && clock >= deadline - RETURN_MARGIN
                && seen != [] && r.value.reading == seen[|seen| - 1] && NoneMatches(seen, matches)
      ensures r.Failure? ==> NoneMatches(seen, matches)
      ensures r == Failure(PostconditionFailed) ==> !stop && |seen| == attempts
      ensures r.Failure? && r.error != PostconditionFailed ==>
                Justified(r.error, clock >= deadline, received <= sequence, faults > old(faults))
      ensures !stop ==> Count(events[|old(events)|..], Sent(Readback)) <= attempts
      ensures stop && |seen| > 1 ==> Span(|seen| - 1, poll + tick) < deadline - old(clock) - RETURN_MARGIN + poll
      ensures Count(events[|old(events)|..], Sent(Mutation)) == 0
      ensures Count(events[|old(events)|..], Sent(Readback)) <= |seen| + 1
      ensures r.Success? ==> Count(events[|old(events)|..], Pause) == |seen| - 1
    {
      hide Extends, Count, ReadBack, Paced, Span, Rounds, NoneMatches;
      seen := [];
      NothingYet(events, deadline);
      NothingRead(sequence, matches);
      NoneRead(seen, sequence, matches);
      if stop {
        NoRoundYet(clock, old(clock), deadline, poll, tick);
      }
      ghost var rounds := if stop then Rounds(deadline - old(clock), poll + tick) else 0;
      var attempt := 0;
      while true
        invariant |old(events)| <= |events|
        invariant Extends(old(events), events, deadline) && clock >= old(clock)
        invariant Count(events[|old(events)|..], Sent(Mutation)) == 0
        invariant Count(events[|old(events)|..], Sent(Readback)) == |seen| == attempt == Count(events[|old(events)|..], Pause)
        invariant readings == old(readings) + seen && faults >= old(faults)
        invariant ReadBack(seen, old(sequence), matches, None) && NoneMatches(seen, matches)
        invariant sequence == if seen == [] then old(sequence) else seen[|seen| - 1].sequence
        invariant sequence >= old(sequence)
        invariant !stop ==> attempt < attempts
        invariant stop ==> Paced(attempt, clock, old(clock), deadline, poll, tick)
        decreases if stop then rounds - attempt else attempts - attempt
      {
        ghost var head := clock;
        if stop {
          PacedRounds(attempt, head, old(clock), deadline, poll, tick);
        }
        var readback := ReadOnce(old(events), old(sequence), seen, deadline, matches);
        if readback.Failure? {
          r := Failure(readback.error);
          return;
        }
        seen := seen + [readback.value];
        if matches(readback.value.state) {
          r := Success(Verified(readback.value));
          return;
        }
        var now := Now();
        var remaining := deadline - now;
        if stop && remaining <= RETURN_MARGIN {
          r := Success(Pending(readback.value));
          return;
        }
        attempt := attempt + 1;
        if !stop && attempt >= attempts {
          r := Failure(PostconditionFailed);
          return;
        }
        if remaining <= 0.0 {
          r := Failure(TimedOut);
          return;
        }
        ghost var before := events;
        Rest(remaining, deadline);
        ExtendsFurther(old(events), before, events, deadline);
        if stop {
          NextRound(attempt - 1, head, now, clock, old(clock), deadline, poll, tick);
        }
      }
    }

    /** The mutations of the recording. */
    method RecordingMutation(stop: bool, deadline: real, matches: int -> bool)
        returns (r: Result<Outcome, Code>, ghost answer: Option<Reading>, ghost seen: seq<Reading>)
      requires Valid() && (stop ==> poll + tick > 0.0)
      modifies this`clock, this`events, this`sequence, this`readings, this`received, this`faults
      ensures Extends(old(events), events, deadline) && clock >= old(clock)
      ensures readings == old(readings) + Listed(answer) + seen
      ensures r.Failure? ==> NoneMatches(seen, matches) && Explained(r.error, answer, deadline, old(faults))
      ensures Count(events[|old(events)|..], Sent(Mutation)) <= 1
      ensures r.Success? && r.value.Verified? ==> Confirmed(r.value.reading, answer, seen, old(sequence), matches)
      ensures r.Success? && r.value.Pending? ==>
                && stop && answer.Some? && answer.value.accepted && clock >= deadline - RETURN_MARGIN
                && seen != [] && r.value.reading == seen[|seen| - 1] && NoneMatches(seen, matches)
      ensures r == Failure(PostconditionFailed) ==> !stop && |seen| == attempts
      ensures !stop ==> Count(events[|old(events)|..], Sent(Readback)) <= attempts
      ensures stop && |seen| > 1 ==> Span(|seen| - 1, poll + tick) < deadline - old(clock) - RETURN_MARGIN + poll
      ensures Count(events[|old(events)|..], Sent(Readback)) <= |seen| + 1
      ensures r.Success? ==> Count(events[|old(events)|..], Pause) == |seen| - 1
    {
      hide Extends, Count, ReadBack, Span;
      answer, seen := None, [];
      var mutated := Checked(Mutation, deadline);
      if mutated.Failure? {
        return Failure(mutated.error), answer, seen;
      }
      answer := Some(mutated.value);
      if !mutated.value.accepted {
        return Failure(MutationRejected), answer, seen;
      }
      ghost var before := events;
      r, seen := AwaitRecording(stop, deadline, matches);
      ExtendsFurther(old(events), before, events, deadline);
    }

    /**
      The two rounds of stopping scene recordings: a second request to stop is sent only if the
      first was accepted and its readbacks have shown that it did not do.
     */
    method StopSceneRecordings(deadline: real, matches: int -> bool)
        returns (r: Result<Outcome, Code>, ghost answer: Option<Reading>, ghost seen: seq<Reading>)
      requires Valid()
      modifies this`clock, this`events, this`sequence, this`readings, this`received, this`faults
      ensures Extends(old(events), events, deadline)
      ensures Count(events[|old(events)|..], Sent(Mutation)) <= 2 && Count(events[|old(events)|..], Sent(Readback)) <= 2 * attempts
      ensures r.Success? ==> r.value.Verified? && Confirmed(r.value.reading, answer, seen, old(sequence), matches)
      ensures r.Success? ==> exists earlier ::
                readings == earlier + Listed(answer) + seen && NoneFits(old(readings), earlier, matches)
      ensures r.Failure? ==>
                && NoneFits(old(readings), readings, matches)
                && Explained(r.error, answer, deadline, old(faults))
      ensures r == Failure(PostconditionFailed) ==>
                && |seen| == attempts && NoneMatches(seen, matches)
                && Count(events[|old(events)|..], Sent(Mutation)) == 2
                && Count(events[|old(events)|..], Sent(Readback)) == 2 * attempts
    {
      hide Extends, Count, ReadBack, NoneFits, NoneMatches;
      answer, seen := None, [];
      NothingYet(events, deadline);
      NoneSoFar(readings, matches);
      for stopAttempt := 0 to 2
        invariant |old(events)| <= |events|
        invariant Extends(old(events), events, deadline) && sequence >= old(sequence) && faults >= old(faults)
        invariant Count(events[|old(events)|..], Sent(Mutation)) == stopAttempt
        invariant Count(events[|old(events)|..], Sent(Readback)) == stopAttempt * attempts
        invariant NoneFits(old(readings), readings, matches)
        invariant stopAttempt > 0 ==>
                    |seen| == attempts && NoneMatches(seen, matches) && answer.Some? && answer.value.accepted
      {
        ghost var before, earlier := events, readings;
        var mutated := Checked(Mutation, deadline);
        ExtendsFurther(old(events), before, events, deadline);
        if mutated.Failure? {
          return Failure(mutated.error), answer, seen;
        }
        answer := Some(mutated.value);
        NoneFitsFurther(old(readings), earlier, matches);
        if !mutated.value.accepted {
          return Failure(MutationRejected), answer, seen;
        }
        before := events;
        ghost var answered := readings;
        var readback;
        readback, seen := ReadUntil(deadline, matches);
        ExtendsFurther(old(events), before, events, deadline);
        if readback.Success? {
          assert readings == earlier + Listed(answer) + seen;
          return Success(Verified(readback.value)), answer, seen;
        }
        NoneRead(seen, answer.value.sequence, matches);
        NoneFitsFurther(old(readings), answered, matches);
        if readback.error != PostconditionFailed {
          return Failure(readback.error), answer, seen;
        }
        if stopAttempt == 0 {
          var now := Now();
          if deadline - now <= 0.0 {
            return Failure(TimedOut), answer, seen;
          }
        }
      }
      r := Failure(PostconditionFailed);
    }
  }

  lemma NoneSoFar(readings: seq<Reading>, matches: int -> bool)
    ensures NoneFits(readings, readings, matches)
  {}

  lemma SleptInTime(events: seq<Event>, at: real, duration: real, deadline: real)
    requires 0.0 <= duration && at + duration <= deadline
    ensures var after := events + [Slept(at, duration)];
            Extends(events, after, deadline) && forall tag :: Count(after[|events|..], tag) == if tag == Pause then 1 else 0
  {
    var after := events + [Slept(at, duration)];
    assert after[|events|..] == [Slept(at, duration)];
    OneEvent(after[|events|..]);
  }

  /** How many rounds of at least this length begin before the time is up. */
  function Rounds(time: real, step: real): nat
    requires step > 0.0
  {
    if time <= 0.0 then 0 else (time / step).Floor + 1
  }

  lemma EnoughRounds(n: nat, elapsed: real, time: real, step: real)
    requires step > 0.0 && Span(n, step) <= elapsed < time
    ensures n < Rounds(time, step)
  {
    if time > 0.0 {
      var m := Rounds(time, step);
      assert time / step * step == time;
      assert m as real > time / step;
      if n >= m {
        Monotone(time / step, n as real, step);
        assert false;
      }
    }
  }

  lemma Monotone(a: real, b: real, step: real)
    requires a <= b && step > 0.0
    ensures a * step <= b * step
  {}

  function Span(n: nat, step: real): real {
    n as real * step
  }

  /** At the start of a round: every round before it took a request and a pause, and began in time. */
  ghost predicate Paced(n: nat, now: real, start: real, deadline: real, poll: real, tick: real) {
    && Span(n, poll + tick) <= now - start
    && (n > 0 ==> Span(n, poll + tick) < deadline - start - RETURN_MARGIN + poll)
  }

  lemma NoRoundYet(now: real, start: real, deadline: real, poll: real, tick: real)
    requires now >= start
    ensures Paced(0, now, start, deadline, poll, tick)
  {}

  lemma PacedRounds(n: nat, now: real, start: real, deadline: real, poll: real, tick: real)
    requires Paced(n, now, start, deadline, poll, tick)
    requires poll >= 0.0 && tick >= 0.0
    ensures n > 0 ==> Span(n, poll + tick) < deadline - start - RETURN_MARGIN + poll
    ensures n > 1 ==> Span(n - 1, poll + tick) < deadline - start - RETURN_MARGIN + poll
  {
    if n > 1 {
      OneRoundMore(n - 1, poll + tick);
    }
  }

  lemma NextRound(
      n: nat, head: real, now: real, after: real, start: real, deadline: real, poll: real, tick: real)
    requires 0.0 <= poll <= 1.0 && tick >= 0.0 && poll + tick > 0.0
    requires Paced(n, head, start, deadline, poll, tick)
    requires head + tick <= now && RETURN_MARGIN < deadline - now && after >= now + Min(poll, deadline - now)
    ensures Paced(n + 1, after, start, deadline, poll, tick) && n < Rounds(deadline - start, poll + tick)
  {
    EnoughRounds(n, head - start, deadline - start, poll + tick);
    OneRoundMore(n, poll + tick);
  }

  lemma OneRoundMore(n: nat, step: real)
    ensures Span(n + 1, step) == Span(n, step) + step
  {}

  lemma OneEvent(events: seq<Event>)
    requires |events| == 1
    ensures forall tag :: Count(events, tag) == if tag == TagOf(events[0]) then 1 else 0
  {
    assert events[..0] == [];
  }

  ghost predicate NoneMatches(seen: seq<Reading>, matches: int -> bool) {
    forall i | 0 <= i < |seen| :: !matches(seen[i].state)
  }

  /** Readbacks with increasing numbers; the one that is returned, if any, is the last, and the first that fits. */
  ghost predicate ReadBack(seen: seq<Reading>, from: nat, matches: int -> bool, found: Option<Reading>) {
    && (forall i | 0 <= i < |seen| :: seen[i].kind == Readback && seen[i].sequence > from)
    && (forall i, j | 0 <= i < j < |seen| :: seen[i].sequence < seen[j].sequence)
    && match found
       case None => NoneMatches(seen, matches)
       case Some(reading) =>
         seen != [] && reading == seen[|seen| - 1] && matches(reading.state) && NoneMatches(seen[..|seen| - 1], matches)
  }

  lemma NothingRead(from: nat, matches: int -> bool)
    ensures ReadBack([], from, matches, None)
  {}

  lemma NoneRead(seen: seq<Reading>, from: nat, matches: int -> bool)
    requires ReadBack(seen, from, matches, None)
    ensures NoneMatches(seen, matches)
  {}

  lemma ReadOneMore(seen: seq<Reading>, from: nat, matches: int -> bool, reading: Reading)
    requires ReadBack(seen, from, matches, None) && reading.kind == Readback && reading.sequence > from
    requires seen != [] ==> reading.sequence > seen[|seen| - 1].sequence
    ensures ReadBack(seen + [reading], from, matches, if matches(reading.state) then Some(reading) else None)
  {
    assert (seen + [reading])[..|seen|] == seen;
  }

  function Listed(answer: Option<Reading>): seq<Reading> {
    if answer.Some? then [answer.value] else []
  }

  /** The mutation was accepted, and a later readback shows what it was to bring about. */
  ghost predicate Confirmed(
      reading: Reading, answer: Option<Reading>, seen: seq<Reading>, from: nat, matches: int -> bool)
  {
    && answer.Some? && answer.value.kind == Mutation && answer.value.accepted && from < answer.value.sequence
    && ReadBack(seen, answer.value.sequence, matches, Some(reading))
  }
}
