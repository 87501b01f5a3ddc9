/** The life of an OBS process that is owned by this program, from its start to the result of its wait. */
module OwnedHosts {
  import opened Wrappers

  /** Raised stands for whatever a call into the system or into a collaborator raises, and tells them apart. */
  datatype Error =
    | NotStarted | AlreadyStarted | AlreadyAttempted | NotReady | ShutdownRejected | IdentityMismatch
    | ImageHashChanged | AuthenticationRequired | NativePidMismatch | NativeInstanceInvalid | Raised(id: nat)

  datatype Code =
    | OwnedNotStarted | OwnedAlreadyStarted | OwnedStartFailed | OwnedTerminationUnknown
    | OwnedShutdownAlreadyAttempted | OwnedCloseFailed

  /** OwnedObsError, which carries the first error of the host. */
  datatype OwnedError = OwnedError(code: Code, primary: Error)

  /** What has been done, if it has not raised, and for the last four even so; a wait is noted with its result. */
  datatype Action =
    | Spawned | IdentityVerified | PortReady | AuthenticationSeen | StatusRead
    | ShutdownSubmitted | AdapterClosed | TransportClosed | Waited(exit: Option<int>)

  datatype State = State(
    process: Option<nat>, transport: bool, transportClosed: bool, bridge: bool, instanceId: Option<nat>,
    ready: bool, shutdownAttempted: bool, returncode: Option<int>,
    primaryError: Option<Error>, cleanupErrors: seq<Error>, log: seq<Action>)

  const NEW := State(None, false, false, false, None, false, false, None, None, [], [])

  /** The first result that a wait has given. */
  function FirstExit(log: seq<Action>): Option<int> {
    if log == [] then None
    else if log[0].Waited? && log[0].exit.Some? then log[0].exit
    else FirstExit(log[1..])
  }

  function Times(log: seq<Action>, action: Action): nat {
    if log == [] then 0 else (if log[0] == action then 1 else 0) + Times(log[1..], action)
  }

  lemma {:induction false} OneMore(log: seq<Action>, last: Action)
    ensures FirstExit(log + [last]) ==
            if FirstExit(log).Some? then FirstExit(log) else if last.Waited? then last.exit else None
    ensures forall action :: Times(log + [last], action) == Times(log, action) + if action == last then 1 else 0
  {
    if log == [] {
      assert [last][1..] == [];
    } else {
      assert (log + [last])[1..] == log[1..] + [last];
      OneMore(log[1..], last);
    }
  }

  /** What holds between any two calls. */
  ghost predicate Valid(s: State) {
    && s.returncode == FirstExit(s.log)
    && (s.returncode.Some? ==> s.process.Some?)
    && (s.process.None? ==> Times(s.log, Spawned) == 0 && !s.transport && !s.bridge && !s.ready)
    && (s.process.Some? ==> Times(s.log, Spawned) == 1)
    && Times(s.log, ShutdownSubmitted) <= (if s.shutdownAttempted then 1 else 0)
    && (s.ready ==> s.process.Some? && s.transport && s.bridge && s.instanceId.Some? && s.returncode.None?)
    && (s.transportClosed ==> s.transport)
  }

  /** What no call undoes: the process, its exit code, the first error; and a host that has lost its readiness stays so. */
  ghost predicate Advances(s: State, s': State) {
    && (s.process.Some? ==> s'.process == s.process && (s'.ready ==> s.ready))
    && (s.returncode.Some? ==> s'.returncode == s.returncode)
    && (s.primaryError.Some? ==> s'.primaryError == s.primaryError)
    && (s.shutdownAttempted ==> s'.shutdownAttempted)
    && (s.transportClosed ==> s'.transportClosed)
    && s.log <= s'.log && s.cleanupErrors <= s'.cleanupErrors
  }

  /** As above, for the one call that may make a host ready. */
  ghost predicate AlmostAdvances(s: State, s': State) {
    && s'.process == s.process && s'.returncode == s.returncode && s'.shutdownAttempted == s.shutdownAttempted
    && s'.primaryError == s.primaryError && s'.cleanupErrors == s.cleanupErrors
    && s'.transportClosed == s.transportClosed && s.log <= s'.log
  }

  lemma FailureAdvances(s: State, s': State)
    requires Valid(s) && s' == s.(ready := false, primaryError := s'.primaryError, cleanupErrors := s'.cleanupErrors)
    requires s.primaryError.Some? ==> s'.primaryError == s.primaryError
    requires s.cleanupErrors <= s'.cleanupErrors
    ensures Valid(s') && Advances(s, s')
  {
    hide FirstExit, Times;
  }

  lemma ReadyHasProcess(s: State)
    requires Valid(s) && s.ready
    ensures s.process.Some?
  {}

  lemma AdvancesFurther(a: State, b: State, c: State)
    requires Advances(a, b) && Advances(b, c)
    ensures Advances(a, c)
  {}

  class OwnedObsHost {
    const windows: bool
    var s: State
    /** How much has gone wrong so far in what the host calls: errors raised, and answers that are refused. */
    var raised: nat

    constructor (windows: bool)
      ensures s == NEW && Valid(s)
    {
      this.windows, s, raised := windows, NEW, 0;
    }

    /** A call that may raise. */
    method Try() returns (error: Option<Error>)
      modifies this`raised
      ensures error.Some? ==> error.value.Raised?
      ensures raised == old(raised) + if error.Some? then 1 else 0
    {
      error := None;
      if * {
        error, raised := Some(Raised(raised)), raised + 1;
      }
    }

    /** An answer that is refused, with this error. */
    method Refuse(refusal: Error) returns (error: Option<Error>)
      modifies this`raised
      ensures error == None || error == Some(refusal)
      ensures raised == old(raised) + if error.Some? then 1 else 0
    {
      error := None;
      if * {
        error, raised := Some(refusal), raised + 1;
      }
    }

    /** Keeps the first error; writing the evidence may fail, which is only noted. */
    method Failure(code: Code, error: Error) returns (e: OwnedError)
      requires Valid(s)
      modifies this
      ensures Valid(s) && Advances(old(s), s) && !s.ready
      ensures s.primaryError == Some(e.primary) && e.code == code
      ensures e.primary == if old(s).primaryError.Some? then old(s).primaryError.value else error
      ensures s == old(s).(ready := false, primaryError := s.primaryError, cleanupErrors := s.cleanupErrors)
      ensures raised >= old(raised)
    {
      hide FirstExit, Times, Valid, Advances;
      s := s.(ready := false);
      if s.primaryError.None? {
        s := s.(primaryError := Some(error));
      }
      var evidence := Try();
      if evidence.Some? {
        s := s.(cleanupErrors := s.cleanupErrors + [evidence.value]);
      }
      e := OwnedError(code, s.primaryError.value);
      FailureAdvances(old(s), s);
    }

    /** The process handle and the image still are what they were at the start. */
    method VerifyIdentity() returns (error: Option<Error>)
      requires Valid(s)
      modifies this
      ensures Valid(s) && Advances(old(s), s)
      ensures s == old(s).(log := old(s).log + if error.None? then [IdentityVerified] else [])
      ensures s.process.None? ==> error == Some(NotStarted)
      ensures raised >= old(raised) && (error.None? <==> s.process.Some? && raised == old(raised))
    {
      hide FirstExit, Times;
      if s.process.None? {
        return Some(NotStarted);
      }
      if windows {
        error := Try();
        if error.Some? {
          return;
        }
        error := Refuse(IdentityMismatch);
        if error.Some? {
          return;
        }
      }
      error := Try();
      if error.None? {
        error := Refuse(ImageHashChanged);
      }
      if error.None? {
        OneMore(s.log, IdentityVerified);
        s := s.(log := s.log + [IdentityVerified]);
      }
    }

    /** A step that may raise, and is noted if it does not. */
    method Step(action: Action) returns (error: Option<Error>)
      requires Valid(s) && action in {PortReady, AuthenticationSeen, StatusRead}
      modifies this
      ensures Valid(s) && Advances(old(s), s)
      ensures s == old(s).(log := old(s).log + if error.None? then [action] else [])
      ensures raised >= old(raised) && (error.None? <==> raised == old(raised))
    {
      hide FirstExit, Times;
      error := Try();
      if error.None? {
        OneMore(s.log, action);
        s := s.(log := s.log + [action]);
      }
    }

    /** Spawns the process, after the image has been compared and the output files have been created. */
    method Spawn() returns (error: Option<Error>)
      requires Valid(s) && s.process.None?
      modifies this
      ensures Valid(s) && Advances(old(s), s)
      ensures raised >= old(raised) && (error.None? <==> raised == old(raised))
      ensures error.Some? ==> s == old(s)
      ensures error.None? ==> s == old(s).(process := s.process, log := old(s).log + [Spawned]) && s.process.Some?
    {
      hide FirstExit, Times;
      error := Try();
      if error.None? {
        var pid: nat := *;
        OneMore(s.log, Spawned);
        s := s.(process := Some(pid), log := s.log + [Spawned]);
      }
    }

    /** From the first word with the plugin to readiness. */
    method Connect() returns (error: Option<Error>)
      requires Valid(s) && s.process.Some? && s.returncode.None? && !s.ready
      modifies this
      ensures Valid(s) && AlmostAdvances(old(s), s)
      ensures s.ready <==> error.None?
      ensures raised >= old(raised) && (error.None? <==> raised == old(raised))
      ensures error.None? ==> s.log == old(s).log + [StatusRead, IdentityVerified]
    {
      hide FirstExit, Times;
      error := Try();
      if error.Some? {
        // There is no transport.
        return;
      }
      var answered: bool := *;
      s := s.(transport := true, bridge := answered);
      error := Step(StatusRead);
      if error.Some? {
        return;
      }
      s := s.(bridge := true);
      error := Refuse(NativePidMismatch);
      if error.Some? {
        return;
      }
      error := VerifyIdentity();
      if error.Some? {
        return;
      }
      error := Refuse(NativeInstanceInvalid);
      if error.Some? {
        return;
      }
      var instance: nat := *;
      s := s.(instanceId := Some(instance), ready := true);
      error := Try();
      if error.Some? {
        // The evidence cannot be written.
        s := s.(ready := false);
      }
    }

    /** Everything from the spawning of the process to readiness; stops at the first error. */
    method BringUp() returns (error: Option<Error>)
      requires Valid(s) && s.process.None?
      modifies this
      ensures Valid(s) && Advances(old(s), s) && s.primaryError == old(s).primaryError
      ensures s.ready <==> error.None?
      ensures raised >= old(raised) && (error.None? <==> raised == old(raised))
      ensures error.None? ==>
                s.log == old(s).log + [Spawned, IdentityVerified, PortReady, AuthenticationSeen, StatusRead, IdentityVerified]
    {
      hide FirstExit, Times;
      ghost var start := s;
      error := Spawn();
      if error.Some? {
        return;
      }
      error := VerifyIdentity();
      if error.Some? {
        return;
      }
      // The evidence is written, and the port is waited for.
      error := Step(PortReady);
      if error.Some? {
        return;
      }
      error := Refuse(AuthenticationRequired);
      if error.Some? {
        return;
      }
      error := Step(AuthenticationSeen);
      if error.Some? {
        return;
      }
      error := Connect();
    }

    method Start() returns (failed: Option<OwnedError>)
      requires Valid(s)
      modifies this
      ensures Valid(s) && Advances(old(s), s)
      ensures failed.None? <==> s.ready
      ensures failed.None? <==> old(s).process.None? && raised == old(raised)
      ensures failed.None? ==>
                && old(s).process.None? && s.process.Some?
                && s.log == old(s).log + [Spawned, IdentityVerified, PortReady, AuthenticationSeen, StatusRead, IdentityVerified]
      ensures failed.Some? ==> s.primaryError == Some(failed.value.primary)
      ensures old(s).process.Some? ==> failed.Some? && failed.value.code == OwnedAlreadyStarted
    {
      if s.process.Some? {
        var e := Failure(OwnedAlreadyStarted, AlreadyStarted);
        return Some(e);
      }
      var error := BringUp();
      if error.Some? {
        ghost var before := s;
        var e := Failure(OwnedStartFailed, error.value);
        AdvancesFurther(old(s), before, s);
        return Some(e);
      }
      failed := None;
    }

    /** Only the wait on the original process says that it has ended. */
    method WaitForExit() returns (r: Result<int, OwnedError>)
      requires Valid(s)
      modifies this
      ensures Valid(s) && Advances(old(s), s)
      ensures r.Success? ==> s.returncode == Some(r.value) && s.primaryError == old(s).primaryError
      ensures r.Failure? ==> !s.ready && s.primaryError == Some(r.error.primary)
      ensures s.log == old(s).log + Waiting(old(s), s.returncode)
      ensures s.process == old(s).process && s.shutdownAttempted == old(s).shutdownAttempted
      ensures s.transport == old(s).transport && s.transportClosed == old(s).transportClosed
      ensures s.returncode.Some? ==> !s.ready
      ensures raised >= old(raised)
      ensures r.Success? <==> s.process.Some? && raised == old(raised)
    {
      hide FirstExit, Times;
      if s.process.None? {
        var e := Failure(OwnedNotStarted, NotStarted);
        return Result.Failure(e);
      }
      if s.returncode.Some? {
        return Success(s.returncode.value);
      }
      var error := Try();
      if error.Some? {
        OneMore(s.log, Waited(None));
        s := s.(log := s.log + [Waited(None)]);
        ghost var before := s;
        var e := Failure(OwnedTerminationUnknown, error.value);
        AdvancesFurther(old(s), before, s);
        return Result.Failure(e);
      }
      var code: int := *;
      OneMore(s.log, Waited(Some(code)));
      s := s.(returncode := Some(code), ready := false, log := s.log + [Waited(Some(code))]);
      error := Try();
      if error.Some? {
        // The evidence cannot be written; the exit code stays.
        ghost var before := s;
        var e := Failure(OwnedTerminationUnknown, error.value);
        AdvancesFurther(old(s), before, s);
        return Result.Failure(e);
      }
      r := Success(code);
    }

    /** Closes the transport, once it has been closed without an error never again. */
    method Disconnect() returns (error: Option<Error>)
      requires Valid(s)
      modifies this
      ensures Valid(s) && Advances(old(s), s)
      ensures s == old(s).(log := s.log, transportClosed := s.transportClosed)
      ensures s.log == old(s).log + if old(s).transport && !old(s).transportClosed then [TransportClosed] else []
      ensures error.None? ==> s.transportClosed == s.transport
      ensures raised >= old(raised) && (error.None? <==> raised == old(raised))
    {
      hide FirstExit, Times;
      error := None;
      if s.transport && !s.transportClosed {
        OneMore(s.log, TransportClosed);
        s := s.(log := s.log + [TransportClosed]);
        error := Try();
        if error.None? {
          s := s.(transportClosed := true);
        }
      }
    }

    /** Asks for a shutdown, unless the process is not the right one or not ready; at most one request is ever sent. */
    method AskForShutdown() returns (error: Option<Error>, ghost steps: nat)
      requires Valid(s) && !s.shutdownAttempted
      modifies this
      ensures Valid(s) && Advances(old(s), s) && s.shutdownAttempted
      ensures s == old(s).(shutdownAttempted := true, log := s.log)
      ensures steps <= 2 && s.log == old(s).log + Submitting(steps)
      ensures steps == 2 ==> old(s).ready
      ensures error.None? ==> steps == 2
      ensures raised >= old(raised) && (error.None? <==> old(s).ready && raised == old(raised))
      ensures !old(s).ready && raised == old(raised) ==> error == Some(if s.process.None? then NotStarted else NotReady)
    {
      hide FirstExit, Times;
      OneMore(s.log, IdentityVerified);
      s := s.(shutdownAttempted := true);
      steps := 0;
      error := VerifyIdentity();
      if error.Some? {
        return;
      }
      steps := 1;
      if !s.ready || !s.bridge {
        return Some(NotReady), steps;
      }
      steps := 2;
      OneMore(s.log, ShutdownSubmitted);
      s := s.(log := s.log + [ShutdownSubmitted]);
      error := Try();
      if error.None? {
        error := Refuse(ShutdownRejected);
      }
    }

    /** As above, and keeps the error if it is the first. */
    method SubmitShutdown() returns (error: Option<Error>, ghost steps: nat)
      requires Valid(s) && !s.shutdownAttempted
      modifies this
      ensures Valid(s) && Advances(old(s), s) && s.shutdownAttempted
      ensures s == old(s).(shutdownAttempted := true, log := s.log, primaryError := s.primaryError)
      ensures steps <= 2 && s.log == old(s).log + Submitting(steps)
      ensures steps == 2 ==> old(s).ready
      ensures error.None? ==> steps == 2 && s.primaryError == old(s).primaryError
      ensures error.Some? ==> s.primaryError.Some?
      ensures raised >= old(raised) && (error.None? <==> old(s).ready && raised == old(raised))
      ensures !old(s).ready && raised == old(raised) && old(s).primaryError.None? ==>
                s.primaryError == Some(if s.process.None? then NotStarted else NotReady)
    {
      hide FirstExit, Times;
      error, steps := AskForShutdown();
      if error.Some? && s.primaryError.None? {
        s := s.(primaryError := error);
      }
    }

    /** The clean-up calls: each is made, whatever the other has raised. */
    method CleanUp(hasAdapter: bool, error: Option<Error>) returns (e: Option<Error>)
      requires Valid(s) && (error.Some? ==> s.primaryError.Some?)
      modifies this
      ensures Valid(s) && Advances(old(s), s) && !s.ready
      ensures s.log == old(s).log + (if hasAdapter then [AdapterClosed] else []) + ClosingTransport(old(s))
      ensures s.process == old(s).process && s.returncode == old(s).returncode
      ensures s.transport == old(s).transport && s.shutdownAttempted == old(s).shutdownAttempted
      ensures error.Some? ==> e == error
      ensures e.Some? ==> s.primaryError.Some?
      ensures e.None? ==> s.transportClosed == s.transport && s.primaryError == old(s).primaryError
      ensures this.raised >= old(this.raised) && (e.None? <==> error.None? && this.raised == old(this.raised))
    {
      hide FirstExit, Times;
      e := error;
      if hasAdapter {
        OneMore(s.log, AdapterClosed);
        s := s.(log := s.log + [AdapterClosed]);
        var raised := Try();
        e := Note(e, raised);
      }
      ghost var before := s;
      var raised := Disconnect();
      AdvancesFurther(old(s), before, s);
      before := s;
      e := Note(e, raised);
      AdvancesFurther(old(s), before, s);
      s := s.(ready := false);
    }

    /** An error of a clean-up call is kept; it is the error of the whole only if there was none before. */
    method Note(error: Option<Error>, raised: Option<Error>) returns (e: Option<Error>)
      requires Valid(s) && (error.Some? ==> s.primaryError.Some?)
      modifies this
      ensures Valid(s) && Advances(old(s), s)
      ensures s == old(s).(primaryError := s.primaryError, cleanupErrors := s.cleanupErrors)
      ensures e == if error.Some? then error else raised
      ensures raised.None? ==> s == old(s)
      ensures this.raised == old(this.raised)
      ensures e.Some? ==> s.primaryError.Some?
    {
      hide FirstExit, Times;
      e := error;
      if raised.Some? {
        s := s.(cleanupErrors := s.cleanupErrors + [raised.value]);
        if e.None? {
          e := raised;
          if s.primaryError.None? {
            s := s.(primaryError := raised);
          }
        }
      }
    }

    /**
      Submits once, disconnects, and waits: whatever goes wrong on the way, the adapter and the
      transport are closed and the process is waited for.
     */
    method Close(hasAdapter: bool) returns (r: Result<int, OwnedError>)
      requires Valid(s)
      modifies this
      ensures Valid(s) && Advances(old(s), s) && s.shutdownAttempted && !s.ready
      ensures old(s).shutdownAttempted ==>
                && r.Failure? && r.error.code == OwnedShutdownAlreadyAttempted && s.log == old(s).log
      ensures !old(s).shutdownAttempted ==>
                exists steps: nat {:trigger Submitting(steps)} ::
                  && steps <= 2 && (steps == 2 ==> old(s).ready)
                  && s.log == old(s).log + Submitting(steps) + (if hasAdapter then [AdapterClosed] else [])
                              + ClosingTransport(old(s)) + Waiting(old(s), s.returncode)
      ensures r.Success? ==>
                && old(s).ready && s.returncode == Some(r.value)
                && s.transportClosed && s.primaryError == old(s).primaryError
      ensures r.Success? <==> !old(s).shutdownAttempted && old(s).ready && raised == old(raised)
      ensures r.Failure? ==> s.primaryError == Some(r.error.primary)
    {
      hide FirstExit, Times, Advances;
      if s.shutdownAttempted {
        var e := Failure(OwnedShutdownAlreadyAttempted, AlreadyAttempted);
        return Result.Failure(e);
      }
      ghost var start := s;
      ghost var steps;
      r, steps := CloseOnce(hasAdapter);
      assert s.log == start.log + Submitting(steps) + (if hasAdapter then [AdapterClosed] else [])
                      + ClosingTransport(start) + Waiting(start, s.returncode);
    }

    method CloseOnce(hasAdapter: bool) returns (r: Result<int, OwnedError>, ghost steps: nat)
      requires Valid(s) && !s.shutdownAttempted
      modifies this
      ensures Valid(s) && Advances(old(s), s) && s.shutdownAttempted && !s.ready
      ensures steps <= 2 && (steps == 2 ==> old(s).ready)
      ensures s.log == old(s).log + Submitting(steps) + (if hasAdapter then [AdapterClosed] else [])
                       + ClosingTransport(old(s)) + Waiting(old(s), s.returncode)
      ensures r.Success? ==>
                && steps == 2 && s.returncode == Some(r.value)
                && s.transportClosed == s.transport == old(s).transport && s.primaryError == old(s).primaryError
      ensures r.Success? <==> old(s).ready && raised == old(raised)
      ensures r.Failure? ==> s.primaryError == Some(r.error.primary)
    {
      hide FirstExit, Times, Valid, Advances;
      ghost var start := s;
      if s.ready {
        ReadyHasProcess(s);
      }
      var error;
      error, steps := SubmitShutdown();
      ghost var before := s;
      error := CleanUp(hasAdapter, error);
      AdvancesFurther(start, before, s);
      before := s;
      var code := WaitForExit();
      AdvancesFurther(start, before, s);
      if code.Failure? && error.None? {
        error := Some(code.error.primary);
      }
      if error.Some? {
        before := s;
        var e := Failure(OwnedCloseFailed, error.value);
        AdvancesFurther(start, before, s);
        return Result.Failure(e), steps;
      }
      r := code;
    }

    /** Keeps waiting until the process has ended; gives up only if its waits are broken off this often. */
    method RetainUntilExit(interruptions: nat)
      requires Valid(s)
      modifies this
      ensures Valid(s) && Advances(old(s), s)
      ensures s.process.Some? && s.returncode.None? ==>
                Times(s.log, Waited(None)) == Times(old(s).log, Waited(None)) + interruptions
    {
      hide FirstExit, Times;
      ghost var start := s;
      var raised := Disconnect();
      if s.log != start.log {
        OneMore(start.log, TransportClosed);
      }
      if raised.Some? {
        s := s.(cleanupErrors := s.cleanupErrors + [raised.value]);
      }
      var brokenOff := 0;
      while s.process.Some? && s.returncode.None? && brokenOff < interruptions
        invariant Valid(s) && Advances(start, s) && brokenOff <= interruptions
        invariant s.process.Some? && s.returncode.None? ==>
                    Times(s.log, Waited(None)) == Times(start.log, Waited(None)) + brokenOff
      {
        ghost var before := s;
        var code := WaitForExit();
        AdvancesFurther(start, before, s);
        OneMore(before.log, Waited(s.returncode));
        brokenOff := brokenOff + 1;
      }
    }
  }

  datatype Call =
    | StartCall | WaitCall | CloseCall(hasAdapter: bool) | DisconnectCall
    | VerifyCall | FailureCall(code: Code, error: Error) | RetainCall(interruptions: nat)

  /**
    Any sequence of calls: the process is spawned at most once, a shutdown is submitted at most
    once, every exit code that is returned is the first that a wait has given, and every error that
    is returned carries the first error there was.
   */
  method Live(host: OwnedObsHost, calls: seq<Call>) returns (codes: seq<int>, errors: seq<OwnedError>)
    requires host.s == NEW
    modifies host
    ensures Valid(host.s)
    ensures Times(host.s.log, Spawned) <= 1 && Times(host.s.log, ShutdownSubmitted) <= 1
    ensures forall i | 0 <= i < |codes| :: Some(codes[i]) == host.s.returncode == FirstExit(host.s.log)
    ensures forall i | 0 <= i < |errors| :: Some(errors[i].primary) == host.s.primaryError
  {
    hide FirstExit, Times;
    codes, errors := [], [];
    NewIsValid();
    for i := 0 to |calls|
      invariant Valid(host.s)
      invariant forall k | 0 <= k < |codes| :: Some(codes[k]) == host.s.returncode
      invariant forall k | 0 <= k < |errors| :: Some(errors[k].primary) == host.s.primaryError
    {
      var code: Option<int>, failed: Option<OwnedError> := Perform(host, calls[i]);
      if code.Some? {
        codes := codes + [code.value];
      }
      if failed.Some? {
        errors := errors + [failed.value];
      }
    }
  }

  method Perform(host: OwnedObsHost, call: Call) returns (code: Option<int>, failed: Option<OwnedError>)
    requires Valid(host.s)
    modifies host
    ensures Valid(host.s) && Advances(old(host.s), host.s)
    ensures code.Some? ==> code == host.s.returncode
    ensures failed.Some? ==> Some(failed.value.primary) == host.s.primaryError
  {
    hide FirstExit, Times;
    code, failed := None, None;
    match call
    case StartCall =>
      failed := host.Start();
    case WaitCall =>
      var r := host.WaitForExit();
      code, failed := Outcome(r);
    case CloseCall(hasAdapter) =>
      var r := host.Close(hasAdapter);
      code, failed := Outcome(r);
    case DisconnectCall =>
      var error := host.Disconnect();
    case VerifyCall =>
      var error := host.VerifyIdentity();
    case FailureCall(c, error) =>
      var e := host.Failure(c, error);
      failed := Some(e);
    case RetainCall(interruptions) =>
      host.RetainUntilExit(interruptions);
  }

  method Outcome(r: Result<int, OwnedError>) returns (code: Option<int>, failed: Option<OwnedError>)
    ensures r.Success? ==> code == Some(r.value) && failed == None
    ensures r.Failure? ==> code == None && failed == Some(r.error)
  {
    match r
    case Success(value) => code, failed := Some(value), None;
    case Failure(error) => code, failed := None, Some(error);
  }

  lemma NewIsValid()
    ensures Valid(NEW)
  {}

  /** A shutdown is submitted only after the identity has been verified once more. */
  function Submitting(steps: nat): seq<Action> {
    if steps == 0 then [] else if steps == 1 then [IdentityVerified] else [IdentityVerified, ShutdownSubmitted]
  }

  function Waiting(s: State, exit: Option<int>): seq<Action> {
    if s.process.Some? && s.returncode.None? then [Waited(exit)] else []
  }

  function ClosingTransport(s: State): seq<Action> {
    if s.transport && !s.transportClosed then [TransportClosed] else []
  }
}
