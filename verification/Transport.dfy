/** One serialised WebSocket session to the plugin, and the classification of its failures. */
module Transports {
  import opened Wrappers
  import opened Deadlines

  datatype Code =
    | RequestInvalid | TimedOut | ConnectionFailed | Indeterminate | HandshakeInvalid | VersionUnsupported
    | AuthenticationFailed | FrameTooLarge | ResponseInvalid | ResponseMismatch | EventOverflow | RequestFailed

  /** What a step of a request can raise: an error of the protocol, a time-out of the socket, anything else. */
  datatype Trouble = Protocol(code: Code) | SocketTimeout | SocketBroken

  /** encodedLength is the length of the whole frame in bytes. */
  datatype Request = Request(known: bool, mutating: bool, data: int, encodedLength: nat)

  /** takenAt records the wall clock at which the deadline was computed. */
  datatype Frame = Frame(id: nat, request: Request, deadlineAtMs: int, takenAt: real)

  /** answers is the frame that a payload was made for. */
  datatype Payload = Payload(answers: Frame, content: int)

  datatype Authentication = NotAsked | Asked | AskedWrongly

  /** A message as it is read; an unreadable one is too large, or cannot be decoded. */
  datatype Message =
    | Unreadable(tooLarge: bool)
    | Hello(wellFormed: bool, supported: bool, authentication: Authentication)
    | Identified(negotiated: bool)
    | Event
    | Reply(id: nat, vendorCall: bool, granted: bool, payload: Option<Payload>)
    | Other

  const MAX_FRAME_BYTES: nat := 1048576
  const MAX_INTERLEAVED_EVENTS: nat := 64

  /**
    The clocks, the source of request identifiers, every request frame ever handed to a socket, every
    message ever read from one, and the number of calls that were in vain: a lock that was not free
    in time, and failures to connect, to send and to receive.
   */
  class Network {
    /** The server answers the requests of one socket in order, each at most once. */
    const inOrder: bool
    var clock: real
    var serial: nat
    var frames: seq<Frame>
    var heard: seq<Message>
    var troubles: nat

    ghost predicate Valid()
      reads this
    {
      forall i | 0 <= i < |frames| :: frames[i].id < serial
    }

    constructor (inOrder: bool, clock: real)
      ensures Valid() && frames == [] && this.inOrder == inOrder && this.clock == clock
    {
      this.inOrder, this.clock, serial, frames, heard, troubles := inOrder, clock, 0, [], [], 0;
    }

    /** Whether a call is in vain. */
    method Fails() returns (b: bool)
      modifies this`troubles
      ensures troubles == old(troubles) + if b then 1 else 0
    {
      b := *;
      if b {
        troubles := troubles + 1;
      }
    }

    /** A call of the socket library. */
    method Call() returns (trouble: Option<Trouble>)
      modifies this`troubles
      ensures troubles == old(troubles) + if trouble.Some? then 1 else 0
      ensures trouble.Some? ==> !trouble.value.Protocol?
    {
      var failed := Fails();
      trouble := None;
      if failed {
        var timedOut: bool := *;
        trouble := Some(if timedOut then SocketTimeout else SocketBroken);
      }
    }

    method Now() returns (now: real)
      modifies this`clock
      ensures now == clock && clock >= old(clock)
    {
      var elapsed: real := *;
      clock := if elapsed > 0.0 then clock + elapsed else clock;
      now := clock;
    }

    /** time.time(): unrelated to the clock of the deadline. */
    method WallClock() returns (wall: real)
      ensures wall >= 0.0
    {
      wall := *;
      if wall < 0.0 {
        wall := 0.0;
      }
    }

    method NewId() returns (id: nat)
      requires Valid()
      modifies this`serial
      ensures Valid() && id == old(serial) && serial == old(serial) + 1
    {
      id, serial := serial, serial + 1;
    }
  }

  class Socket {
    const inOrder: bool
    var open: bool
    /** The requests handed to send whose replies have not been read. */
    var unread: seq<Frame>
    /** The messages read so far. */
    var log: seq<Message>

    constructor (inOrder: bool)
      ensures open && unread == [] && log == [] && this.inOrder == inOrder
    {
      this.inOrder, open, unread, log := inOrder, true, [], [];
    }

    method Close()
      modifies this`open
      ensures !open
    {
      open := false;
    }

    /** The reply of a server that keeps to the order is the reply to the oldest unanswered request. */
    method Receive(network: Network) returns (r: Result<Message, Trouble>)
      modifies this`unread, this`log, network`heard, network`troubles
      ensures network.troubles == old(network.troubles) + if r.Failure? then 1 else 0
      ensures r.Failure? ==>
                !r.error.Protocol? && unread == old(unread) && log == old(log) && network.heard == old(network.heard)
      ensures r.Success? ==> log == old(log) + [r.value] && network.heard == old(network.heard) + [r.value]
      ensures inOrder && r.Success? && r.value.Reply? ==>
                && old(unread) != [] && unread == old(unread)[1..]
                && r.value.id == old(unread)[0].id && r.value.vendorCall
                && (r.value.payload.Some? ==> r.value.payload.value.answers == old(unread)[0])
      ensures inOrder && r.Success? && !r.value.Reply? ==> unread == old(unread)
    {
      var trouble := network.Call();
      if trouble.Some? {
        return Failure(trouble.value);
      }
      var message: Message := *;
      if inOrder && message.Reply? {
        if unread == [] {
          message := Event;
        } else {
          var content: Option<int> := *;
          message := message.(
            id := unread[0].id, vendorCall := true,
            payload := if content.Some? then Some(Payload(unread[0], content.value)) else None);
          unread := unread[1..];
        }
      }
      log, network.heard := log + [message], network.heard + [message];
      r := Success(message);
    }

    /** Even a send that fails may have handed over the frame. */
    method Send(network: Network, frame: Frame) returns (trouble: Option<Trouble>)
      modifies this`unread, network`frames, network`troubles
      ensures network.troubles == old(network.troubles) + if trouble.Some? then 1 else 0
      ensures unread == old(unread) + [frame] && network.frames == old(network.frames) + [frame]
      ensures trouble.Some? ==> !trouble.value.Protocol?
    {
      unread, network.frames := unread + [frame], network.frames + [frame];
      trouble := network.Call();
    }
  }

  function Unread(message: Message): Trouble
    requires message.Unreadable?
  {
    Protocol(if message.tooLarge then FrameTooLarge else ResponseInvalid)
  }

  /**
    What the first messages after a request come to, for a request with this identifier: the first
    that is no event decides, if there is one among the first 65.
   */
  function Verdict(messages: seq<Message>, id: nat, room: nat): (r: Option<Result<Message, Trouble>>)
    decreases room
  {
    if room == 0 then Some(Failure(Protocol(EventOverflow)))
    else if messages == [] then None
    else if messages[0].Event? then Verdict(messages[1..], id, room - 1)
    else if messages[0].Unreadable? then Some(Failure(Unread(messages[0])))
    else if !messages[0].Reply? then Some(Failure(Protocol(ResponseInvalid)))
    else if messages[0].id != id || !messages[0].vendorCall then Some(Failure(Protocol(ResponseMismatch)))
    else Some(Success(messages[0]))
  }

  /** Events only use up room. */
  lemma {:induction false} EventsUseUpRoom(events: seq<Message>, rest: seq<Message>, id: nat, room: nat)
    requires |events| <= room && forall i | 0 <= i < |events| :: events[i].Event?
    ensures Verdict(events + rest, id, room) == Verdict(rest, id, room - |events|)
    decreases |events|
  {
    if events == [] {
      assert events + rest == rest;
    } else {
      assert (events + rest)[1..] == events[1..] + rest;
      EventsUseUpRoom(events[1..], rest, id, room - 1);
    }
  }

  /** The verdict, and then what the reply says: a request that was not granted, or a payload. */
  function Judged(messages: seq<Message>, id: nat): (r: Option<Result<Payload, Trouble>>) {
    match Verdict(messages, id, MAX_INTERLEAVED_EVENTS + 1)
    case None => None
    case Some(Failure(trouble)) => Some(Failure(trouble))
    case Some(Success(reply)) =>
      if !reply.Reply? || !reply.granted then Some(Failure(Protocol(RequestFailed)))
      else if reply.payload.None? then Some(Failure(Protocol(ResponseInvalid)))
      else Some(Success(reply.payload.value))
  }

  /** A judgement in favour rests on one granted reply to this request, after events only. */
  lemma JudgedByTheReply(messages: seq<Message>, id: nat, payload: Payload)
    requires Judged(messages, id) == Some(Success(payload))
    ensures exists n: nat :: n < |messages| && n <= MAX_INTERLEAVED_EVENTS
                             && messages[n] == Reply(id, true, true, Some(payload))
                             && forall i | 0 <= i < n :: messages[i].Event?
  {
    var n := DecidedBy(messages, id, MAX_INTERLEAVED_EVENTS + 1);
  }

  lemma {:induction false} DecidedBy(messages: seq<Message>, id: nat, room: nat) returns (n: nat)
    requires Verdict(messages, id, room).Some? && Verdict(messages, id, room).value.Success?
    ensures n < |messages| && n < room && messages[n] == Verdict(messages, id, room).value.value
    ensures messages[n].Reply? && messages[n].id == id && messages[n].vendorCall
    ensures forall i | 0 <= i < n :: messages[i].Event?
    decreases room
  {
    n := 0;
    if messages[0].Event? {
      var m := DecidedBy(messages[1..], id, room - 1);
      n := m + 1;
      forall i | 0 <= i < n
        ensures messages[i].Event?
      {
        assert i > 0 ==> messages[i] == messages[1..][i - 1];
      }
    }
  }

  /** The first reason for which the first messages of a connection are refused. */
  function Refusal(messages: seq<Message>): (r: Option<Trouble>) {
    if messages == [] then None
    else if messages[0].Unreadable? then Some(Unread(messages[0]))
    else if !messages[0].Hello? || !messages[0].wellFormed then Some(Protocol(HandshakeInvalid))
    else if !messages[0].supported then Some(Protocol(VersionUnsupported))
    else if messages[0].authentication.AskedWrongly? then Some(Protocol(HandshakeInvalid))
    else if |messages| == 1 then None
    else if messages[1].Unreadable? then Some(Unread(messages[1]))
    else if !messages[1].Identified? then Some(Protocol(AuthenticationFailed))
    else if !messages[1].negotiated then Some(Protocol(VersionUnsupported))
    else None
  }

  datatype Outcome = Returned(payload: Payload) | Raised(code: Code, cause: Trouble)

  /** The code for a failure: a mutation whose frame was handed over may have happened. */
  function Classify(trouble: Trouble, handedOver: bool): Code {
    if handedOver then Indeterminate
    else match trouble
         case Protocol(code) => code
         case SocketTimeout => TimedOut
         case SocketBroken => ConnectionFailed
  }

  method Remaining(network: Network, deadline: real) returns (r: Result<real, Trouble>)
    modifies network`clock
    ensures network.clock >= old(network.clock)
    ensures r == if deadline - network.clock > 0.0 then Success(deadline - network.clock) else Failure(Protocol(TimedOut))
  {
    var now := network.Now();
    r := if deadline - now > 0.0 then Success(deadline - now) else Failure(Protocol(TimedOut));
  }

  method WithinDeadline(network: Network, deadline: real) returns (ok: bool)
    modifies network`clock
    ensures network.clock >= old(network.clock)
    ensures ok == (network.clock <= deadline)
  {
    var now := network.Now();
    ok := now <= deadline;
  }

  /** The reply to one frame, and to no other. */
  ghost predicate Answers(reply: Message, frame: Frame) {
    && reply.Reply? && reply.id == frame.id && reply.vendorCall
    && (reply.payload.Some? ==> reply.payload.value.answers == frame)
  }

  method ReadMessage(network: Network, socket: Socket, deadline: real) returns (r: Result<Message, Trouble>)
    modifies network`clock, network`heard, network`troubles, socket`unread, socket`log
    ensures network.clock >= old(network.clock) && network.troubles >= old(network.troubles)
    ensures r.Success? ==>
              && !r.value.Unreadable? && network.clock <= deadline
              && network.heard == old(network.heard) + [r.value] && socket.log == old(socket.log) + [r.value]
    ensures r.Failure? ==>
              match r.error
              case Protocol(TimedOut) => network.clock >= deadline
              case Protocol(code) =>
                && network.heard == old(network.heard) + [Unreadable(code == FrameTooLarge)]
                && (code == FrameTooLarge || code == ResponseInvalid)
              case _ => network.troubles > old(network.troubles)
    ensures |network.heard| <= |old(network.heard)| + 1 && old(network.heard) <= network.heard
    ensures old(socket.log) <= socket.log
    ensures socket.inOrder && r.Success? && r.value.Reply? ==>
              && old(socket.unread) != [] && socket.unread == old(socket.unread)[1..]
              && Answers(r.value, old(socket.unread)[0])
    ensures socket.inOrder && r.Success? && !r.value.Reply? ==> socket.unread == old(socket.unread)
  {
    var remaining := Remaining(network, deadline);
    if remaining.Failure? {
      return Failure(remaining.error);
    }
    r := socket.Receive(network);
    if r.Failure? {
      return;
    }
    var inTime := WithinDeadline(network, deadline);
    if !inTime {
      return Failure(Protocol(TimedOut));
    }
    if r.value.Unreadable? {
      return Failure(Unread(r.value));
    }
  }

  /** Reads up to 65 messages: the verdict on what was read, unless time or the socket ran out. */
  method ReceiveResponse(network: Network, socket: Socket, id: nat, deadline: real) returns (r: Result<Message, Trouble>)
    modifies network`clock, network`heard, network`troubles, socket`unread, socket`log
    ensures network.clock >= old(network.clock) && network.troubles >= old(network.troubles)
    ensures old(network.heard) <= network.heard
    ensures |network.heard| <= |old(network.heard)| + MAX_INTERLEAVED_EVENTS + 1
    ensures old(socket.log) <= socket.log
    ensures r.Success? || (r.error.Protocol? && r.error.code != TimedOut) ==>
              Verdict(network.heard[|old(network.heard)|..], id, MAX_INTERLEAVED_EVENTS + 1) == Some(r)
    ensures r.Failure? && r.error == Protocol(TimedOut) ==> network.clock >= deadline
    ensures r.Failure? && !r.error.Protocol? ==> network.troubles > old(network.troubles)
    ensures r.Success? ==> r.value.Reply? && network.clock <= deadline && IsLast(network.heard, r.value)
    ensures r.Failure? ==> r.error !in {Protocol(Indeterminate), Protocol(RequestInvalid)}
    ensures socket.inOrder && |old(socket.unread)| == 1 && old(socket.unread)[0].id == id ==>
              if r.Success? then socket.unread == [] && Answers(r.value, old(socket.unread)[0])
              else r.error != Protocol(ResponseMismatch)
  {
    ghost var before := network.heard;
    ghost var events: seq<Message> := [];
    for i := 0 to MAX_INTERLEAVED_EVENTS + 1
      invariant |events| == i && network.heard == before + events && old(socket.log) <= socket.log
      invariant forall k | 0 <= k < i :: events[k].Event?
      invariant socket.inOrder ==> socket.unread == old(socket.unread)
      invariant network.clock >= old(network.clock) && network.troubles >= old(network.troubles)
    {
      r := ReadMessage(network, socket, deadline);
      ghost var rest := network.heard[|before + events|..];
      assert network.heard == before + (events + rest);
      assert network.heard[|before|..] == events + rest;
      EventsUseUpRoom(events, rest, id, MAX_INTERLEAVED_EVENTS + 1);
      if r.Failure? {
        return;
      }
      if r.value.Event? {
        events := events + [r.value];
        continue;
      }
      if !r.value.Reply? {
        return Failure(Protocol(ResponseInvalid));
      }
      if r.value.id != id || !r.value.vendorCall {
        return Failure(Protocol(ResponseMismatch));
      }
      return;
    }
    EventsUseUpRoom(events, [], id, MAX_INTERLEAVED_EVENTS + 1);
    assert network.heard[|before|..] == events + [];
    r := Failure(Protocol(EventOverflow));
  }

  datatype Budget = Unlimited | Until(deadline: real) | NotFinite

  /** The frame a request puts on the wire by this deadline, with a budget of at most limit seconds. */
  ghost predicate FrameFor(frame: Frame, request: Request, limit: real) {
    && frame.request == request
    && exists remaining :: 0.0 < remaining <= limit && frame.deadlineAtMs == NativeDeadline(frame.takenAt, remaining)
  }

  /** Hello and identified, both as they have to be, are the first messages of a connection. */
  ghost predicate Shaken(log: seq<Message>) {
    && |log| >= 2
    && log[0].Hello? && log[0].wellFormed && log[0].supported && !log[0].authentication.AskedWrongly?
    && log[1].Identified? && log[1].negotiated
  }

  predicate IsLast(heard: seq<Message>, message: Message) {
    heard != [] && heard[|heard| - 1] == message
  }

  /** The last message that was read is a granted reply with this payload. */
  predicate Granted(heard: seq<Message>, payload: Payload) {
    && heard != [] && heard[|heard| - 1].Reply?
    && heard[|heard| - 1].granted && heard[|heard| - 1].payload == Some(payload)
  }

  /** What was read over a request, from the handshake on if there was no connection, comes to this. */
  ghost predicate Concluded(read: seq<Message>, connected: bool, id: nat, verdict: Result<Payload, Trouble>) {
    if connected then Judged(read, id) == Some(verdict)
    else |read| >= 2 && Shaken(read[..2]) && Judged(read[2..], id) == Some(verdict)
  }

  class Transport {
    const network: Network
    const timeoutSeconds: real
    var socket: Socket?

    /** A retained socket is open, has completed its handshake, and has no unread reply. */
    ghost predicate Valid()
      reads this, network, socket
    {
      && network.Valid()
      && (socket != null ==>
            && socket.open && Shaken(socket.log) && socket.inOrder == network.inOrder && (socket.inOrder ==> socket.unread == []))
    }

    constructor (network: Network, timeoutSeconds: real)
      requires network.Valid()
      ensures Valid() && this.network == network && this.timeoutSeconds == timeoutSeconds && socket == null
    {
      this.network, this.timeoutSeconds, socket := network, timeoutSeconds, null;
    }

    method Disconnect()
      requires network.Valid()
      modifies this`socket, if socket == null then {} else {socket}
      ensures Valid() && socket == null && (old(socket) != null ==> !old(socket).open)
    {
      if socket != null {
        socket.Close();
      }
      socket := null;
    }

    /** Hello, identify, identified. */
    method Handshake(candidate: Socket, deadline: real) returns (trouble: Option<Trouble>)
      requires candidate.open && candidate.unread == [] && candidate.log == []
      modifies network`clock, network`heard, network`troubles, candidate`unread, candidate`log
      ensures network.clock >= old(network.clock) && network.troubles >= old(network.troubles)
      ensures old(network.heard) <= network.heard && |network.heard| <= |old(network.heard)| + 2
      ensures trouble.None? && candidate.inOrder ==> candidate.unread == []
      ensures trouble.None? ==>
                Shaken(candidate.log) && |candidate.log| == 2 && network.heard == old(network.heard) + candidate.log
      ensures trouble == Some(Protocol(TimedOut)) ==> network.clock >= deadline
      ensures trouble.Some? && !trouble.value.Protocol? ==> network.troubles > old(network.troubles)
      ensures trouble.Some? && trouble.value.Protocol? && trouble.value.code != TimedOut ==>
                Refusal(network.heard[|old(network.heard)|..]) == trouble
    {
      var hello := ReadMessage(network, candidate, deadline);
      if hello.Failure? {
        return Some(hello.error);
      }
      if !hello.value.Hello? || !hello.value.wellFormed {
        return Some(Protocol(HandshakeInvalid));
      }
      if !hello.value.supported {
        return Some(Protocol(VersionUnsupported));
      }
      if hello.value.authentication.AskedWrongly? {
        return Some(Protocol(HandshakeInvalid));
      }
      var remaining := Remaining(network, deadline);
      if remaining.Failure? {
        return Some(remaining.error);
      }
      trouble := network.Call();
      if trouble.Some? {
        return;
      }
      var inTime := WithinDeadline(network, deadline);
      if !inTime {
        return Some(Protocol(TimedOut));
      }
      var identified := ReadMessage(network, candidate, deadline);
      if identified.Failure? {
        return Some(identified.error);
      }
      if !identified.value.Identified? {
        return Some(Protocol(AuthenticationFailed));
      }
      if !identified.value.negotiated {
        return Some(Protocol(VersionUnsupported));
      }
      trouble := None;
    }

    method EnsureConnected(deadline: real) returns (r: Result<Socket, Trouble>)
      requires Valid()
      modifies this`socket, network`clock, network`heard, network`troubles
      ensures Valid() && network.clock >= old(network.clock) && network.troubles >= old(network.troubles)
      ensures old(network.heard) <= network.heard
      ensures r.Success? ==> socket == r.value && (socket == old(socket) || fresh(socket))
      ensures old(socket) != null ==> socket == old(socket) && r.Success? && network.heard == old(network.heard)
      ensures r.Success? && old(socket) == null ==>
                |network.heard| == |old(network.heard)| + 2 && Shaken(network.heard[|old(network.heard)|..])
      ensures r.Failure? ==>
                && socket == old(socket) == null
                && match r.error
                   case Protocol(TimedOut) => network.clock >= deadline
                   case Protocol(code) => Refusal(network.heard[|old(network.heard)|..]) == Some(r.error)
                   case _ => network.troubles > old(network.troubles)
    {
      if socket != null {
        return Success(socket);
      }
      var remaining := Remaining(network, deadline);
      if remaining.Failure? {
        return Failure(remaining.error);
      }
      var trouble := network.Call();
      if trouble.Some? {
        return Failure(trouble.value);
      }
      var connected := new Socket(network.inOrder);
      trouble := Handshake(connected, deadline);
      if trouble.Some? {
        connected.Close();
        return Failure(trouble.value);
      }
      socket := connected;
      r := Success(connected);
    }

    /** Puts one request on the wire; handedOver is set immediately before the send. */
    method Exchange(socket: Socket, request: Request, deadline: real)
        returns (r: Result<Message, Trouble>, handedOver: bool)
      requires Valid() && this.socket == socket
      modifies network`clock, network`serial, network`frames, network`heard, network`troubles, socket`unread, socket`log
      ensures network.Valid() && network.clock >= old(network.clock) && old(socket.log) <= socket.log
      ensures network.troubles >= old(network.troubles) && old(network.heard) <= network.heard
      ensures handedOver && network.frames != [] && (r.Success? || (r.error.Protocol? && r.error.code != TimedOut)) ==>
                Verdict(network.heard[|old(network.heard)|..], Newest(network.frames).id, MAX_INTERLEAVED_EVENTS + 1) == Some(r)
      ensures r.Failure? && r.error == Protocol(TimedOut) ==> network.clock >= deadline
      ensures r.Failure? && !r.error.Protocol? ==> network.troubles > old(network.troubles)
      ensures !handedOver && r.Failure? && r.error != Protocol(TimedOut) ==>
                && r.error == Protocol(FrameTooLarge) && request.encodedLength > MAX_FRAME_BYTES
                && network.heard == old(network.heard)
      ensures !handedOver ==> r.Failure? && network.frames == old(network.frames)
      ensures handedOver ==>
                && |network.frames| == |old(network.frames)| + 1 && old(network.frames) <= network.frames
                && FrameFor(Newest(network.frames), request, deadline - old(network.clock))
                && Newest(network.frames).id >= old(network.serial)
      ensures r.Success? ==> r.value.Reply? && network.clock <= deadline && IsLast(network.heard, r.value)
      ensures r.Success? && network.inOrder ==> socket.unread == [] && Answers(r.value, Newest(network.frames))
      ensures r.Failure? ==> r.error !in {Protocol(Indeterminate), Protocol(RequestInvalid)}
      ensures r.Failure? && network.inOrder ==> r.error != Protocol(ResponseMismatch)
    {
      handedOver := false;
      var id := network.NewId();
      var remaining := Remaining(network, deadline);
      if remaining.Failure? {
        return Failure(remaining.error), false;
      }
      var wall := network.WallClock();
      var frame := Frame(id, request, NativeDeadline(wall, remaining.value), wall);
      assert FrameFor(frame, request, deadline - old(network.clock));
      var still := Remaining(network, deadline);
      if still.Failure? {
        return Failure(still.error), false;
      }
      if request.encodedLength > MAX_FRAME_BYTES {
        return Failure(Protocol(FrameTooLarge)), false;
      }
      still := Remaining(network, deadline);
      if still.Failure? {
        return Failure(still.error), false;
      }
      handedOver := true;
      var trouble := socket.Send(network, frame);
      if trouble.Some? {
        return Failure(trouble.value), true;
      }
      var inTime := WithinDeadline(network, deadline);
      if !inTime {
        return Failure(Protocol(TimedOut)), true;
      }
      r := ReceiveResponse(network, socket, id, deadline);
    }

    /** Connects if need be, puts the request on the wire, and judges what comes back. */
    method Attempt(request: Request, deadline: real) returns (r: Result<Payload, Trouble>, handedOver: bool)
      requires Valid()
      modifies this`socket, network`clock, network`serial, network`frames, network`heard, network`troubles
      modifies if socket == null then {} else {socket}
      ensures network.Valid() && network.clock >= old(network.clock) && network.troubles >= old(network.troubles)
      ensures old(network.heard) <= network.heard
      ensures socket == old(socket) || fresh(socket)
      ensures !handedOver ==> r.Failure? && network.frames == old(network.frames)
      ensures handedOver ==>
                && |network.frames| == |old(network.frames)| + 1 && old(network.frames) <= network.frames
                && FrameFor(Newest(network.frames), request, deadline - old(network.clock))
                && Newest(network.frames).id >= old(network.serial)
      ensures handedOver && network.frames != [] && (r.Success? || (r.error.Protocol? && r.error.code != TimedOut)) ==>
                Concluded(network.heard[|old(network.heard)|..], old(socket) != null, Newest(network.frames).id, r)
      ensures r.Success? ==> Valid() && socket != null && network.clock <= deadline && Granted(network.heard, r.value)
      ensures r.Success? && network.inOrder ==> network.frames != [] && r.value.answers == Newest(network.frames)
      ensures r.Failure? ==>
                && r.error !in {Protocol(Indeterminate), Protocol(RequestInvalid)}
                && (network.inOrder ==> r.error != Protocol(ResponseMismatch))
                && (r.error == Protocol(TimedOut) ==> network.clock >= deadline)
                && (!r.error.Protocol? ==> network.troubles > old(network.troubles))
      ensures !handedOver && r.Failure? && r.error.Protocol? && r.error.code != TimedOut ==>
                || (old(socket) == null && Refusal(network.heard[|old(network.heard)|..]) == Some(r.error))
                || (r.error.code == FrameTooLarge && request.encodedLength > MAX_FRAME_BYTES)
    {
      hide Verdict, FrameFor, Refusal;
      var connected := EnsureConnected(deadline);
      if connected.Failure? {
        if connected.error.Protocol? && connected.error.code != TimedOut {
          RefusalIsNoMismatch(network.heard[|old(network.heard)|..]);
        }
        return Failure(connected.error), false;
      }
      ghost var connecting := network.heard[|old(network.heard)|..];
      ghost var heard, clock := network.heard, network.clock;
      var reply;
      reply, handedOver := Exchange(connected.value, request, deadline);
      ghost var read := network.heard[|heard|..];
      assert network.heard[|old(network.heard)|..] == connecting + read;
      if handedOver {
        WithinLimit(Newest(network.frames), request, deadline - clock, deadline - old(network.clock));
      }
      if reply.Failure? {
        r := Failure(reply.error);
      } else if !reply.value.granted {
        r := Failure(Protocol(RequestFailed));
      } else if reply.value.payload.None? {
        r := Failure(Protocol(ResponseInvalid));
      } else {
        r := Success(reply.value.payload.value);
      }
    }

    /** The deadline of a request, unless it has passed or the lock is not free in time. */
    method Admit(budget: Budget) returns (r: Result<real, Trouble>)
      requires !budget.NotFinite?
      modifies network`clock, network`troubles
      ensures network.clock >= old(network.clock) && network.troubles >= old(network.troubles)
      ensures r.Success? ==>
                if budget.Until? then r.value == budget.deadline
                else old(network.clock) + timeoutSeconds <= r.value <= network.clock + timeoutSeconds
      ensures r.Failure? ==>
                && r.error == Protocol(TimedOut)
                && (network.troubles > old(network.troubles)
                    || network.clock >= if budget.Until? then budget.deadline else old(network.clock) + timeoutSeconds)
    {
      var deadline;
      if budget.Until? {
        deadline := budget.deadline;
      } else {
        var now := network.Now();
        deadline := now + timeoutSeconds;
      }
      var remaining := Remaining(network, deadline);
      if remaining.Failure? {
        return Failure(remaining.error);
      }
      var busy := network.Fails();
      r := if busy then Failure(Protocol(TimedOut)) else Success(deadline);
    }

    /**
      One vendor request. What is returned is the payload of the granted reply that was read; after
      any failure the socket is gone, and the failure has its reason; a mutation that fails with
      anything but Indeterminate was never handed to a socket; and a server that keeps to the order
      never causes a mismatch.
     */
    method VendorRequest(request: Request, budget: Budget) returns (r: Outcome)
      requires Valid()
      modifies this`socket, network`clock, network`serial, network`frames, network`heard, network`troubles
      modifies if socket == null then {} else {socket}
      ensures Valid() && network.clock >= old(network.clock)
      ensures network.troubles >= old(network.troubles) && old(network.heard) <= network.heard
      ensures network.frames == old(network.frames) || (
                && |network.frames| == |old(network.frames)| + 1 && old(network.frames) <= network.frames
                && Newest(network.frames).request == request && Newest(network.frames).id >= old(network.serial)
                && FrameFor(Newest(network.frames), request,
                            if budget.Until? then budget.deadline - old(network.clock) else timeoutSeconds))
      ensures r.Returned? ==>
                && network.frames != old(network.frames) && socket != null && network.frames != []
                && Concluded(network.heard[|old(network.heard)|..], old(socket) != null, Newest(network.frames).id,
                             Success(r.payload))
                && Granted(network.heard, r.payload)
      ensures r.Returned? && network.inOrder ==> r.payload.answers == Newest(network.frames)
      ensures r.Returned? && budget.Until? ==> network.clock <= budget.deadline
      ensures r.Raised? ==>
                && r.code == Classify(r.cause, request.mutating && network.frames != old(network.frames))
                && (r.code == Indeterminate <==> request.mutating && network.frames != old(network.frames))
      ensures r.Raised? && !r.cause.Protocol? ==> network.troubles > old(network.troubles)
      ensures r.Raised? && r.cause == Protocol(TimedOut) ==>
                || network.troubles > old(network.troubles)
                || network.clock >= if budget.Until? then budget.deadline else old(network.clock) + timeoutSeconds
      ensures r.Raised? && r.cause == Protocol(RequestInvalid) <==> !request.known || budget.NotFinite?
      ensures r.Raised? && r.cause.Protocol? && r.cause.code !in {TimedOut, RequestInvalid} ==>
                if network.frames != old(network.frames) && network.frames != [] then
                  Concluded(network.heard[|old(network.heard)|..], old(socket) != null, Newest(network.frames).id,
                            Failure(r.cause))
                else
                  || (old(socket) == null && Refusal(network.heard[|old(network.heard)|..]) == Some(r.cause))
                  || (r.cause.code == FrameTooLarge && request.encodedLength > MAX_FRAME_BYTES)
      ensures socket == null || socket == old(socket) || fresh(socket)
      ensures r.Raised? && network.inOrder ==> r.cause != Protocol(ResponseMismatch)
      ensures r.Raised? ==> socket == null || (socket == old(socket) && network.frames == old(network.frames))
      ensures r.Raised? && network.frames != old(network.frames) ==> socket == null
    {
      hide Concluded, Refusal, Shaken, FrameFor, Granted;
      if !request.known || budget.NotFinite? {
        return Raised(RequestInvalid, Protocol(RequestInvalid));
      }
      var deadline := Admit(budget);
      if deadline.Failure? {
        return Raised(TimedOut, deadline.error);
      }
      ghost var left := deadline.value - network.clock;
      var reply, handedOver := Attempt(request, deadline.value);
      if handedOver {
        ghost var limit := if budget.Until? then budget.deadline - old(network.clock) else timeoutSeconds;
        WithinLimit(Newest(network.frames), request, left, limit);
      }
      if reply.Failure? {
        Disconnect();
        return Raised(Classify(reply.error, handedOver && request.mutating), reply.error);
      }
      r := Returned(reply.value);
    }
  }

  lemma RefusalIsNoMismatch(messages: seq<Message>)
    requires Refusal(messages).Some?
    ensures Refusal(messages).value !in {Protocol(ResponseMismatch), Protocol(Indeterminate), Protocol(RequestInvalid)}
  {}

  lemma WithinLimit(frame: Frame, request: Request, limit: real, limit': real)
    requires FrameFor(frame, request, limit) && limit <= limit'
    ensures FrameFor(frame, request, limit') && frame.request == request
  {
    var remaining :| 0.0 < remaining <= limit && frame.deadlineAtMs == NativeDeadline(frame.takenAt, remaining);
    assert 0.0 < remaining <= limit';
  }

  /** The mutations among the frames that were ever handed to a socket. */
  function Mutations(frames: seq<Frame>): seq<Request> {
    if frames == [] then []
    else
      var last := frames[|frames| - 1].request;
      Mutations(frames[..|frames| - 1]) + if last.mutating then [last] else []
  }

  /** The mutations that the caller was told had happened or may have happened. */
  function NotDenied(calls: seq<Call>, outcomes: seq<Outcome>): seq<Request>
    requires |calls| == |outcomes|
  {
    if calls == [] then []
    else
      var n := |calls| - 1;
      NotDenied(calls[..n], outcomes[..n]) +
      if calls[n].request.mutating && (outcomes[n].Returned? || outcomes[n].code == Indeterminate) then [calls[n].request]
      else []
  }

  datatype Call = Call(request: Request, budget: Budget, closeFirst: bool)

  /**
    Any run of requests over one transport, with the connection closed in between at will: the
    mutations that reached a socket are exactly, and in order, those that the caller was not told
    had failed; against a server that keeps to the order every payload answers its own request and
    no mismatch occurs.
   */
  method Converse(transport: Transport, calls: seq<Call>) returns (outcomes: seq<Outcome>)
    requires transport.Valid() && transport.network.frames == []
    requires transport.socket == null
    modifies transport, transport.network
    ensures transport.Valid() && |outcomes| == |calls|
    ensures Mutations(transport.network.frames) == NotDenied(calls, outcomes)
    ensures transport.network.inOrder ==> forall i | 0 <= i < |calls| ::
              if outcomes[i].Returned? then outcomes[i].payload.answers.request == calls[i].request
              else outcomes[i].cause != Protocol(ResponseMismatch)
  {
    hide Shaken, FrameFor, Concluded, Refusal, Granted;
    outcomes := [];
    for i := 0 to |calls|
      invariant transport.Valid() && |outcomes| == i
      invariant transport.socket == null || fresh(transport.socket)
      invariant Mutations(transport.network.frames) == NotDenied(calls[..i], outcomes)
      invariant transport.network.inOrder ==> forall k | 0 <= k < i ::
                  if outcomes[k].Returned? then outcomes[k].payload.answers.request == calls[k].request
                  else outcomes[k].cause != Protocol(ResponseMismatch)
    {
      if calls[i].closeFirst {
        transport.Disconnect();
      }
      ghost var before := transport.network.frames;
      var outcome := transport.VendorRequest(calls[i].request, calls[i].budget);
      ghost var after := transport.network.frames;
      assert after != before ==> after[..|after| - 1] == before;
      assert (outcomes + [outcome])[..i] == outcomes && calls[..i + 1][..i] == calls[..i];
      outcomes := outcomes + [outcome];
    }
    assert calls[..|calls|] == calls;
  }

  function Newest(frames: seq<Frame>): Frame
    requires frames != []
  {
    frames[|frames| - 1]
  }
}
