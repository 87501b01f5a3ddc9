/**
  Requests from many clients, each with a waiting thread and a task for the one UI thread,
  interleaved step by step with a clock, with events of the host and with restarts of the plugin.
 */
module UiProtocol {
  import opened Wrappers
  import opened UiTaskGates

  /** How a task ends: a claim that fails or comes too late is refused, with the error of a time-out. */
  datatype Ending = Succeeded | Refused | Failed

  datatype Answer =
    | Completed(sequence: nat, ending: Ending)
    | TimedOut(sequence: nat)
    | Indeterminate(sequence: nat)

  /** late says that the gate had left Pending before the waiter could cancel it. */
  datatype Waiter = Queued | Waiting | GivingUp | Refusing(late: bool) | Answered(answer: Answer)

  datatype Task = Idle | Claimed | Running | Finishing(ending: Ending) | Numbered(answer: Answer) | Done

  /**
    instance is the plugin instance that serves the request. executed, satisfied, admittedAt, ended and
    sentAt only record what happened; no step depends on them. satisfied means that the UI task found
    the wanted state in place, and so had nothing to mutate; ended is how the UI task ended.
   */
  datatype Request = Request(
    instance: nat, mutation: bool, deadline: int, gate: GateState, waiter: Waiter, task: Task,
    response: Option<Answer>, executed: nat, satisfied: bool, admittedAt: Option<int>, ended: Option<Ending>,
    sentAt: nat)

  datatype Stamp = Stamp(instance: nat, sequence: nat)

  /**
    identity is the instance a client was constructed with, pending the request it waits for, and
    accepted the stamps of the answers it has taken, in order.
   */
  datatype Client = Client(identity: Option<nat>, pending: Option<nat>, accepted: seq<Stamp>, refused: bool)

  /** The plugin instance that now runs, and its event sequence. */
  datatype Plugin = Plugin(instance: nat, sequence: nat)

  datatype System = System(clock: int, plugin: Plugin, requests: map<nat, Request>, clients: map<nat, Client>)

  datatype Step =
    | Tick(elapsed: nat)
    | HostEvent
    | Restart
    | Send(client: nat, id: nat, mutation: bool, deadline: int)
    | CheckDeadline(id: nat)
    | WaitFails(id: nat)
    | Cancel(id: nat)
    | Refuse(id: nat)
    | Return(id: nat)
    | Probe(id: nat, ok: bool)
    | Claim(id: nat)
    | ReadClock(id: nat)
    | Execute(id: nat, mutates: bool, ok: bool)
    | Number(id: nat)
    | Publish(id: nat)
    | Accept(client: nat)
    | Abandon(client: nat)

  const NEW_CLIENT := Client(None, None, [], false)

  function Ended(r: Request, ending: Ending): Request {
    r.(task := Finishing(ending), ended := Some(ending))
  }

  /**
    A request step: the request afterwards, and by how much the event sequence grows. Every error
    takes a sequence number when it is set, and every answer takes one of its own.
   */
  function Advance(r: Request, step: Step, clock: int, sequence: nat): (Request, nat) {
    match step
    case CheckDeadline(_) =>
      if r.waiter != Queued then (r, 0)
      else (r.(waiter := if clock >= r.deadline then GivingUp else Waiting), 0)
    case WaitFails(_) =>
      if r.waiter == Waiting && r.response.None? then (r.(waiter := GivingUp), 0) else (r, 0)
    case Cancel(_) =>
      if r.waiter != GivingUp then (r, 0)
      else (r.(gate := Exchange(r.gate, Cancelled), waiter := Refusing(r.gate != Pending)), 0)
    case Refuse(_) =>
      if !r.waiter.Refusing? then (r, 0)
      else
        var answer := if r.waiter.late then Indeterminate(sequence + 1) else TimedOut(sequence + 1);
        (r.(waiter := Answered(answer)), 1)
    case Return(_) =>
      if r.waiter == Waiting && r.response.Some? then (r.(waiter := Answered(r.response.value)), 0) else (r, 0)
    case Probe(_, ok) =>
      if r.task != Idle || !r.mutation then (r, 0)
      else (Ended(r, if ok then Succeeded else Failed).(satisfied := ok), if ok then 0 else 1)
    case Claim(_) =>
      if r.task != Idle then (r, 0)
      else if r.gate != Pending then (Ended(r, Refused), 1)
      else (r.(gate := Exchange(r.gate, Started), task := if r.mutation then Claimed else Running), 0)
    case ReadClock(_) =>
      if r.task != Claimed then (r, 0)
      else if clock >= r.deadline then (Ended(r, Refused).(gate := Cancelled), 1)
      else (r.(task := Running, admittedAt := Some(clock)), 0)
    case Execute(_, mutates, ok) =>
      if r.task != Running || (mutates && !r.mutation) || (ok && r.mutation && !mutates) then (r, 0)
      else
        (Ended(r, if ok then Succeeded else Failed).(executed := r.executed + if mutates then 1 else 0),
         if ok then 0 else 1)
    case Number(_) =>
      if !r.task.Finishing? then (r, 0)
      else (r.(task := Numbered(Completed(sequence + 1, r.task.ending))), 1)
    case Publish(_) =>
      if !r.task.Numbered? then (r, 0)
      else (r.(task := Done, response := Some(r.task.answer)), 0)
    case _ => (r, 0)
  }

  /** The claim of a mutation and the reading of the clock act on the gate as the gate's own operation does. */
  lemma ClaimIsTheGates(r: Request, id: nat, before: int, clock: int, sequence: nat, later: nat)
    requires r.task == Idle && r.mutation && r.gate != Started
    ensures var claimed := Advance(r, Claim(id), before, sequence).0;
            var r' := if claimed.task == Claimed then Advance(claimed, ReadClock(id), clock, later).0 else claimed;
            && r'.gate == AfterClaim(r.gate, r.deadline, clock)
            && (r'.task == Running <==> Wins(r.gate, r.deadline, clock))
            && (r'.task == Finishing(Refused) <==> !Wins(r.gate, r.deadline, clock))
  {}

  function NewRequest(s: System, mutation: bool, deadline: int): Request {
    Request(s.plugin.instance, mutation, deadline, Pending, Queued, Idle, None, 0, false, None, None, s.plugin.sequence)
  }

  function RequestOf(step: Step): Option<nat> {
    match step
    case CheckDeadline(id) => Some(id)
    case WaitFails(id) => Some(id)
    case Cancel(id) => Some(id)
    case Refuse(id) => Some(id)
    case Return(id) => Some(id)
    case Probe(id, _) => Some(id)
    case Claim(id) => Some(id)
    case ReadClock(id) => Some(id)
    case Execute(id, _, _) => Some(id)
    case Number(id) => Some(id)
    case Publish(id) => Some(id)
    case _ => None
  }

  function Last(s: seq<Stamp>): int {
    if s == [] then -1 else s[|s| - 1].sequence
  }

  /**
    A client checks the answer it waited for: an error changes nothing, the first answer fixes the
    identity, another identity is an error, and a sequence number that is not larger is refused.
   */
  function TakeAnswer(c: Client, instance: nat, answer: Answer): Client {
    if !answer.Completed? || !answer.ending.Succeeded? || (c.identity.Some? && c.identity.value != instance) then
      c.(pending := None)
    else if c.identity.Some? && answer.sequence <= Last(c.accepted) then
      c.(pending := None, refused := true)
    else
      c.(identity := Some(instance), pending := None, accepted := c.accepted + [Stamp(instance, answer.sequence)])
  }

  /** The next state; a step that is not enabled changes nothing. */
  function Next(s: System, step: Step): System {
    match step
    case Tick(elapsed) => s.(clock := s.clock + elapsed)
    case HostEvent => s.(plugin := s.plugin.(sequence := s.plugin.sequence + 1))
    case Restart => s.(plugin := Plugin(s.plugin.instance + 1, 0))
    case Send(client, id, mutation, deadline) =>
      var c := if client in s.clients then s.clients[client] else NEW_CLIENT;
      if c.pending.Some? || id in s.requests then s
      else
        var r := NewRequest(s, mutation, deadline);
        s.(requests := s.requests[id := r], clients := s.clients[client := c.(pending := Some(id))])
    case Accept(client) =>
      if client !in s.clients || s.clients[client].pending.None? || s.clients[client].pending.value !in s.requests then s
      else
        var r := s.requests[s.clients[client].pending.value];
        if !r.waiter.Answered? then s
        else s.(clients := s.clients[client := TakeAnswer(s.clients[client], r.instance, r.waiter.answer)])
    case Abandon(client) =>
      if client !in s.clients then s
      else s.(clients := s.clients[client := s.clients[client].(pending := None)])
    case _ =>
      var id := RequestOf(step);
      if id.None? || id.value !in s.requests || s.requests[id.value].instance != s.plugin.instance then s
      else
        var (r, n) := Advance(s.requests[id.value], step, s.clock, s.plugin.sequence);
        s.(requests := s.requests[id.value := r], plugin := s.plugin.(sequence := s.plugin.sequence + n))
  }

  function Run(s: System, steps: seq<Step>): System
    decreases |steps|
  {
    if steps == [] then s else Run(Next(s, steps[0]), steps[1..])
  }

  lemma RunFrom(s: System, steps: seq<Step>, i: nat)
    requires i < |steps|
    ensures Run(s, steps[i..]) == Run(Next(s, steps[i]), steps[i + 1..])
    ensures steps[0..] == steps && Run(s, steps[|steps|..]) == s
  {
    assert steps[i..][1..] == steps[i + 1..];
  }

  const START := System(0, Plugin(0, 0), map[], map[])

  /** After a restart, numbers of the old instance are compared with nothing. */
  ghost predicate Within(instance: nat, sequence: int, plugin: Plugin) {
    instance <= plugin.instance && (instance == plugin.instance ==> sequence <= plugin.sequence)
  }

  /** The two sources of OBS_UI_TIMEOUT: the waiter that gives up, and the UI task whose claim is refused. */
  predicate SaysTimeout(answer: Answer) {
    answer.TimedOut? || (answer.Completed? && answer.ending.Refused?)
  }

  ghost predicate AnswerValid(r: Request, answer: Answer, plugin: Plugin) {
    && r.sentAt < answer.sequence && Within(r.instance, answer.sequence, plugin)
    && (SaysTimeout(answer) ==> r.gate == Cancelled)
    && (answer.Indeterminate? ==> r.gate != Pending)
    && (answer.Indeterminate? ==> r.task != Idle)
    && (answer.Completed? ==> r.ended == Some(answer.ending))
    && (answer.Completed? && answer.ending.Succeeded? && r.mutation ==> Fulfilled(r))
  }

  /** The mutation was executed, or there was nothing to do. */
  ghost predicate Fulfilled(r: Request) {
    (r.task.Finishing? || r.task.Numbered? || r.task.Done?) && r.executed == if r.satisfied then 0 else 1
  }

  ghost predicate RequestValid(r: Request, plugin: Plugin) {
    && Within(r.instance, r.sentAt, plugin)
    && (r.waiter.Refusing? ==> r.gate != Pending && if r.waiter.late then r.task != Idle else r.gate == Cancelled)
    && ((r.waiter.Queued? || r.waiter.Waiting? || r.waiter.GivingUp?) && r.task == Idle ==> r.gate == Pending)
    && (r.task == Idle ==> r.gate != Started && !r.satisfied)
    && (r.task == Claimed ==> r.gate == Started && r.mutation && !r.satisfied)
    && (r.task == Running ==> r.gate == Started && !r.satisfied)
    && (r.task == Running && r.mutation ==> r.admittedAt.Some? && r.admittedAt.value < r.deadline)
    && (r.satisfied ==> r.executed == 0)
    && (r.executed > 0 ==>
          && r.executed == 1 && r.mutation && r.gate == Started
          && (r.task.Finishing? || r.task.Numbered? || r.task.Done?)
          && r.admittedAt.Some? && r.admittedAt.value < r.deadline)
    && (r.ended.None? <==> r.task == Idle || r.task == Claimed || r.task == Running)
    && (r.task.Finishing? ==> r.ended == Some(r.task.ending))
    && (r.task == Finishing(Succeeded) && r.mutation ==> Fulfilled(r))
    && (r.task == Finishing(Refused) ==> r.gate == Cancelled)
    && (r.task.Numbered? ==> r.task.answer.Completed? && AnswerValid(r, r.task.answer, plugin))
    && (r.response.Some? <==> r.task == Done)
    && (r.response.Some? ==> r.response.value.Completed? && AnswerValid(r, r.response.value, plugin))
    && (r.waiter.Answered? ==> AnswerValid(r, r.waiter.answer, plugin))
    && (r.waiter.Answered? && r.waiter.answer.Completed? ==> r.response == Some(r.waiter.answer))
  }

  ghost predicate Increasing(s: seq<Stamp>) {
    forall i, j | 0 <= i < j < |s| :: s[i].sequence < s[j].sequence
  }

  /** One instance, whose sequence numbers strictly increase. */
  ghost predicate AcceptedInOrder(c: Client) {
    && Increasing(c.accepted)
    && (c.identity.None? ==> c.accepted == [])
    && (forall i | 0 <= i < |c.accepted| :: Some(c.accepted[i].instance) == c.identity)
  }

  ghost predicate ClientValid(c: Client, requests: map<nat, Request>, plugin: Plugin) {
    && !c.refused && AcceptedInOrder(c)
    && (c.identity.Some? ==> Within(c.identity.value, Last(c.accepted), plugin))
    && (c.pending.Some? ==> c.pending.value in requests && NotBefore(c, requests[c.pending.value]))
  }

  ghost predicate NotBefore(c: Client, r: Request) {
    c.identity == Some(r.instance) ==> Last(c.accepted) <= r.sentAt
  }

  ghost predicate Valid(s: System) {
    && (forall id | id in s.requests :: RequestValid(s.requests[id], s.plugin))
    && (forall c | c in s.clients :: ClientValid(s.clients[c], s.requests, s.plugin))
  }

  predicate ByWaiter(step: Step) {
    step.CheckDeadline? || step.WaitFails? || step.Cancel?
  }

  predicate WithAnswer(step: Step) {
    step.Refuse? || step.Return?
  }

  lemma WaiterStepValid(r: Request, step: Step, clock: int, plugin: Plugin)
    requires RequestValid(r, plugin) && r.instance == plugin.instance && ByWaiter(step)
    ensures var (r', n) := Advance(r, step, clock, plugin.sequence);
            n == 0 && RequestValid(r', plugin)
  {
    hide Within;
  }

  lemma AnswerStepValid(r: Request, step: Step, clock: int, plugin: Plugin)
    requires RequestValid(r, plugin) && r.instance == plugin.instance && WithAnswer(step)
    ensures var (r', n) := Advance(r, step, clock, plugin.sequence);
            n >= 0 && RequestValid(r', plugin.(sequence := plugin.sequence + n))
  {}

  lemma TaskStepValid(r: Request, step: Step, clock: int, plugin: Plugin)
    requires RequestValid(r, plugin) && r.instance == plugin.instance && !ByWaiter(step) && !WithAnswer(step)
    ensures var (r', n) := Advance(r, step, clock, plugin.sequence);
            n >= 0 && RequestValid(r', plugin.(sequence := plugin.sequence + n))
  {}

  lemma StepPersists(r: Request, step: Step, clock: int, plugin: Plugin)
    requires RequestValid(r, plugin)
    ensures Persists(r, Advance(r, step, clock, plugin.sequence).0)
  {
    hide AnswerValid, Within;
  }

  /** A step of a request keeps its invariant, and undoes no cancellation, no answer and no execution. */
  lemma AdvanceValid(r: Request, step: Step, clock: int, plugin: Plugin)
    requires RequestValid(r, plugin) && r.instance == plugin.instance
    ensures var (r', n) := Advance(r, step, clock, plugin.sequence);
            n >= 0 && RequestValid(r', plugin.(sequence := plugin.sequence + n)) && Persists(r, r')
  {
    hide *;
    StepPersists(r, step, clock, plugin);
    if ByWaiter(step) {
      WaiterStepValid(r, step, clock, plugin);
      assert plugin.(sequence := plugin.sequence + 0) == plugin;
    } else if WithAnswer(step) {
      AnswerStepValid(r, step, clock, plugin);
    } else {
      TaskStepValid(r, step, clock, plugin);
    }
  }

  ghost predicate Persists(r: Request, r': Request) {
    && r'.mutation == r.mutation && r'.sentAt == r.sentAt && r'.instance == r.instance
    && (r.gate == Cancelled ==> r'.gate == Cancelled)
    && (r.waiter.Answered? ==> r'.waiter == r.waiter)
    && (r.executed > 0 ==> r'.executed == r.executed)
    && (r.ended.Some? ==> r'.ended == r.ended)
    && (r.response.Some? ==> r'.response == r.response)
    && (r.task != Idle ==> r'.task != Idle)
    && (Fulfilled(r) ==> Fulfilled(r') && r'.executed == r.executed)
  }

  ghost predicate Later(plugin: Plugin, plugin': Plugin) {
    plugin.instance < plugin'.instance || (plugin.instance == plugin'.instance && plugin.sequence <= plugin'.sequence)
  }

  lemma LaterIsValid(r: Request, c: Client, requests: map<nat, Request>, plugin: Plugin, plugin': Plugin)
    requires Later(plugin, plugin')
    ensures RequestValid(r, plugin) ==> RequestValid(r, plugin')
    ensures ClientValid(c, requests, plugin) ==> ClientValid(c, requests, plugin')
  {}

  lemma NewIsValid(s: System, mutation: bool, deadline: int)
    ensures RequestValid(NewRequest(s, mutation, deadline), s.plugin)
  {}

  lemma PersistsItself(r: Request)
    ensures Persists(r, r)
  {}

  lemma RequestsStayValid(s: System, step: Step)
    requires Valid(s)
    ensures var s' := Next(s, step);
            && Later(s.plugin, s'.plugin)
            && (forall id | id in s'.requests :: RequestValid(s'.requests[id], s'.plugin))
            && (forall id | id in s.requests ::
                  id in s'.requests && Persists(s.requests[id], s'.requests[id]))
            && (forall id | id in s'.requests && id !in s.requests ::
                  s'.requests[id].sentAt == s.plugin.sequence && s'.requests[id].instance == s.plugin.instance)
  {
    hide Advance, RequestValid, ClientValid, TakeAnswer, Persists, Fulfilled;
    var s' := Next(s, step);
    var on := RequestOf(step);
    if step.Send? {
      NewIsValid(s, step.mutation, step.deadline);
    }
    forall id | id in s.requests
      ensures Persists(s.requests[id], s.requests[id])
    {
      PersistsItself(s.requests[id]);
    }
    if on.Some? && on.value in s.requests && s.requests[on.value].instance == s.plugin.instance {
      AdvanceValid(s.requests[on.value], step, s.clock, s.plugin);
    }
    forall id | id in s'.requests
      ensures RequestValid(s'.requests[id], s'.plugin)
    {
      if id in s.requests && s'.requests[id] == s.requests[id] {
        LaterIsValid(s.requests[id], NEW_CLIENT, map[], s.plugin, s'.plugin);
      }
    }
  }

  /** An answer that a client waited for is newer than every answer it has taken from that instance. */
  lemma AnswerIsTaken(c: Client, requests: map<nat, Request>, plugin: Plugin, r: Request)
    requires ClientValid(c, requests, plugin) && c.pending.Some? && requests[c.pending.value] == r
    requires r.waiter.Answered? && AnswerValid(r, r.waiter.answer, plugin)
    ensures ClientValid(TakeAnswer(c, r.instance, r.waiter.answer), requests, plugin)
  {}

  lemma NextValid(s: System, step: Step)
    requires Valid(s)
    ensures Valid(Next(s, step))
  {
    hide Advance, RequestValid, ClientValid, Persists, TakeAnswer;
    var s' := Next(s, step);
    RequestsStayValid(s, step);
    forall c | c in s'.clients
      ensures ClientValid(s'.clients[c], s'.requests, s'.plugin)
    {
      if c in s.clients && s'.clients[c] == s.clients[c] {
        ClientStaysValid(s.clients[c], s, s');
      } else {
        ChangedClient(s, step, c);
      }
    }
  }

  lemma ClientStaysValid(c: Client, s: System, s': System)
    requires ClientValid(c, s.requests, s.plugin) && Later(s.plugin, s'.plugin)
    requires forall id | id in s.requests :: id in s'.requests && Persists(s.requests[id], s'.requests[id])
    ensures ClientValid(c, s'.requests, s'.plugin)
  {}

  /** A client that sends, accepts or gives up. */
  lemma ChangedClient(s: System, step: Step, c: nat)
    requires Valid(s) && c in Next(s, step).clients
    requires c in s.clients ==> Next(s, step).clients[c] != s.clients[c]
    ensures ClientValid(Next(s, step).clients[c], Next(s, step).requests, Next(s, step).plugin)
  {
    hide Advance, AnswerValid, Fulfilled, TakeAnswer;
    assert c in s.clients ==> ClientValid(s.clients[c], s.requests, s.plugin);
    if step.Accept? {
      var r := s.requests[s.clients[c].pending.value];
      assert RequestValid(r, s.plugin);
      AnswerIsTaken(s.clients[c], s.requests, s.plugin, r);
    }
  }

  /** In every run, each request and each client is in order. */
  lemma {:induction false} RunValid(s: System, steps: seq<Step>)
    requires Valid(s)
    ensures Valid(Run(s, steps))
    decreases |steps|
  {
    if steps != [] {
      NextValid(s, steps[0]);
      RunValid(Next(s, steps[0]), steps[1..]);
    }
  }

  lemma {:induction false} AnswersStand(s: System, steps: seq<Step>, id: nat)
    requires Valid(s) && id in s.requests
    ensures id in Run(s, steps).requests && Persists(s.requests[id], Run(s, steps).requests[id])
    decreases |steps|
  {
    if steps != [] {
      NextValid(s, steps[0]);
      RequestsStayValid(s, steps[0]);
      AnswersStand(Next(s, steps[0]), steps[1..], id);
    }
  }

  /** Whoever was told that the request timed out, by the waiter or by the UI task, is told the truth, whatever happens later. */
  lemma TimeoutMeansNever(before: seq<Step>, after: seq<Step>, id: nat)
    requires var s := Run(START, before);
             id in s.requests && s.requests[id].waiter.Answered? && SaysTimeout(s.requests[id].waiter.answer)
    ensures var s := Run(Run(START, before), after);
            id in s.requests && s.requests[id].executed == 0 && s.requests[id].gate == Cancelled
  {
    var s := Run(START, before);
    RunValid(START, before);
    assert RequestValid(s.requests[id], s.plugin);
    AnswersStand(s, after, id);
    RunValid(s, after);
    assert RequestValid(Run(s, after).requests[id], Run(s, after).plugin);
  }

  /** Whoever was told that a mutation succeeded is told the truth: it ran, and never runs again, or had nothing to do. */
  lemma SuccessMeansOnce(before: seq<Step>, after: seq<Step>, id: nat)
    requires var s := Run(START, before);
             && id in s.requests && s.requests[id].mutation && s.requests[id].waiter.Answered?
             && s.requests[id].waiter.answer.Completed? && s.requests[id].waiter.answer.ending.Succeeded?
    ensures var s := Run(Run(START, before), after);
            id in s.requests && s.requests[id].executed == if Run(START, before).requests[id].satisfied then 0 else 1
  {
    var s := Run(START, before);
    RunValid(START, before);
    assert RequestValid(s.requests[id], s.plugin);
    AnswersStand(s, after, id);
  }

  /** The steps with which the UI task of a request ends in this way. */
  predicate EndsWith(step: Step, id: nat, ending: Ending) {
    match ending
    case Succeeded => step == Probe(id, true) || (step.Execute? && step.id == id && step.ok)
    case Failed => step == Probe(id, false) || (step.Execute? && step.id == id && !step.ok)
    case Refused => step == Claim(id) || step == ReadClock(id)
  }

  lemma EndedByTheStep(s: System, step: Step, id: nat)
    requires id in Next(s, step).requests && Next(s, step).requests[id].ended.Some?
    requires id in s.requests ==> s.requests[id].ended.None?
    ensures EndsWith(step, id, Next(s, step).requests[id].ended.value)
  {}

  lemma {:induction false} EndedByAStep(s: System, steps: seq<Step>, id: nat)
    requires Valid(s)
    requires id in Run(s, steps).requests && Run(s, steps).requests[id].ended.Some?
    requires id in s.requests ==> s.requests[id].ended.None?
    ensures exists i: nat :: i < |steps| && EndsWith(steps[i], id, Run(s, steps).requests[id].ended.value)
    decreases |steps|
  {
    hide Next, Persists, RequestValid, ClientValid, EndsWith;
    if steps != [] {
      var s' := Next(s, steps[0]);
      NextValid(s, steps[0]);
      if id in s'.requests && s'.requests[id].ended.Some? {
        EndedByTheStep(s, steps[0], id);
        AnswersStand(s', steps[1..], id);
        EndingStands(s'.requests[id], Run(s', steps[1..]).requests[id]);
      } else {
        EndedByAStep(s', steps[1..], id);
        var i: nat :| i < |steps[1..]| && EndsWith(steps[1..][i], id, Run(s, steps).requests[id].ended.value);
        assert steps[i + 1] == steps[1..][i];
      }
    }
  }

  lemma EndingStands(r: Request, r': Request)
    requires Persists(r, r') && r.ended.Some?
    ensures r'.ended == r.ended
  {}

  /**
    What the client is told of its UI task is what the UI task has published, and how some step of the run
    ended it; a refusal by the waiter that leaves the outcome open is given only after the UI task began.
   */
  lemma AnswerIsTheTasks(steps: seq<Step>, id: nat)
    requires id in Run(START, steps).requests && Run(START, steps).requests[id].waiter.Answered?
    ensures var r := Run(START, steps).requests[id];
            var answer := r.waiter.answer;
            && (answer.Completed? ==>
                  && r.response == Some(answer)
                  && exists i: nat :: i < |steps| && EndsWith(steps[i], id, answer.ending))
            && (answer.Indeterminate? ==> r.task != Idle)
  {
    hide Run, EndsWith, ClientValid;
    var r := Run(START, steps).requests[id];
    RunValid(START, steps);
    assert RequestValid(r, Run(START, steps).plugin);
    if r.waiter.answer.Completed? {
      EndedByAStep(START, steps, id);
    }
  }

  /** A succeeded answer of the client's own instance, or of any for a new client, is taken; others leave no stamp. */
  lemma AnswersAreTaken(steps: seq<Step>, client: nat)
    requires var s := Run(START, steps);
             && client in s.clients && s.clients[client].pending.Some? && s.clients[client].pending.value in s.requests
             && s.requests[s.clients[client].pending.value].waiter.Answered?
    ensures var s := Run(START, steps);
            var c := s.clients[client];
            var r := s.requests[c.pending.value];
            var taken := r.waiter.answer.Completed? && r.waiter.answer.ending.Succeeded?
                         && (c.identity.None? || c.identity.value == r.instance);
            var s' := Next(s, Accept(client));
            && s'.requests == s.requests && s'.clients.Keys == s.clients.Keys
            && s'.clients[client].pending.None? && !s'.clients[client].refused
            && s'.clients[client].accepted ==
               c.accepted + (if taken then [Stamp(r.instance, r.waiter.answer.sequence)] else [])
            && s'.clients[client].identity == (if taken then Some(r.instance) else c.identity)
  {
    hide Run;
    var s := Run(START, steps);
    RunValid(START, steps);
    assert ClientValid(s.clients[client], s.requests, s.plugin);
    assert RequestValid(s.requests[s.clients[client].pending.value], s.plugin);
  }

  /** A request that nothing disturbs: sent, claimed in time, executed, numbered, published and handed on. */
  function Undisturbed(client: nat, id: nat, mutation: bool, deadline: int, ok: bool): seq<Step> {
    [Send(client, id, mutation, deadline), CheckDeadline(id), Claim(id), ReadClock(id), Execute(id, mutation, ok),
     Number(id), Publish(id), Return(id)]
  }

  /** The state while the client waits for this request. */
  function Serving(s: System, client: nat, id: nat, r: Request, sequence: nat): System {
    var c := if client in s.clients then s.clients[client] else NEW_CLIENT;
    System(s.clock, s.plugin.(sequence := sequence), s.requests[id := r], s.clients[client := c.(pending := Some(id))])
  }

  lemma ServingStep(s: System, client: nat, id: nat, r: Request, n: nat, step: Step)
    requires RequestOf(step) == Some(id) && r.instance == s.plugin.instance
    ensures var (r', k) := Advance(r, step, s.clock, n);
            k >= 0 && Next(Serving(s, client, id, r, n), step) == Serving(s, client, id, r', n + k)
  {
    hide Advance;
    var (r', k) := Advance(r, step, s.clock, n);
    assert s.requests[id := r][id := r'] == s.requests[id := r'];
  }

  /** In any state, such a request is executed once and answered with its own outcome; nothing else changes. */
  lemma UndisturbedIsExecuted(s: System, client: nat, id: nat, mutation: bool, deadline: int, ok: bool)
    requires id !in s.requests && s.clock < deadline
    requires client in s.clients ==> s.clients[client].pending.None?
    ensures var ending := if ok then Succeeded else Failed;
            var answer := Completed(s.plugin.sequence + (if ok then 1 else 2), ending);
            var r := Request(s.plugin.instance, mutation, deadline, Started, Answered(answer), Done, Some(answer),
                             if mutation then 1 else 0, false, if mutation then Some(s.clock) else None,
                             Some(ending), s.plugin.sequence);
            Run(s, Undisturbed(client, id, mutation, deadline, ok)) == Serving(s, client, id, r, answer.sequence)
  {
    hide Run, Next, Serving;
    var steps := Undisturbed(client, id, mutation, deadline, ok);
    var n := s.plugin.sequence;
    var r0 := NewRequest(s, mutation, deadline);
    RunFrom(s, steps, 0);
    SentIsServed(s, client, id, mutation, deadline);
    var r4 := r0.(waiter := Waiting, gate := Started, task := Running,
                  admittedAt := if mutation then Some(s.clock) else None);
    ServedIsAdmitted(s, client, id, r0, n, steps);
    ExecutedIsReturned(s, client, id, r4, n, steps, ok);
  }

  lemma SentIsServed(s: System, client: nat, id: nat, mutation: bool, deadline: int)
    requires id !in s.requests && (client in s.clients ==> s.clients[client].pending.None?)
    ensures Next(s, Send(client, id, mutation, deadline)) ==
            Serving(s, client, id, NewRequest(s, mutation, deadline), s.plugin.sequence)
  {}

  /** The waiter begins to wait, and the UI task claims the gate in time. */
  lemma ServedIsAdmitted(s: System, client: nat, id: nat, r: Request, n: nat, steps: seq<Step>)
    requires r == NewRequest(s, r.mutation, r.deadline) && s.clock < r.deadline
    requires |steps| > 4 && steps[1..4] == [CheckDeadline(id), Claim(id), ReadClock(id)]
    ensures Run(Serving(s, client, id, r, n), steps[1..]) ==
            Run(Serving(s, client, id,
                        r.(waiter := Waiting, gate := Started, task := Running,
                           admittedAt := if r.mutation then Some(s.clock) else None), n), steps[4..])
  {
    hide Run, Next, Serving;
    var r2 := r.(waiter := Waiting);
    var r3 := r2.(gate := Started, task := if r.mutation then Claimed else Running);
    assert steps[1] == steps[1..4][0] && steps[2] == steps[1..4][1] && steps[3] == steps[1..4][2];
    RunFrom(Serving(s, client, id, r, n), steps, 1);
    ServingStep(s, client, id, r, n, steps[1]);
    RunFrom(Serving(s, client, id, r2, n), steps, 2);
    ServingStep(s, client, id, r2, n, steps[2]);
    RunFrom(Serving(s, client, id, r3, n), steps, 3);
    ServingStep(s, client, id, r3, n, steps[3]);
  }

  /** The UI task executes and publishes the answer, and the waiter hands it on. */
  lemma ExecutedIsReturned(s: System, client: nat, id: nat, r: Request, n: nat, steps: seq<Step>, ok: bool)
    requires r.task == Running && r.waiter == Waiting && r.response.None? && r.executed == 0
    requires r.instance == s.plugin.instance
    requires |steps| == 8 && steps[4..] == [Execute(id, r.mutation, ok), Number(id), Publish(id), Return(id)]
    ensures var ending := if ok then Succeeded else Failed;
            var answer := Completed(n + (if ok then 1 else 2), ending);
            Run(Serving(s, client, id, r, n), steps[4..]) ==
            Serving(s, client, id,
                    Ended(r, ending).(executed := if r.mutation then 1 else 0, task := Done, response := Some(answer),
                                      waiter := Answered(answer)), answer.sequence)
  {
    hide Run, Next, Serving;
    var ending := if ok then Succeeded else Failed;
    var m := n + if ok then 0 else 1;
    var r5 := Ended(r, ending).(executed := if r.mutation then 1 else 0);
    assert steps[4] == steps[4..][0] && steps[5] == steps[4..][1] && steps[6] == steps[4..][2] && steps[7] == steps[4..][3];
    RunFrom(Serving(s, client, id, r, n), steps, 4);
    ServingStep(s, client, id, r, n, steps[4]);
    EndedIsReturned(s, client, id, r5, m, steps);
  }

  lemma EndedIsReturned(s: System, client: nat, id: nat, r: Request, n: nat, steps: seq<Step>)
    requires r.task.Finishing? && r.waiter == Waiting && r.instance == s.plugin.instance
    requires |steps| == 8 && steps[5] == Number(id) && steps[6] == Publish(id) && steps[7] == Return(id)
    ensures var answer := Completed(n + 1, r.task.ending);
            Run(Serving(s, client, id, r, n), steps[5..]) ==
            Serving(s, client, id, r.(task := Done, response := Some(answer), waiter := Answered(answer)), n + 1)
  {
    hide Run, Next, Serving;
    var answer := Completed(n + 1, r.task.ending);
    var r6 := r.(task := Numbered(answer));
    var r7 := r6.(task := Done, response := Some(answer));
    RunFrom(Serving(s, client, id, r, n), steps, 5);
    ServingStep(s, client, id, r, n, steps[5]);
    RunFrom(Serving(s, client, id, r6, n + 1), steps, 6);
    ServingStep(s, client, id, r6, n + 1, steps[6]);
    RunFrom(Serving(s, client, id, r7, n + 1), steps, 7);
    ServingStep(s, client, id, r7, n + 1, steps[7]);
    RunFrom(Serving(s, client, id, r7.(waiter := Answered(answer)), n + 1), steps, 7);
  }

  /**
    A waiter gives up when the deadline has come before it waits, or when its wait fails. It
    withdraws a task that has not begun, which is then refused, and otherwise leaves the outcome open.
   */
  lemma GivingUpCancels(r: Request, plugin: Plugin, id: nat, clock: int)
    requires RequestValid(r, plugin)
    requires (r.waiter == Waiting && r.response.None?) || (r.waiter == Queued && clock >= r.deadline)
    ensures var first := if r.waiter == Waiting then WaitFails(id) else CheckDeadline(id);
            var given := Advance(r, first, clock, plugin.sequence).0;
            var cancelled := Advance(given, Cancel(id), clock, plugin.sequence).0;
            var r' := Advance(cancelled, Refuse(id), clock, plugin.sequence).0;
            && r' == r.(waiter := r'.waiter, gate := r'.gate)
            && (r.gate != Pending ==> r'.waiter == Answered(Indeterminate(plugin.sequence + 1)) && r'.gate == r.gate)
            && (r.task == Idle ==>
                  && r'.waiter == Answered(TimedOut(plugin.sequence + 1))
                  && Advance(r', Claim(id), clock, plugin.sequence) == (Ended(r', Refused), 1))
  {}

  /** A mutation runs at most once, and only if the clock was read before its deadline after its claim. */
  lemma ExecutionIsAdmitted(steps: seq<Step>, id: nat)
    requires id in Run(START, steps).requests && Run(START, steps).requests[id].executed > 0
    ensures var r := Run(START, steps).requests[id];
            r.executed == 1 && r.admittedAt.Some? && r.admittedAt.value < r.deadline && r.gate == Started
  {
    RunValid(START, steps);
    assert RequestValid(Run(START, steps).requests[id], Run(START, steps).plugin);
  }

  /** No client ever refuses a sequence number; those it takes are of one instance and strictly increase. */
  lemma SequencesIncrease(steps: seq<Step>, client: nat)
    requires client in Run(START, steps).clients
    ensures var c := Run(START, steps).clients[client]; !c.refused && AcceptedInOrder(c)
  {
    RunValid(START, steps);
    assert ClientValid(
      Run(START, steps).clients[client], Run(START, steps).requests, Run(START, steps).plugin);
  }

  /** A mutation that is started in time, while its waiter gives up. */
  const LATE := [Send(0, 0, true, 5), CheckDeadline(0), Claim(0), WaitFails(0), Cancel(0), Refuse(0)]

  const LATE_REQUEST := Request(0, true, 5, Started, Answered(Indeterminate(1)), Claimed, None, 0, false, None, None, 0)

  const AFTER_LATE := System(0, Plugin(0, 1), map[0 := LATE_REQUEST], map[0 := NEW_CLIENT.(pending := Some(0))])

  const CLAIMED := System(
    0, Plugin(0, 0), map[0 := LATE_REQUEST.(waiter := Waiting)], map[0 := NEW_CLIENT.(pending := Some(0))])

  lemma LateIsClaimed()
    ensures Run(START, LATE) == Run(CLAIMED, LATE[3..])
  {
    hide Run;
    RunFrom(START, LATE, 0);
    var s1 := Next(START, LATE[0]);
    RunFrom(s1, LATE, 1);
    var s2 := Next(s1, LATE[1]);
    RunFrom(s2, LATE, 2);
    assert Next(s2, LATE[2]) == CLAIMED;
  }

  lemma LateIsIndeterminate()
    ensures Run(START, LATE) == AFTER_LATE
  {
    hide Run;
    LateIsClaimed();
    RunFrom(CLAIMED, LATE, 3);
    var s4 := Next(CLAIMED, LATE[3]);
    RunFrom(s4, LATE, 4);
    var s5 := Next(s4, LATE[4]);
    RunFrom(s5, LATE, 5);
    RunFrom(Next(s5, LATE[5]), LATE, 5);
    assert Next(s5, LATE[5]) == AFTER_LATE;
  }

  const IN_TIME := [ReadClock(0), Execute(0, true, true)]
  const TOO_LATE := [Tick(5), ReadClock(0)]

  /** Indeterminate says neither that the mutation happens nor that it does not: the same run goes on either way. */
  lemma IndeterminateSaysNothing()
    ensures Run(START, LATE) == AFTER_LATE
    ensures Run(AFTER_LATE, IN_TIME).requests ==
            map[0 := Ended(LATE_REQUEST, Succeeded).(executed := 1, admittedAt := Some(0))]
    ensures Run(AFTER_LATE, TOO_LATE).requests ==
            map[0 := Ended(LATE_REQUEST, Refused).(gate := Cancelled)]
  {
    hide Run;
    LateIsIndeterminate();
    RunFrom(AFTER_LATE, IN_TIME, 0);
    var claimed := Next(AFTER_LATE, ReadClock(0));
    RunFrom(claimed, IN_TIME, 1);
    RunFrom(Next(claimed, IN_TIME[1]), IN_TIME, 1);
    RunFrom(AFTER_LATE, TOO_LATE, 0);
    var later := Next(AFTER_LATE, Tick(5));
    RunFrom(later, TOO_LATE, 1);
    RunFrom(Next(later, TOO_LATE[1]), TOO_LATE, 1);
  }
}
