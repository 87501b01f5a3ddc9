/** The compare-and-swap gate between the thread that waits and the UI thread that executes. */
module UiTaskGates {
  datatype GateState = Pending | Started | Cancelled

  /** compare_exchange_strong: the new state, which is desired exactly if the old one was Pending. */
  function Exchange(state: GateState, desired: GateState): GateState {
    if state == Pending then desired else state
  }

  /** A claim and the clock that is read after it: a late claim cancels. */
  function AfterClaim(state: GateState, deadline: int, now: int): GateState {
    if state == Pending && now >= deadline then Cancelled else Exchange(state, Started)
  }

  predicate Wins(state: GateState, deadline: int, now: int) {
    state == Pending && now < deadline
  }

  /** The milliseconds between two clocks carry over: no fresh budget, and none that has run out. */
  function SteadyDeadline(deadlineAtMs: real, steadyNow: real, systemNow: real): (steady: real)
    ensures steady >= steadyNow
    ensures deadlineAtMs > systemNow ==> steady - steadyNow == deadlineAtMs - systemNow
  {
    var remaining := deadlineAtMs - systemNow;
    if remaining <= 0.0 then steadyNow else steadyNow + remaining
  }

  class UiTaskGate {
    var state: GateState

    constructor ()
      ensures state == Pending
    {
      state := Pending;
    }

    method TryStart() returns (ok: bool)
      modifies this
      ensures ok == (old(state) == Pending) && state == Exchange(old(state), Started)
    {
      ok := state == Pending;
      if ok {
        state := Started;
      }
    }

    method CancelPending() returns (ok: bool)
      modifies this
      ensures ok == (old(state) == Pending) && state == Exchange(old(state), Cancelled)
    {
      ok := state == Pending;
      if ok {
        state := Cancelled;
      }
    }

    /** Claims the right to mutate; now is the clock as it is read after the exchange. */
    method ClaimMutation(deadline: int, now: int) returns (ok: bool)
      modifies this
      ensures ok == Wins(old(state), deadline, now)
      ensures state == AfterClaim(old(state), deadline, now)
    {
      ok := TryStart();
      if ok && now >= deadline {
        state := Cancelled;
        ok := false;
      }
    }
  }

  /** What the two threads may attempt; a claim comes with its deadline and the clock it will read. */
  datatype Attempt = ToStart | ToCancel | ToClaim(deadline: int, now: int)

  /**
    Whatever is attempted on one gate, in whatever order: nothing but the first attempt can succeed,
    so that no mutation is both claimed and cancelled, and what it decides stays.
   */
  method Contend(attempts: seq<Attempt>) returns (winners: seq<nat>, gate: UiTaskGate)
    ensures fresh(gate)
    ensures winners == if attempts != [] && !(attempts[0].ToClaim? && attempts[0].now >= attempts[0].deadline) then [0] else []
    ensures gate.state == if attempts == [] then Pending
                          else if attempts[0].ToCancel? || winners == [] then Cancelled
                          else Started
  {
    gate := new UiTaskGate();
    winners := [];
    for i := 0 to |attempts|
      invariant fresh(gate)
      invariant i == 0 ==> gate.state == Pending && winners == []
      invariant i > 0 ==>
                  && winners == (if attempts[0].ToClaim? && attempts[0].now >= attempts[0].deadline then [] else [0])
                  && gate.state == if attempts[0].ToCancel? || winners == [] then Cancelled else Started
    {
      var ok;
      match attempts[i] {
        case ToStart => ok := gate.TryStart();
        case ToCancel => ok := gate.CancelPending();
        case ToClaim(deadline, now) => ok := gate.ClaimMutation(deadline, now);
      }
      if ok {
        winners := winners + [i];
      }
    }
  }
}
