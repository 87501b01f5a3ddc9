/**
  A caller's time budget on its way from the transport to the native plugin: a wall-clock
  deadline in whole milliseconds, admitted by the plugin and turned back into a steady deadline.
 */
module Deadlines {
  import opened UiTaskGates

  const NATIVE_MAX_SECONDS := 120.0
  const ROUNDING_RESERVE_SECONDS := 0.001

  function Min(a: real, b: real): real {
    if b < a then b else a
  }

  function Ceiling(x: real): (n: int)
    ensures n as real - 1.0 < x <= n as real
  {
    -(-x).Floor
  }

  /** The deadline that a request carries, with the cap as a parameter. */
  function CappedDeadline(wall: real, remaining: real, cap: real): int {
    Ceiling((wall + Min(remaining, cap)) * 1000.0)
  }

  function NativeDeadline(wall: real, remaining: real): int {
    CappedDeadline(wall, remaining, NATIVE_MAX_SECONDS - ROUNDING_RESERVE_SECONDS)
  }

  /** The plugin's check; nowMs is its clock in whole milliseconds. */
  predicate Admitted(deadlineAtMs: int, nowMs: int) {
    0 < deadlineAtMs <= nowMs + 120000
  }

  /** A plugin whose clock is not behind the transport's admits every deadline. */
  lemma AlwaysAdmitted(wall: real, remaining: real, nowMs: int)
    requires wall >= 0.0 && remaining > 0.0 && nowMs >= (wall * 1000.0).Floor
    ensures Admitted(NativeDeadline(wall, remaining), nowMs)
  {
    var x := (wall + Min(remaining, NATIVE_MAX_SECONDS - ROUNDING_RESERVE_SECONDS)) * 1000.0;
    assert x <= wall * 1000.0 + 119999.0;
    assert x > 0.0;
  }

  /** The reserve is the smallest that will do: with any larger cap, some deadline is turned away. */
  lemma ReserveIsNeeded(cap: real, remaining: real) returns (wall: real)
    requires cap > NATIVE_MAX_SECONDS - ROUNDING_RESERVE_SECONDS && remaining >= cap
    ensures wall >= 0.0 && !Admitted(CappedDeadline(wall, remaining, cap), (wall * 1000.0).Floor)
  {
    var excess := cap * 1000.0 - 119999.0;
    wall := if excess > 1.0 then 0.0 else (1.0 - excess / 2.0) / 1000.0;
    if excess <= 1.0 {
      assert wall * 1000.0 == 1.0 - excess / 2.0;
      assert (wall * 1000.0).Floor == 0;
    }
    assert (wall + cap) * 1000.0 == wall * 1000.0 + excess + 119999.0;
  }

  /** The deadline is never early, except by the cap, and late by less than a millisecond. */
  lemma LateByLessThanOneMillisecond(wall: real, remaining: real)
    ensures var late := NativeDeadline(wall, remaining) as real - (wall + remaining) * 1000.0;
            late < 1.0 && (remaining <= NATIVE_MAX_SECONDS - ROUNDING_RESERVE_SECONDS ==> 0.0 <= late)
    ensures remaining > NATIVE_MAX_SECONDS - ROUNDING_RESERVE_SECONDS ==>
              0.0 <= NativeDeadline(wall, remaining) as real - (wall + 119.999) * 1000.0 < 1.0
  {}

  /**
    What the UI thread is left with is what the caller had left, less the time on the way, give or
    take the rounding: the plugin never starts a fresh budget.
   */
  lemma NoFreshBudget(wall: real, remaining: real, steadyNow: real, systemNow: real)
    requires remaining > 0.0 && systemNow >= wall * 1000.0
    ensures var left := SteadyDeadline(NativeDeadline(wall, remaining) as real, steadyNow, systemNow) - steadyNow;
            var onTheWay := systemNow - wall * 1000.0;
            && (left == 0.0 || left < remaining * 1000.0 - onTheWay + 1.0)
            && (left == 0.0 || left <= 120000.0 - onTheWay)
  {
    LateByLessThanOneMillisecond(wall, remaining);
    var cap := NATIVE_MAX_SECONDS - ROUNDING_RESERVE_SECONDS;
    assert (wall + Min(remaining, cap)) * 1000.0 <= wall * 1000.0 + 119999.0;
  }
}
