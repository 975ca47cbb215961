/**
 * The boiler ignition shaper (src/Boiler.h): a rising request is held back
 * for an underrun delay before the boiler may fire, and once fired the
 * boiler is kept in overrun for a while after the request goes away.
 *
 * The fire output callback becomes the trace `fireWrites`, one entry per
 * `ms_poll`.
 */
module BoilerUnit {
  import Signals

  /** The `uint32_t` range of the durations and counters. */
  type U32 = x: nat | x < 0x1_0000_0000

  datatype BoilerMode = Idle | Underrun | Demand | Overrun

  /** Default durations, in polls: five minutes of overrun, five seconds of underrun. */
  const DefaultOverrunTimeMs: U32 := 300000
  const DefaultUnderrunTimeMs: U32 := 5000

  datatype Snapshot = Snapshot(
    currDemand: bool,
    mode: BoilerMode,
    overrunTimeMs: U32,
    overrunCounter: U32,
    underrunTimeMs: U32,
    underrunCounter: U32)

  /** A newly constructed boiler: not requested, idle, default durations, counters at zero. */
  const Initial: Snapshot := Snapshot(false, Idle, DefaultOverrunTimeMs, 0, DefaultUnderrunTimeMs, 0)

  /** What the fire output is driven to by a poll that ends in `s`. */
  predicate Fires(s: Snapshot) {
    s.mode == Demand
  }

  /**
   * The `demand(b)` call: record the request, and arm the underrun delay on
   * a false-to-true change only.
   */
  function SetDemand(s: Snapshot, demand: bool): (r: Snapshot)
    ensures r.currDemand == demand
    ensures r == s.(currDemand := demand, underrunCounter := r.underrunCounter)
    ensures demand && !s.currDemand ==> r.underrunCounter == s.underrunTimeMs
    ensures !(demand && !s.currDemand) ==> r.underrunCounter == s.underrunCounter
  {
    var armed := if demand && !s.currDemand then s.underrunTimeMs else s.underrunCounter;
    s.(currDemand := demand, underrunCounter := armed)
  }

  /**
   * One `ms_poll`. Requested: count the underrun delay down, or once it has
   * run out fire and re-arm the overrun. Not requested: count the overrun
   * down, or once it has run out go idle.
   */
  function Poll(s: Snapshot): (r: Snapshot)
    ensures r.currDemand == s.currDemand
    ensures r.overrunTimeMs == s.overrunTimeMs && r.underrunTimeMs == s.underrunTimeMs
    ensures r.mode == Underrun <==> s.currDemand && s.underrunCounter > 0
    ensures r.mode == Demand <==> s.currDemand && s.underrunCounter == 0
    ensures r.mode == Overrun <==> !s.currDemand && s.overrunCounter > 0
    ensures r.mode == Idle <==> !s.currDemand && s.overrunCounter == 0
    ensures r.mode == Demand ==> r.overrunCounter == r.overrunTimeMs
    ensures r.underrunCounter == s.underrunCounter || r.underrunCounter + 1 == s.underrunCounter
    ensures r.underrunCounter != s.underrunCounter ==> r.mode == Underrun
    ensures r.mode != Demand ==> r.overrunCounter == s.overrunCounter || r.overrunCounter + 1 == s.overrunCounter
    ensures r.mode != Demand && r.overrunCounter != s.overrunCounter ==> r.mode == Overrun
  {
    if s.currDemand then
      if s.underrunCounter != 0 then s.(underrunCounter := s.underrunCounter - 1, mode := Underrun)
      else s.(overrunCounter := s.overrunTimeMs, mode := Demand)
    else if s.overrunCounter > 0 then s.(overrunCounter := s.overrunCounter - 1, mode := Overrun)
    else s.(mode := Idle)
  }

  /**
   * The boiler after one tick per element of `requests`: each tick sets the
   * request, then polls, as the controller and the host do.
   */
  function Drive(s: Snapshot, requests: seq<bool>): Snapshot
    decreases |requests|
  {
    if |requests| == 0 then s
    else Poll(SetDemand(Drive(s, requests[..|requests| - 1]), requests[|requests| - 1]))
  }

  /** While the request is held, the `k`-th tick after the edge still shows underrun counter `U - k`. */
  lemma {:induction false} UnderrunRun(s: Snapshot, k: nat)
    requires !s.currDemand && 1 <= k <= s.underrunTimeMs
    ensures Drive(s, Signals.Held(true, k)).mode == Underrun
    ensures Drive(s, Signals.Held(true, k)).currDemand
    ensures Drive(s, Signals.Held(true, k)).underrunCounter == s.underrunTimeMs - k
    ensures Drive(s, Signals.Held(true, k)).underrunTimeMs == s.underrunTimeMs
  {
    Signals.HeldPrefix(true, k - 1);
    if k > 1 {
      UnderrunRun(s, k - 1);
    }
  }

  /** Once the underrun delay has run out, a held request keeps the boiler firing. */
  lemma {:induction false} DemandRun(s: Snapshot, k: nat)
    requires !s.currDemand && k > s.underrunTimeMs
    ensures Drive(s, Signals.Held(true, k)).mode == Demand
    ensures Drive(s, Signals.Held(true, k)).currDemand
    ensures Drive(s, Signals.Held(true, k)).underrunCounter == 0
  {
    Signals.HeldPrefix(true, k - 1);
    if k - 1 > s.underrunTimeMs {
      DemandRun(s, k - 1);
    } else if k - 1 >= 1 {
      UnderrunRun(s, k - 1);
    }
  }

  /**
   * Raising the request from not-requested gives exactly `underrun_time`
   * ticks of Underrun with the fire output off, then Demand with it on.
   */
  lemma UnderrunDuration(s: Snapshot, k: nat)
    requires !s.currDemand && k >= 1
    ensures Fires(Drive(s, Signals.Held(true, k))) <==> k > s.underrunTimeMs
    ensures k <= s.underrunTimeMs ==> Drive(s, Signals.Held(true, k)).mode == Underrun
  {
    if k <= s.underrunTimeMs {
      UnderrunRun(s, k);
    } else {
      DemandRun(s, k);
    }
  }

  /** With the request dropped and overrun counter `c`, the `k`-th tick for `k <= c` is Overrun with counter `c - k`. */
  lemma {:induction false} OverrunRun(s: Snapshot, k: nat)
    requires 1 <= k <= s.overrunCounter
    ensures Drive(s, Signals.Held(false, k)).mode == Overrun
    ensures Drive(s, Signals.Held(false, k)).overrunCounter == s.overrunCounter - k
  {
    Signals.HeldPrefix(false, k - 1);
    if k > 1 {
      OverrunRun(s, k - 1);
    }
  }

  /** Once the overrun counter is spent, a dropped request leaves the boiler idle. */
  lemma {:induction false} IdleRun(s: Snapshot, k: nat)
    requires k > s.overrunCounter
    ensures Drive(s, Signals.Held(false, k)).mode == Idle
    ensures Drive(s, Signals.Held(false, k)).overrunCounter == 0
  {
    Signals.HeldPrefix(false, k - 1);
    if k - 1 > s.overrunCounter {
      IdleRun(s, k - 1);
    } else if k - 1 >= 1 {
      OverrunRun(s, k - 1);
    }
  }

  /**
   * Dropping the request after a Demand poll gives exactly `overrun_time`
   * ticks of Overrun, then Idle, with the fire output off throughout.
   */
  lemma OverrunDuration(s: Snapshot, k: nat)
    requires s.mode == Demand && s.overrunCounter == s.overrunTimeMs && k >= 1
    ensures !Fires(Drive(s, Signals.Held(false, k)))
    ensures Drive(s, Signals.Held(false, k)).mode == Overrun <==> k <= s.overrunTimeMs
    ensures Drive(s, Signals.Held(false, k)).mode == Idle <==> k > s.overrunTimeMs
  {
    if k <= s.overrunCounter {
      OverrunRun(s, k);
    } else {
      IdleRun(s, k);
    }
  }

  /** As `class Boiler` in src/Boiler.h. */
  class Boiler {
    var currDemand: bool
    var currState: BoilerMode
    var overrunTimeMs: U32
    var overrunCounter: U32
    var underrunTimeMs: U32
    var underrunCounter: U32
    /** Every value written to the fire output, oldest first. */
    var fireWrites: seq<bool>

    function View(): Snapshot
      reads this
    {
      Snapshot(currDemand, currState, overrunTimeMs, overrunCounter, underrunTimeMs, underrunCounter)
    }

    constructor ()
      ensures View() == Initial && fireWrites == []
    {
      currDemand := false;
      currState := Idle;
      overrunTimeMs := DefaultOverrunTimeMs;
      overrunCounter := 0;
      underrunTimeMs := DefaultUnderrunTimeMs;
      underrunCounter := 0;
      fireWrites := [];
    }

    function State(): (r: BoilerMode)
      reads this
      ensures r == View().mode
    {
      currState
    }

    function IsIdle(): (r: bool)
      reads this
      ensures r == (View().mode == Idle)
    {
      currState == Idle
    }

    /** `demand(b)`. */
    method Demand(demand: bool)
      modifies this
      ensures View() == SetDemand(old(View()), demand)
      ensures fireWrites == old(fireWrites)
    {
      if demand && !currDemand {
        underrunCounter := underrunTimeMs;
      }
      currDemand := demand;
    }

    /** `ms_poll()`: advance, then write the fire output, which is on exactly in Demand. */
    method MsPoll()
      modifies this
      ensures View() == Poll(old(View()))
      ensures fireWrites == old(fireWrites) + [Fires(View())]
    {
      if currDemand {
        if underrunCounter != 0 {
          underrunCounter := underrunCounter - 1;
          currState := Underrun;
        } else {
          overrunCounter := overrunTimeMs;
          currState := BoilerMode.Demand;
        }
      } else if overrunCounter > 0 {
        overrunCounter := overrunCounter - 1;
        currState := Overrun;
      } else {
        currState := Idle;
      }
      fireWrites := fireWrites + [currState == BoilerMode.Demand];
    }

    /** `overrun_time(ms)`: only the configured overrun duration changes. */
    method SetOverrunTime(ms: U32)
      modifies this
      ensures View() == old(View()).(overrunTimeMs := ms)
      ensures fireWrites == old(fireWrites)
    {
      overrunTimeMs := ms;
    }

    /** `underrun_time(ms)`: only the configured underrun duration changes. */
    method SetUnderrunTime(ms: U32)
      modifies this
      ensures View() == old(View()).(underrunTimeMs := ms)
      ensures fireWrites == old(fireWrites)
    {
      underrunTimeMs := ms;
    }
  }
}
