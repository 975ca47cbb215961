/**
 * One heating zone's valve (src/Channel.h): it debounces the zone's raw
 * demand input and tracks the motorised valve through a timed
 * Closed / Opening / Open / Closing cycle.
 *
 * The demand input callback becomes the `input` parameter of `MsPoll`; the
 * valve output callback becomes the trace `valveWrites`, one entry per
 * value written (true for HIGH, false for LOW).
 */
module ValveChannel {
  import Debounce

  datatype ValveState = Closed | Opening | Open | Closing

  /** Polls the valve takes to open, and to close. */
  const ValveOpenTimeMs: nat := 8000
  const ValveCloseTimeMs: nat := 4000

  /** The part of a channel its polls and commands change. */
  datatype Snapshot = Snapshot(debounce: Debounce.Debouncer, valve: ValveState, openCloseCount: nat)

  /** A newly constructed channel: no demand, valve closed and at rest. */
  const Initial: Snapshot := Snapshot(Debounce.Quiet, Closed, 0)

  /** The debouncer is valid, the countdown is at most one opening time, and a valve at rest has no countdown. */
  predicate WellFormed(s: Snapshot) {
    Debounce.Valid(s.debounce)
    && s.openCloseCount <= ValveOpenTimeMs
    && (s.valve == Open || s.valve == Closed ==> s.openCloseCount == 0)
  }

  /** Whether the valve has finished opening (what `fully_open()` reports). */
  predicate IsOpenValve(s: Snapshot) {
    s.valve == Open
  }

  /**
   * One `ms_poll`: sample the input into the debouncer; then finish a
   * movement whose countdown has already run out, and count a running one
   * down by one.
   */
  function Poll(s: Snapshot, input: bool): (r: Snapshot)
    ensures WellFormed(s) ==> WellFormed(r)
    ensures r.debounce == Debounce.Sample(s.debounce, input)
    ensures s.valve == Open || s.valve == Closed ==> r.valve == s.valve
    ensures r.valve == Open <==> s.valve == Open || (s.valve == Opening && s.openCloseCount == 0)
    ensures r.valve == Closed <==> s.valve == Closed || (s.valve == Closing && s.openCloseCount == 0)
    ensures s.openCloseCount > 0 ==> r.openCloseCount + 1 == s.openCloseCount
    ensures s.openCloseCount == 0 ==> r.openCloseCount == 0
    ensures s.openCloseCount > 0 ==> r.valve == s.valve
  {
    var valve :=
      if s.valve == Opening && s.openCloseCount == 0 then Open
      else if s.valve == Closing && s.openCloseCount == 0 then Closed
      else s.valve;
    var count := if s.openCloseCount > 0 then s.openCloseCount - 1 else 0;
    Snapshot(Debounce.Sample(s.debounce, input), valve, count)
  }

  /** The `open()` command: start opening unless already open or opening. */
  function OpenValve(s: Snapshot): (r: Snapshot)
    ensures WellFormed(s) ==> WellFormed(r)
    ensures r.debounce == s.debounce
    ensures r.valve == Open || r.valve == Opening
    ensures s.valve == Open || s.valve == Opening ==> r == s
    ensures s.valve == Closed || s.valve == Closing ==> r.valve == Opening && r.openCloseCount == ValveOpenTimeMs
  {
    if s.valve != Open && s.valve != Opening then s.(valve := Opening, openCloseCount := ValveOpenTimeMs)
    else s
  }

  /** The `close()` command: start closing unless already closed or closing. */
  function CloseValve(s: Snapshot): (r: Snapshot)
    ensures WellFormed(s) ==> WellFormed(r)
    ensures r.debounce == s.debounce
    ensures r.valve == Closed || r.valve == Closing
    ensures s.valve == Closed || s.valve == Closing ==> r == s
    ensures s.valve == Open || s.valve == Opening ==> r.valve == Closing && r.openCloseCount == ValveCloseTimeMs
  {
    if s.valve != Closed && s.valve != Closing then s.(valve := Closing, openCloseCount := ValveCloseTimeMs)
    else s
  }

  /** The channel after one poll per element of `inputs`, oldest first. */
  function PollRun(s: Snapshot, inputs: seq<bool>): Snapshot
    decreases |inputs|
  {
    if |inputs| == 0 then s
    else Poll(PollRun(s, inputs[..|inputs| - 1]), inputs[|inputs| - 1])
  }

  /** A run of polls leaves the debouncer exactly where the debounce alone would. */
  lemma {:induction false} PollRunDebounce(s: Snapshot, inputs: seq<bool>)
    ensures PollRun(s, inputs).debounce == Debounce.Run(s.debounce, inputs)
    decreases |inputs|
  {
    if |inputs| > 0 {
      PollRunDebounce(s, inputs[..|inputs| - 1]);
    }
  }

  /**
   * A valve that is opening with countdown `c` is still opening, with
   * countdown `c - k`, after `k <= c` polls, whatever the inputs.
   */
  lemma {:induction false} OpeningRun(s: Snapshot, inputs: seq<bool>)
    requires s.valve == Opening && |inputs| <= s.openCloseCount
    ensures PollRun(s, inputs).valve == Opening
    ensures PollRun(s, inputs).openCloseCount == s.openCloseCount - |inputs|
    decreases |inputs|
  {
    if |inputs| > 0 {
      OpeningRun(s, inputs[..|inputs| - 1]);
    }
  }

  /** The closing counterpart of `OpeningRun`. */
  lemma {:induction false} ClosingRun(s: Snapshot, inputs: seq<bool>)
    requires s.valve == Closing && |inputs| <= s.openCloseCount
    ensures PollRun(s, inputs).valve == Closing
    ensures PollRun(s, inputs).openCloseCount == s.openCloseCount - |inputs|
    decreases |inputs|
  {
    if |inputs| > 0 {
      ClosingRun(s, inputs[..|inputs| - 1]);
    }
  }

  /**
   * After `open()` on a closed or closing valve, the valve reports Opening
   * for the next 8000 polls and Open from the 8001st: the countdown is
   * checked before it is decremented, so one poll sees it at zero first.
   */
  lemma OpenTravel(s: Snapshot, inputs: seq<bool>)
    requires s.valve == Closed || s.valve == Closing
    ensures |inputs| <= ValveOpenTimeMs ==> PollRun(OpenValve(s), inputs).valve == Opening
    ensures |inputs| == ValveOpenTimeMs + 1 ==> IsOpenValve(PollRun(OpenValve(s), inputs))
  {
    var o := OpenValve(s);
    if |inputs| <= ValveOpenTimeMs {
      OpeningRun(o, inputs);
    } else if |inputs| == ValveOpenTimeMs + 1 {
      OpeningRun(o, inputs[..|inputs| - 1]);
    }
  }

  /** After `close()` on an open or opening valve: Closing for 4000 polls, Closed on the 4001st. */
  lemma CloseTravel(s: Snapshot, inputs: seq<bool>)
    requires s.valve == Open || s.valve == Opening
    ensures |inputs| <= ValveCloseTimeMs ==> PollRun(CloseValve(s), inputs).valve == Closing
    ensures |inputs| == ValveCloseTimeMs + 1 ==> PollRun(CloseValve(s), inputs).valve == Closed
  {
    var c := CloseValve(s);
    if |inputs| <= ValveCloseTimeMs {
      ClosingRun(c, inputs);
    } else if |inputs| == ValveCloseTimeMs + 1 {
      ClosingRun(c, inputs[..|inputs| - 1]);
    }
  }

  /**
   * Repeating a command changes nothing, and a command that reverses a
   * movement in progress takes effect at once with a fresh countdown.
   */
  lemma CommandsIdempotentAndReversing(s: Snapshot)
    ensures OpenValve(OpenValve(s)) == OpenValve(s)
    ensures CloseValve(CloseValve(s)) == CloseValve(s)
    ensures s.valve == Opening ==> CloseValve(s).valve == Closing && CloseValve(s).openCloseCount == ValveCloseTimeMs
    ensures s.valve == Closing ==> OpenValve(s).valve == Opening && OpenValve(s).openCloseCount == ValveOpenTimeMs
    ensures IsOpenValve(OpenValve(s)) == IsOpenValve(s)
  {
  }

  /** One zone's valve and demand debouncer, as `class Channel` in src/Channel.h. */
  class Channel {
    var demand: bool
    var demandCount: nat
    var currState: ValveState
    var openCloseCount: nat
    /** Every value written to the valve actuator, oldest first. */
    var valveWrites: seq<bool>

    function View(): Snapshot
      reads this
    {
      Snapshot(Debounce.Debouncer(demandCount, demand), currState, openCloseCount)
    }

    predicate Valid()
      reads this
    {
      WellFormed(View())
    }

    constructor ()
      ensures View() == Initial && valveWrites == []
      ensures Valid()
    {
      demand := false;
      demandCount := 0;
      currState := Closed;
      openCloseCount := 0;
      valveWrites := [];
    }

    function State(): (r: ValveState)
      reads this
      ensures r == View().valve
    {
      currState
    }

    function HasDemand(): (r: bool)
      reads this
      ensures r == View().debounce.demand
    {
      demand
    }

    function FullyOpen(): (r: bool)
      reads this
      ensures r == IsOpenValve(View())
    {
      currState == ValveState.Open
    }

    /** `ms_poll`, with `input` the value the demand input callback returned. */
    method MsPoll(input: bool)
      modifies this
      ensures View() == Poll(old(View()), input)
      ensures valveWrites == old(valveWrites)
      ensures old(Valid()) ==> Valid()
    {
      if input && demandCount < Debounce.DemandCountMax {
        demandCount := demandCount + 1;
      } else if !input && demandCount > 0 {
        demandCount := demandCount / 2;
      }

      if demandCount == Debounce.DemandCountMax {
        demand := true;
      } else if demandCount == 0 {
        demand := false;
      }

      if currState == Opening && openCloseCount == 0 {
        currState := ValveState.Open;
      } else if currState == Closing && openCloseCount == 0 {
        currState := Closed;
      }

      if openCloseCount > 0 {
        openCloseCount := openCloseCount - 1;
      }
    }

    /** `open()`: write HIGH to the valve, then start opening unless already open or opening. */
    method Open()
      modifies this
      ensures View() == OpenValve(old(View()))
      ensures valveWrites == old(valveWrites) + [true]
      ensures old(Valid()) ==> Valid()
    {
      valveWrites := valveWrites + [true];
      if currState != ValveState.Open && currState != Opening {
        currState := Opening;
        openCloseCount := ValveOpenTimeMs;
      }
    }

    /** `close()`: write LOW to the valve, then start closing unless already closed or closing. */
    method Close()
      modifies this
      ensures View() == CloseValve(old(View()))
      ensures valveWrites == old(valveWrites) + [false]
      ensures old(Valid()) ==> Valid()
    {
      valveWrites := valveWrites + [false];
      if currState != Closed && currState != Closing {
        currState := Closing;
        openCloseCount := ValveCloseTimeMs;
      }
    }
  }
}
