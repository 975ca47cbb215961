/**
 * The arbiter (src/Controller.h): every poll it collects the channels'
 * debounced demand and fully-open flags into two bitmasks, re-elects the
 * overrun channel when demand disappears, and then, in one of three
 * branches (Demand, Cool, Idle), commands the valves and sets the boiler
 * request.
 *
 * A bitmask (`unsigned int`, bit `i` for `channels[i]`) is modelled as the
 * set of its 1-bit positions: `m |= 1 << i` is `m + {i}`, `m & (1 << i)` is
 * `i in m`, `a & b` is `a * b` and `m != 0` is `m != {}`.
 */
module Arbiter {
  import ValveChannel
  import BoilerUnit

  /**
   * On the 8-bit AVR targets the source is built for, `int` and `unsigned
   * int` are 16 bits wide: `1 << i` stays defined, and a mask keeps bit `i`,
   * only for `i <= 14`, so at most 15 channels.
   */
  const MaxChannels: nat := 15

  datatype ControlState = Idle | Demand | Cool

  /** What one poll does to one channel: nothing, `open()` or `close()`. */
  datatype Command = Keep | OpenCmd | CloseCmd

  /** The controller's own state: the branch taken, the masks of the last poll, and the overrun channel's index. */
  datatype Snapshot = Snapshot(state: ControlState, currDemand: set<nat>, currOpen: set<nat>, overrunIndex: nat)

  /** What one poll decides: the new state, the boiler request, and one command per channel. */
  datatype Outcome = Outcome(view: Snapshot, request: bool, commands: seq<Command>)

  /** `this_demand`: bit `i` set exactly when channel `i` has debounced demand. */
  function DemandMask(cs: seq<ValveChannel.Snapshot>): (m: set<nat>)
    ensures forall i: nat :: i in m <==> i < |cs| && cs[i].debounce.demand
  {
    set i: nat | i < |cs| && cs[i].debounce.demand
  }

  /** `this_open`: bit `i` set exactly when channel `i` is fully open. */
  function OpenMask(cs: seq<ValveChannel.Snapshot>): (m: set<nat>)
    ensures forall i: nat :: i in m <==> i < |cs| && ValveChannel.IsOpenValve(cs[i])
  {
    set i: nat | i < |cs| && ValveChannel.IsOpenValve(cs[i])
  }

  /**
   * The election loop over the first `n` channels: start from the default,
   * and let every channel whose bit is set in `prevOpen` overwrite it.
   */
  function Elect(prevOpen: set<nat>, n: nat, defaultIndex: nat): (k: nat)
    ensures k == defaultIndex || (k < n && k in prevOpen)
  {
    if n == 0 then defaultIndex
    else if n - 1 in prevOpen then n - 1
    else Elect(prevOpen, n - 1, defaultIndex)
  }

  /**
   * The election picks the highest-indexed channel set in the open mask,
   * or the default when none below `n` is set.
   */
  lemma {:induction false} ElectHighest(prevOpen: set<nat>, n: nat, defaultIndex: nat)
    ensures (exists i: nat :: i < n && i in prevOpen) ==>
              var k := Elect(prevOpen, n, defaultIndex);
              k < n && k in prevOpen && forall j: nat :: k < j < n ==> j !in prevOpen
    ensures (forall i: nat :: i < n ==> i !in prevOpen) ==> Elect(prevOpen, n, defaultIndex) == defaultIndex
  {
    if n > 0 && n - 1 !in prevOpen {
      ElectHighest(prevOpen, n - 1, defaultIndex);
      if exists i: nat :: i < n && i in prevOpen {
        var i: nat :| i < n && i in prevOpen;
        assert i < n - 1;
      }
    }
  }

  /** The effect of a command on a channel's state. */
  function Apply(s: ValveChannel.Snapshot, c: Command): ValveChannel.Snapshot {
    match c
    case Keep => s
    case OpenCmd => ValveChannel.OpenValve(s)
    case CloseCmd => ValveChannel.CloseValve(s)
  }

  /** What a command writes to the channel's valve output. */
  function Writes(c: Command): seq<bool> {
    match c
    case Keep => []
    case OpenCmd => [true]
    case CloseCmd => [false]
  }

  /**
   * The Demand branch's command for one channel: open it if it demands;
   * close it if it never got fully open; close a fully open one once some
   * demanding channel is fully open, and otherwise leave it.
   */
  function DemandCommand(s: ValveChannel.Snapshot, anyDemandedIsOpen: bool): Command {
    if s.debounce.demand then OpenCmd
    else if !ValveChannel.IsOpenValve(s) then CloseCmd
    else if anyDemandedIsOpen then CloseCmd
    else Keep
  }

  /** The Cool branch's command for channel `i`: open the overrun channel; close the others once it is fully open. */
  function CoolCommand(i: nat, overrun: nat, overrunIsOpen: bool): Command {
    if i == overrun then OpenCmd
    else if overrunIsOpen then CloseCmd
    else Keep
  }

  /** The branch one poll takes. */
  function Branch(thisDemand: set<nat>, boilerIdle: bool): ControlState {
    if thisDemand != {} then Demand
    else if !boilerIdle then Cool
    else Idle
  }

  /** The command the branch `state` gives channel `i`, whose state is `s`. */
  function CommandFor(state: ControlState, s: ValveChannel.Snapshot, i: nat, anyDemandedIsOpen: bool, overrun: nat, overrunIsOpen: bool): Command {
    match state
    case Demand => DemandCommand(s, anyDemandedIsOpen)
    case Cool => CoolCommand(i, overrun, overrunIsOpen)
    case Idle => CloseCmd
  }

  /** The branch taken, the boiler request and the channel commands of one poll. */
  datatype Decision = Decision(state: ControlState, request: bool, commands: seq<Command>)

  /**
   * The arbitration part of `ms_poll`, from this poll's masks, whether the
   * boiler is idle, and the overrun channel's index. Only the Demand branch
   * can request the boiler; Cool and Idle request `false`.
   */
  function Decide(cs: seq<ValveChannel.Snapshot>, thisDemand: set<nat>, thisOpen: set<nat>, boilerIdle: bool, overrun: nat): (d: Decision)
    requires overrun < |cs|
    ensures |d.commands| == |cs|
  {
    var state := Branch(thisDemand, boilerIdle);
    var anyDemandedIsOpen := thisDemand * thisOpen != {};
    Decision(state, state == Demand && anyDemandedIsOpen,
      seq(|cs|, i requires 0 <= i < |cs| =>
        CommandFor(state, cs[i], i, anyDemandedIsOpen, overrun, ValveChannel.IsOpenValve(cs[overrun]))))
  }

  /**
   * One `Controller::ms_poll` given the controller's state `v`, the
   * channels' states `cs` (already polled this tick) and whether the boiler
   * is idle. The election reads `v.currOpen`, the open mask stored by the
   * previous poll, before it is overwritten with this poll's.
   */
  function Step(v: Snapshot, cs: seq<ValveChannel.Snapshot>, boilerIdle: bool, defaultIndex: nat): (r: Outcome)
    requires v.overrunIndex < |cs| && defaultIndex < |cs|
    ensures |r.commands| == |cs| && r.view.overrunIndex < |cs|
    ensures r.view.currDemand == DemandMask(cs) && r.view.currOpen == OpenMask(cs)
    ensures r.view.state == Branch(DemandMask(cs), boilerIdle)
    ensures r.request == (r.view.state == Demand && DemandMask(cs) * OpenMask(cs) != {})
    ensures forall i :: 0 <= i < |cs| ==>
      r.commands[i] == CommandFor(r.view.state, cs[i], i, DemandMask(cs) * OpenMask(cs) != {},
                                  r.view.overrunIndex, ValveChannel.IsOpenValve(cs[r.view.overrunIndex]))
  {
    var thisDemand := DemandMask(cs);
    var thisOpen := OpenMask(cs);
    var overrun :=
      if thisDemand == {} && v.currDemand != {} then Elect(v.currOpen, |cs|, defaultIndex)
      else v.overrunIndex;
    var d := Decide(cs, thisDemand, thisOpen, boilerIdle, overrun);
    Outcome(Snapshot(d.state, thisDemand, thisOpen, overrun), d.request, d.commands)
  }

  /** Some channel has debounced demand and is fully open. */
  predicate SomeDemandedOpen(cs: seq<ValveChannel.Snapshot>) {
    exists i :: 0 <= i < |cs| && cs[i].debounce.demand && ValveChannel.IsOpenValve(cs[i])
  }

  /**
   * The boiler is asked to fire only in the Demand branch, and there exactly
   * when some demanding channel is fully open (`this_demand & this_open != 0`).
   */
  lemma RequestOnlyWhenDemandedOpen(v: Snapshot, cs: seq<ValveChannel.Snapshot>, boilerIdle: bool, defaultIndex: nat)
    requires v.overrunIndex < |cs| && defaultIndex < |cs|
    ensures var r := Step(v, cs, boilerIdle, defaultIndex);
      (r.request <==> r.view.state == Demand && SomeDemandedOpen(cs))
      && (r.request <==> r.view.currDemand * r.view.currOpen != {})
  {
    var r := Step(v, cs, boilerIdle, defaultIndex);
    if SomeDemandedOpen(cs) {
      var i :| 0 <= i < |cs| && cs[i].debounce.demand && ValveChannel.IsOpenValve(cs[i]);
      assert i in DemandMask(cs) * OpenMask(cs);
    }
    if DemandMask(cs) * OpenMask(cs) != {} {
      var i :| i in DemandMask(cs) * OpenMask(cs);
      assert cs[i].debounce.demand;
    }
  }

  /**
   * The state is Demand exactly when some channel has demand, Cool exactly
   * when none has and the boiler is not idle, and Idle otherwise.
   */
  lemma StateClassification(v: Snapshot, cs: seq<ValveChannel.Snapshot>, boilerIdle: bool, defaultIndex: nat)
    requires v.overrunIndex < |cs| && defaultIndex < |cs|
    ensures var r := Step(v, cs, boilerIdle, defaultIndex);
      var anyDemand := exists i :: 0 <= i < |cs| && cs[i].debounce.demand;
      (r.view.state == Demand <==> anyDemand)
      && (r.view.state == Cool <==> !anyDemand && !boilerIdle)
      && (r.view.state == Idle <==> !anyDemand && boilerIdle)
  {
    if exists i :: 0 <= i < |cs| && cs[i].debounce.demand {
      var i :| 0 <= i < |cs| && cs[i].debounce.demand;
      assert i in DemandMask(cs);
    }
  }

  /**
   * The overrun channel changes only on the poll where the demand mask goes
   * from non-zero to zero, and then becomes the highest-indexed channel set
   * in the previous poll's open mask, or the default if none is set.
   */
  lemma Reelection(v: Snapshot, cs: seq<ValveChannel.Snapshot>, boilerIdle: bool, defaultIndex: nat)
    requires v.overrunIndex < |cs| && defaultIndex < |cs|
    ensures var r := Step(v, cs, boilerIdle, defaultIndex);
      var dropped := v.currDemand != {} && r.view.currDemand == {};
      (!dropped ==> r.view.overrunIndex == v.overrunIndex)
      && (dropped && (exists i: nat :: i < |cs| && i in v.currOpen) ==>
            r.view.overrunIndex in v.currOpen
            && forall j: nat :: r.view.overrunIndex < j < |cs| ==> j !in v.currOpen)
      && (dropped && (forall i: nat :: i < |cs| ==> i !in v.currOpen) ==> r.view.overrunIndex == defaultIndex)
  {
    ElectHighest(v.currOpen, |cs|, defaultIndex);
  }

  /**
   * Demand branch: every demanding channel is opened; a non-demanding one
   * that is not fully open is closed; a fully open non-demanding one is
   * closed only if some demanding channel is fully open, and otherwise left
   * alone.
   */
  lemma DemandBranchCommands(v: Snapshot, cs: seq<ValveChannel.Snapshot>, boilerIdle: bool, defaultIndex: nat, i: nat)
    requires v.overrunIndex < |cs| && defaultIndex < |cs| && i < |cs|
    requires Step(v, cs, boilerIdle, defaultIndex).view.state == Demand
    ensures var c := Step(v, cs, boilerIdle, defaultIndex).commands[i];
      (cs[i].debounce.demand ==> c == OpenCmd)
      && (!cs[i].debounce.demand && !ValveChannel.IsOpenValve(cs[i]) ==> c == CloseCmd)
      && (!cs[i].debounce.demand && ValveChannel.IsOpenValve(cs[i]) ==>
            (c == CloseCmd <==> SomeDemandedOpen(cs)) && (c == Keep <==> !SomeDemandedOpen(cs)))
  {
    RequestOnlyWhenDemandedOpen(v, cs, boilerIdle, defaultIndex);
  }

  /**
   * Cool branch: the overrun channel is opened, and every other channel is
   * closed once the overrun channel is fully open and left alone until then.
   */
  lemma CoolBranchCommands(v: Snapshot, cs: seq<ValveChannel.Snapshot>, boilerIdle: bool, defaultIndex: nat, i: nat)
    requires v.overrunIndex < |cs| && defaultIndex < |cs| && i < |cs|
    requires Step(v, cs, boilerIdle, defaultIndex).view.state == Cool
    ensures var r := Step(v, cs, boilerIdle, defaultIndex);
      (i == r.view.overrunIndex ==> r.commands[i] == OpenCmd)
      && (i != r.view.overrunIndex ==>
            r.commands[i] == (if ValveChannel.IsOpenValve(cs[r.view.overrunIndex]) then CloseCmd else Keep))
  {
  }

  /** Idle branch: every channel is closed, whatever its state. */
  lemma IdleBranchCommands(v: Snapshot, cs: seq<ValveChannel.Snapshot>, boilerIdle: bool, defaultIndex: nat, i: nat)
    requires v.overrunIndex < |cs| && defaultIndex < |cs| && i < |cs|
    requires Step(v, cs, boilerIdle, defaultIndex).view.state == Idle
    ensures Step(v, cs, boilerIdle, defaultIndex).commands[i] == CloseCmd
    ensures !Step(v, cs, boilerIdle, defaultIndex).request
  {
  }

  /** As `class Controller` in src/Controller.h; the channels and the boiler are borrowed. */
  class Controller {
    const channels: seq<ValveChannel.Channel>
    const numChannels: nat
    const defaultOverrun: ValveChannel.Channel
    const boiler: BoilerUnit.Boiler
    var currOverrun: ValveChannel.Channel
    var currState: ControlState
    var currDemand: set<nat>
    var currOpen: set<nat>
    /** Position of `defaultOverrun` and of `currOverrun` in `channels`. */
    ghost const defaultIndex: nat
    ghost var overrunIndex: nat

    /**
     * The channel list is small and without repeats, and both overrun
     * references point into it.
     */
    ghost predicate Valid()
      reads this
    {
      numChannels == |channels| <= MaxChannels
      && (forall i, j :: 0 <= i < j < |channels| ==> channels[i] != channels[j])
      && defaultIndex < |channels| && channels[defaultIndex] == defaultOverrun
      && overrunIndex < |channels| && channels[overrunIndex] == currOverrun
    }

    ghost function View(): Snapshot
      reads this
    {
      Snapshot(currState, currDemand, currOpen, overrunIndex)
    }

    /** The channels' states, in order. */
    ghost function Views(): (vs: seq<ValveChannel.Snapshot>)
      reads this, channels
      ensures |vs| == |channels|
      ensures forall i :: 0 <= i < |channels| ==> vs[i] == channels[i].View()
    {
      seq(|channels|, i requires 0 <= i < |channels| reads channels => channels[i].View())
    }

    constructor (channels: seq<ValveChannel.Channel>, numChannels: nat, overrunChannel: ValveChannel.Channel, boiler: BoilerUnit.Boiler)
      requires numChannels == |channels| <= MaxChannels
      requires forall i, j :: 0 <= i < j < |channels| ==> channels[i] != channels[j]
      requires overrunChannel in channels
      ensures Valid()
      ensures this.channels == channels && this.boiler == boiler
      ensures defaultOverrun == overrunChannel && currOverrun == overrunChannel
      ensures currState == Idle && currDemand == {} && currOpen == {}
    {
      this.channels := channels;
      this.numChannels := numChannels;
      this.defaultOverrun := overrunChannel;
      this.boiler := boiler;
      this.currOverrun := overrunChannel;
      this.currState := Idle;
      this.currDemand := {};
      this.currOpen := {};
      ghost var k :| 0 <= k < |channels| && channels[k] == overrunChannel;
      this.defaultIndex := k;
      this.overrunIndex := k;
    }

    function State(): (r: ControlState)
      reads this
      ensures r == View().state
    {
      currState
    }

    function Demand(): (m: set<nat>)
      reads this
      ensures m == View().currDemand
    {
      currDemand
    }

    function Open(): (m: set<nat>)
      reads this
      ensures m == View().currOpen
    {
      currOpen
    }

    /** The first loop of `ms_poll()`: one bit per channel with demand, and per fully open channel. */
    method BuildMasks() returns (thisDemand: set<nat>, thisOpen: set<nat>)
      requires Valid()
      ensures thisDemand == DemandMask(Views()) && thisOpen == OpenMask(Views())
    {
      thisDemand, thisOpen := {}, {};
      for i := 0 to numChannels
        invariant forall j: nat :: j in thisDemand <==> j < i && channels[j].HasDemand()
        invariant forall j: nat :: j in thisOpen <==> j < i && channels[j].FullyOpen()
      {
        if channels[i].HasDemand() {
          thisDemand := thisDemand + {i};
        }
        if channels[i].FullyOpen() {
          thisOpen := thisOpen + {i};
        }
      }
    }

    /** The election loop: start from the default, let every channel set in `currOpen` overwrite it. */
    method ElectOverrun()
      requires Valid()
      modifies this`currOverrun, this`overrunIndex
      ensures Valid()
      ensures overrunIndex == Elect(currOpen, |channels|, defaultIndex)
    {
      currOverrun := defaultOverrun;
      overrunIndex := defaultIndex;
      for i := 0 to numChannels
        invariant overrunIndex == Elect(currOpen, i, defaultIndex)
        invariant overrunIndex < |channels| && channels[overrunIndex] == currOverrun
      {
        if i in currOpen {
          currOverrun := channels[i];
          overrunIndex := i;
        }
      }
    }

    /** The command loop of the Demand branch. */
    method CommandDemand(anyDemandedIsOpen: bool)
      requires Valid()
      modifies channels
      ensures forall j :: 0 <= j < |channels| ==>
        var c := DemandCommand(old(channels[j].View()), anyDemandedIsOpen);
        channels[j].View() == Apply(old(channels[j].View()), c)
        && channels[j].valveWrites == old(channels[j].valveWrites) + Writes(c)
    {
      for i := 0 to numChannels
        invariant forall j :: 0 <= j < |channels| ==>
          var s0 := old(channels[j].View());
          var c := DemandCommand(s0, anyDemandedIsOpen);
          channels[j].View() == (if j < i then Apply(s0, c) else s0)
          && channels[j].valveWrites == old(channels[j].valveWrites) + (if j < i then Writes(c) else [])
      {
        if channels[i].HasDemand() {
          channels[i].Open();
        } else if !channels[i].FullyOpen() {
          channels[i].Close();
        } else if anyDemandedIsOpen {
          channels[i].Close();
        }
      }
    }

    /** The Cool branch's commands: open the overrun channel, and once it is fully open close all the others. */
    method CommandCool()
      requires Valid()
      modifies channels
      ensures forall j :: 0 <= j < |channels| ==>
        var c := CoolCommand(j, overrunIndex, old(currOverrun.FullyOpen()));
        channels[j].View() == Apply(old(channels[j].View()), c)
        && channels[j].valveWrites == old(channels[j].valveWrites) + Writes(c)
    {
      ghost var ov := overrunIndex;
      ghost var wasOpen := currOverrun.FullyOpen();
      currOverrun.Open();
      if currOverrun.FullyOpen() {
        for i := 0 to numChannels
          invariant forall j :: 0 <= j < |channels| ==>
            var s0 := old(channels[j].View());
            var c := CoolCommand(j, ov, wasOpen);
            channels[j].View() == (if j < i || j == ov then Apply(s0, c) else s0)
            && channels[j].valveWrites == old(channels[j].valveWrites) + (if j < i || j == ov then Writes(c) else [])
        {
          if channels[i] != currOverrun {
            channels[i].Close();
          }
        }
      }
    }

    /** The Idle branch's commands: close every channel, whatever its state. */
    method CommandIdle()
      requires Valid()
      modifies channels
      ensures forall j :: 0 <= j < |channels| ==>
        channels[j].View() == Apply(old(channels[j].View()), CloseCmd)
        && channels[j].valveWrites == old(channels[j].valveWrites) + Writes(CloseCmd)
    {
      for i := 0 to numChannels
        invariant forall j :: 0 <= j < |channels| ==>
          channels[j].View() == (if j < i then Apply(old(channels[j].View()), CloseCmd) else old(channels[j].View()))
          && channels[j].valveWrites == old(channels[j].valveWrites) + (if j < i then Writes(CloseCmd) else [])
      {
        channels[i].Close();
      }
    }

    /** The three-branch arbitration at the end of `ms_poll()`, on the masks already stored. */
    method Arbitrate()
      requires Valid()
      modifies this`currState, channels, boiler
      ensures Valid()
      ensures currState == Branch(currDemand, old(boiler.IsIdle()))
      ensures boiler.View() == BoilerUnit.SetDemand(old(boiler.View()), currState == ControlState.Demand && currDemand * currOpen != {})
      ensures boiler.fireWrites == old(boiler.fireWrites)
      ensures forall i :: 0 <= i < |channels| ==>
        var c := CommandFor(currState, old(channels[i].View()), i, currDemand * currOpen != {}, overrunIndex, old(currOverrun.FullyOpen()));
        channels[i].View() == Apply(old(channels[i].View()), c)
        && channels[i].valveWrites == old(channels[i].valveWrites) + Writes(c)
    {
      var anyDemandedIsOpen := currDemand * currOpen;

      if currDemand != {} {
        currState := ControlState.Demand;
        boiler.Demand(anyDemandedIsOpen != {});
        CommandDemand(anyDemandedIsOpen != {});
      } else if !boiler.IsIdle() {
        currState := Cool;
        boiler.Demand(false);
        CommandCool();
      } else {
        currState := Idle;
        boiler.Demand(false);
        CommandIdle();
      }
    }

    /**
     * The first part of `ms_poll()`: build this poll's masks, re-elect the
     * overrun channel from the stored (previous) open mask if demand has just
     * gone, then store the new masks.
     */
    method Observe()
      requires Valid()
      modifies this`currDemand, this`currOpen, this`currOverrun, this`overrunIndex
      ensures Valid()
      ensures currDemand == DemandMask(Views()) && currOpen == OpenMask(Views())
      ensures overrunIndex ==
        if currDemand == {} && old(currDemand) != {} then Elect(old(currOpen), |channels|, defaultIndex)
        else old(overrunIndex)
    {
      var thisDemand, thisOpen := BuildMasks();

      if thisDemand == {} && currDemand != {} {
        ElectOverrun();
      }

      currDemand := thisDemand;
      currOpen := thisOpen;
    }

    /**
     * `ms_poll()`: the new controller state, every channel's new state and
     * valve writes, and the boiler request are those `Step` decides from the
     * state before the call.
     */
    method MsPoll()
      requires Valid()
      modifies this, channels, boiler
      ensures Valid()
      ensures View() == Step(old(View()), old(Views()), old(boiler.IsIdle()), defaultIndex).view
      ensures var r := Step(old(View()), old(Views()), old(boiler.IsIdle()), defaultIndex);
        boiler.View() == BoilerUnit.SetDemand(old(boiler.View()), r.request)
        && boiler.fireWrites == old(boiler.fireWrites)
      ensures var r := Step(old(View()), old(Views()), old(boiler.IsIdle()), defaultIndex);
        forall i :: 0 <= i < |channels| ==>
          channels[i].View() == Apply(old(channels[i].View()), r.commands[i])
          && channels[i].valveWrites == old(channels[i].valveWrites) + Writes(r.commands[i])
    {
      ghost var cs := Views();
      ghost var r := Step(View(), cs, boiler.IsIdle(), defaultIndex);
      Observe();
      assert Views() == cs;
      assert currDemand == r.view.currDemand && currOpen == r.view.currOpen && overrunIndex == r.view.overrunIndex;
      Arbitrate();
      assert currState == r.view.state;
    }
  }
}
