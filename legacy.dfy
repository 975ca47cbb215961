/**
 * The earlier all-in-one controller (src/main.cpp): its own `Channel`
 * class driven by two count-up counters, a fixed overrun channel, and the
 * boiler logic written inline in `loop()` over global counters.
 *
 * `digitalRead` of a channel's input becomes an element of `Tick`'s
 * `inputs`; `digitalWrite` to a valve pin and to the boiler pin become the
 * traces `valveWrites` and `boilerPinWrites`. LED, status pattern, serial
 * and watchdog output are not modelled.
 */
module LegacyMain {
  import Debounce
  import Signals

  /** Polls the valve takes to open, and to close. */
  const OpenTimeMs: nat := 8000
  const CloseTimeMs: nat := 4000

  /** Polls of overrun after the boiler last fired: five minutes. */
  const OverrunTimeMs: nat := 300000

  /** The underrun delay armed when the boiler request rises. */
  const UnderrunTimeMs: nat := 6000

  // ------------------------------------------------------------------
  // roll_right and bits_to_tags

  /** `roll_right`: `(x >> 1) | (x << 31)`, a one-bit right rotation. */
  function RollRight(x: bv32): (r: bv32)
    ensures r == x.RotateRight(1)
  {
    (x >> 1) | (x << 31)
  }

  /** `k` applications of `roll_right`. */
  function RollN(x: bv32, k: nat): bv32 {
    if k == 0 then x else RollRight(RollN(x, k - 1))
  }

  lemma {:induction false} RollNAdd(x: bv32, a: nat, b: nat)
    ensures RollN(x, a + b) == RollN(RollN(x, a), b)
  {
    if b > 0 {
      RollNAdd(x, a, b - 1);
    }
  }

  lemma RollFour(x: bv32)
    ensures RollN(x, 4) == (x >> 4) | (x << 28)
  {
    assert RollN(x, 1) == RollRight(x);
    assert RollN(x, 2) == RollRight(RollN(x, 1));
    assert RollN(x, 3) == RollRight(RollN(x, 2));
    assert RollN(x, 4) == RollRight(RollN(x, 3));
  }

  /** Thirty-two applications of `roll_right` give back the original pattern. */
  lemma RollPeriod(x: bv32)
    ensures RollN(x, 32) == x
  {
    RollFour(x);
    RollNAdd(x, 4, 4); RollFour(RollN(x, 4));
    RollNAdd(x, 8, 4); RollFour(RollN(x, 8));
    RollNAdd(x, 12, 4); RollFour(RollN(x, 12));
    RollNAdd(x, 16, 4); RollFour(RollN(x, 16));
    RollNAdd(x, 20, 4); RollFour(RollN(x, 20));
    RollNAdd(x, 24, 4); RollFour(RollN(x, 24));
    RollNAdd(x, 28, 4); RollFour(RollN(x, 28));
  }

  /** The four tag characters of `bits_to_tags`: `W`, `1`, `2`, `3` for bits 0 to 3, `-` for a clear bit. */
  function Tags(x: bv32): (t: string)
    ensures |t| == 4
  {
    [if x & 1 != 0 then 'W' else '-',
     if x & 2 != 0 then '1' else '-',
     if x & 4 != 0 then '2' else '-',
     if x & 8 != 0 then '3' else '-']
  }

  /** Reads four tag characters back as the bits they stand for. */
  function TagsToBits(t: string): bv32
    requires |t| == 4
  {
    (if t[0] != '-' then 1 else 0)
    | (if t[1] != '-' then 2 else 0)
    | (if t[2] != '-' then 4 else 0)
    | (if t[3] != '-' then 8 else 0)
  }

  /** The tags record exactly the low four bits of the mask. */
  lemma TagsRoundTrip(x: bv32)
    ensures TagsToBits(Tags(x)) == x & 0xF
  {
  }

  /** `bits_to_tags(buf, x)` with `buf` at position `at` of `a`: writes four tags and returns 4. */
  method BitsToTags(a: array<char>, at: nat, x: bv32) returns (n: nat)
    requires at + 4 <= a.Length
    modifies a
    ensures n == 4
    ensures a[at..at + n] == Tags(x)
    ensures a[..at] == old(a[..at]) && a[at + n..] == old(a[at + 4..])
  {
    a[at] := if x & 1 != 0 then 'W' else '-';
    a[at + 1] := if x & 2 != 0 then '1' else '-';
    a[at + 2] := if x & 4 != 0 then '2' else '-';
    a[at + 3] := if x & 8 != 0 then '3' else '-';
    n := 4;
  }

  // ------------------------------------------------------------------
  // The legacy Channel

  /** The part of a legacy channel its polls and commands change. */
  datatype ChannelSnapshot = ChannelSnapshot(debounce: Debounce.Debouncer, openCount: nat, closeCount: nat)

  const InitialChannel: ChannelSnapshot := ChannelSnapshot(Debounce.Quiet, 0, 0)

  /** Both counters in range, and at most one of them running or finished. */
  predicate ChannelWellFormed(s: ChannelSnapshot) {
    Debounce.Valid(s.debounce)
    && s.openCount <= OpenTimeMs && s.closeCount <= CloseTimeMs
    && (s.openCount == 0 || s.closeCount == 0)
  }

  /** `is_open()`: the open counter has run all the way up. */
  predicate ChannelOpen(s: ChannelSnapshot) {
    s.openCount == OpenTimeMs
  }

  /**
   * `Channel::poll` without its LED writes: the debounce, then one step of
   * whichever counter is running (opening first).
   */
  function ChannelPoll(s: ChannelSnapshot, input: bool): (r: ChannelSnapshot)
    ensures ChannelWellFormed(s) ==> ChannelWellFormed(r)
    ensures r.debounce == Debounce.Sample(s.debounce, input)
    ensures r.openCount == s.openCount || (0 < s.openCount < OpenTimeMs && r.openCount == s.openCount + 1)
    ensures r.closeCount == s.closeCount || (0 < s.closeCount < CloseTimeMs && r.closeCount == s.closeCount + 1)
    ensures r.openCount == s.openCount || r.closeCount == s.closeCount
    ensures 0 < s.openCount < OpenTimeMs ==> r.openCount == s.openCount + 1 && r.closeCount == s.closeCount
    ensures !(0 < s.openCount < OpenTimeMs) && 0 < s.closeCount < CloseTimeMs ==>
              r.openCount == s.openCount && r.closeCount == s.closeCount + 1
  {
    var d := Debounce.Sample(s.debounce, input);
    if s.openCount > 0 && s.openCount < OpenTimeMs then ChannelSnapshot(d, s.openCount + 1, s.closeCount)
    else if s.closeCount > 0 && s.closeCount < CloseTimeMs then ChannelSnapshot(d, s.openCount, s.closeCount + 1)
    else ChannelSnapshot(d, s.openCount, s.closeCount)
  }

  /** `open()`: start the open counter if it is at rest, and stop the close counter. */
  function ChannelOpenCmd(s: ChannelSnapshot): (r: ChannelSnapshot)
    ensures ChannelWellFormed(s) ==> ChannelWellFormed(r)
    ensures r.debounce == s.debounce && r.closeCount == 0
    ensures s.openCount == 0 ==> r.openCount == 1
    ensures s.openCount != 0 ==> r.openCount == s.openCount
  {
    s.(openCount := if s.openCount == 0 then 1 else s.openCount, closeCount := 0)
  }

  /** `close()`: stop the open counter, and start the close counter if it is at rest. */
  function ChannelCloseCmd(s: ChannelSnapshot): (r: ChannelSnapshot)
    ensures ChannelWellFormed(s) ==> ChannelWellFormed(r)
    ensures r.debounce == s.debounce && r.openCount == 0
    ensures s.closeCount == 0 ==> r.closeCount == 1
    ensures s.closeCount != 0 ==> r.closeCount == s.closeCount
  {
    s.(openCount := 0, closeCount := if s.closeCount == 0 then 1 else s.closeCount)
  }

  /** The legacy channel after one poll per element of `inputs`. */
  function ChannelRun(s: ChannelSnapshot, inputs: seq<bool>): ChannelSnapshot
    decreases |inputs|
  {
    if |inputs| == 0 then s
    else ChannelPoll(ChannelRun(s, inputs[..|inputs| - 1]), inputs[|inputs| - 1])
  }

  /** With the open counter started and no `close()`, `k` polls add `k` to it until it reaches 8000, where it stays. */
  lemma {:induction false} OpenCountRun(s: ChannelSnapshot, inputs: seq<bool>)
    requires 0 < s.openCount <= OpenTimeMs
    ensures ChannelRun(s, inputs).openCount ==
      if s.openCount + |inputs| <= OpenTimeMs then s.openCount + |inputs| else OpenTimeMs
    decreases |inputs|
  {
    if |inputs| > 0 {
      OpenCountRun(s, inputs[..|inputs| - 1]);
    }
  }

  /**
   * After `open()` from rest, `is_open()` holds exactly from the 7999th
   * poll on: the counter starts at 1 and climbs to 8000.
   */
  lemma OpenTravel(s: ChannelSnapshot, inputs: seq<bool>)
    requires s.openCount == 0
    ensures ChannelOpen(ChannelRun(ChannelOpenCmd(s), inputs)) <==> |inputs| >= OpenTimeMs - 1
  {
    OpenCountRun(ChannelOpenCmd(s), inputs);
  }

  /** `is_open()` is not changed by `open()`. */
  lemma OpenKeepsOpenness(s: ChannelSnapshot)
    ensures ChannelOpen(ChannelOpenCmd(s)) == ChannelOpen(s)
  {
  }

  /** As the `Channel` class of src/main.cpp, without its pins and LED. */
  class Channel {
    var demandCount: nat
    var demand: bool
    var openCount: nat
    var closeCount: nat
    /** Every value written to the valve pin, oldest first. */
    var valveWrites: seq<bool>

    function View(): ChannelSnapshot
      reads this
    {
      ChannelSnapshot(Debounce.Debouncer(demandCount, demand), openCount, closeCount)
    }

    predicate Valid()
      reads this
    {
      ChannelWellFormed(View())
    }

    constructor ()
      ensures View() == InitialChannel && valveWrites == []
      ensures Valid()
    {
      demandCount := 0;
      demand := false;
      openCount := 0;
      closeCount := 0;
      valveWrites := [];
    }

    function HasDemand(): (r: bool)
      reads this
      ensures r == View().debounce.demand
    {
      demand
    }

    function IsOpen(): (r: bool)
      reads this
      ensures r == ChannelOpen(View())
    {
      openCount == OpenTimeMs
    }

    /** `poll()`, with `input` the value `digitalRead` returned. */
    method Poll(input: bool)
      modifies this
      ensures View() == ChannelPoll(old(View()), input)
      ensures valveWrites == old(valveWrites)
    {
      if input && demandCount < Debounce.DemandCountMax {
        demandCount := demandCount + 1;
      } else if !input && demandCount > 0 {
        demandCount := demandCount / 2;
      }

      if demandCount == Debounce.DemandCountMax {
        demand := true;
      } else if demandCount == 0 {
        demand := false;
      }

      if openCount > 0 && openCount < OpenTimeMs {
        openCount := openCount + 1;
      } else if closeCount > 0 && closeCount < CloseTimeMs {
        closeCount := closeCount + 1;
      }
    }

    /** `open()`: write HIGH to the valve pin, start opening from rest, stop closing. */
    method Open()
      modifies this
      ensures View() == ChannelOpenCmd(old(View()))
      ensures valveWrites == old(valveWrites) + [true]
    {
      valveWrites := valveWrites + [true];
      if openCount == 0 {
        openCount := 1;
      }
      closeCount := 0;
    }

    /** `close()`: write LOW to the valve pin, stop opening, start closing from rest. */
    method Close()
      modifies this
      ensures View() == ChannelCloseCmd(old(View()))
      ensures valveWrites == old(valveWrites) + [false]
    {
      valveWrites := valveWrites + [false];
      openCount := 0;
      if closeCount == 0 {
        closeCount := 1;
      }
    }
  }

  // ------------------------------------------------------------------
  // The decision part of loop()
  //
  // The masks, commands and branch below repeat the shape of Arbiter's on
  // purpose: src/main.cpp is a separate program with its own channel type,
  // counters and overrun rule, and sharing one definition would tie the two.

  datatype LoopState = Idle | Demand | Overrun

  /** What `loop()` does to one channel after polling it. */
  datatype Command = Keep | OpenCmd | CloseCmd

  /** The globals and static locals `loop()` keeps between ticks (logging ones aside). */
  datatype Globals = Globals(state: LoopState, overrunCounterMs: nat, underrunCounterMs: nat, lastBoilerDemand: bool)

  const InitialGlobals: Globals := Globals(Idle, 0, 0, false)

  function ApplyCommand(s: ChannelSnapshot, c: Command): ChannelSnapshot {
    match c
    case Keep => s
    case OpenCmd => ChannelOpenCmd(s)
    case CloseCmd => ChannelCloseCmd(s)
  }

  function CommandWrites(c: Command): seq<bool> {
    match c
    case Keep => []
    case OpenCmd => [true]
    case CloseCmd => [false]
  }

  /** The branch: demand if any channel demands, else overrun while the overrun counter runs, else idle. */
  function Branch(thisDemand: set<nat>, overrunCounterMs: nat): LoopState {
    if thisDemand != {} then Demand
    else if overrunCounterMs > 0 then Overrun
    else Idle
  }

  /** The command `loop()` gives channel `i` in branch `state`. */
  function CommandFor(state: LoopState, s: ChannelSnapshot, i: nat, anyDemandedIsOpen: bool, overrun: nat, overrunIsOpen: bool): Command {
    match state
    case Demand =>
      if s.debounce.demand then OpenCmd
      else if !ChannelOpen(s) then CloseCmd
      else if anyDemandedIsOpen then CloseCmd
      else Keep
    case Overrun =>
      if i == overrun then OpenCmd
      else if overrunIsOpen then CloseCmd
      else Keep
    case Idle => CloseCmd
  }

  /** `this_demand` of the polled channels, as the set of its 1-bit positions. */
  function DemandMask(cs: seq<ChannelSnapshot>): (m: set<nat>)
    ensures forall i: nat :: i in m <==> i < |cs| && cs[i].debounce.demand
  {
    set i: nat | i < |cs| && cs[i].debounce.demand
  }

  /** `this_open` of the polled channels. */
  function OpenMask(cs: seq<ChannelSnapshot>): (m: set<nat>)
    ensures forall i: nat :: i in m <==> i < |cs| && ChannelOpen(cs[i])
  {
    set i: nat | i < |cs| && ChannelOpen(cs[i])
  }

  /**
   * The boiler part of `loop()`: arm the underrun delay when the request
   * rises; while requested, count the delay down and once it is spent drive
   * the pin HIGH and re-arm the overrun; while not requested drive the pin
   * LOW and count the overrun down. The second result is what was written
   * to the boiler pin this tick (nothing while the delay counts down).
   */
  function BoilerUpdate(g: Globals, boilerDemand: bool): (r: (Globals, seq<bool>))
    ensures r.0.state == g.state && r.0.lastBoilerDemand == boilerDemand
    ensures r.1 == [true] <==> boilerDemand && (if !g.lastBoilerDemand then UnderrunTimeMs else g.underrunCounterMs) == 0
    ensures r.1 == [true] ==> r.0.overrunCounterMs == OverrunTimeMs
    ensures !boilerDemand ==> r.1 == [false]
    ensures r.1 != [true] ==> r.0.overrunCounterMs == g.overrunCounterMs || r.0.overrunCounterMs + 1 == g.overrunCounterMs
    ensures boilerDemand && !g.lastBoilerDemand ==> r.0.underrunCounterMs == UnderrunTimeMs - 1 && r.1 == []
    ensures !(boilerDemand && !g.lastBoilerDemand) ==>
              r.0.underrunCounterMs == g.underrunCounterMs || r.0.underrunCounterMs + 1 == g.underrunCounterMs
  {
    var underrun := if boilerDemand != g.lastBoilerDemand && boilerDemand then UnderrunTimeMs else g.underrunCounterMs;
    var g1 := g.(lastBoilerDemand := boilerDemand, underrunCounterMs := underrun);
    if boilerDemand then
      if underrun != 0 then (g1.(underrunCounterMs := underrun - 1), [])
      else (g1.(overrunCounterMs := OverrunTimeMs), [true])
    else if g.overrunCounterMs > 0 then (g1.(overrunCounterMs := g.overrunCounterMs - 1), [false])
    else (g1, [false])
  }

  /** The boiler part of `loop()` over one tick per element of `demands`, with the boiler pin writes of all of them. */
  function BoilerRun(g: Globals, demands: seq<bool>): (Globals, seq<bool>)
    decreases |demands|
  {
    if |demands| == 0 then (g, [])
    else
      var prev := BoilerRun(g, demands[..|demands| - 1]);
      var next := BoilerUpdate(prev.0, demands[|demands| - 1]);
      (next.0, prev.1 + next.1)
  }

  /** For the first 6000 ticks after the request rises, the boiler pin is not written and the delay counts down. */
  lemma {:induction false} UnderrunSilence(g: Globals, k: nat)
    requires !g.lastBoilerDemand && 1 <= k <= UnderrunTimeMs
    ensures BoilerRun(g, Signals.Held(true, k)).1 == []
    ensures BoilerRun(g, Signals.Held(true, k)).0.underrunCounterMs == UnderrunTimeMs - k
    ensures BoilerRun(g, Signals.Held(true, k)).0.lastBoilerDemand
  {
    Signals.HeldPrefix(true, k - 1);
    if k > 1 {
      UnderrunSilence(g, k - 1);
    }
  }

  /** From the 6001st tick of a held request on, every tick drives the boiler pin HIGH and re-arms the overrun. */
  lemma {:induction false} FiringRun(g: Globals, k: nat)
    requires !g.lastBoilerDemand && k > UnderrunTimeMs
    ensures BoilerRun(g, Signals.Held(true, k)).1 == Signals.Held(true, k - UnderrunTimeMs)
    ensures BoilerRun(g, Signals.Held(true, k)).0.underrunCounterMs == 0
    ensures BoilerRun(g, Signals.Held(true, k)).0.overrunCounterMs == OverrunTimeMs
    ensures BoilerRun(g, Signals.Held(true, k)).0.lastBoilerDemand
  {
    Signals.HeldPrefix(true, k - 1);
    if k - 1 > UnderrunTimeMs {
      FiringRun(g, k - 1);
      Signals.HeldPrefix(true, k - 1 - UnderrunTimeMs);
    } else {
      UnderrunSilence(g, k - 1);
    }
  }

  /**
   * A request that rises and is then held keeps the boiler pin silent for
   * exactly 6000 ticks and drives it HIGH on every tick after that.
   */
  lemma UnderrunDuration(g: Globals, k: nat)
    requires !g.lastBoilerDemand && k >= 1
    ensures BoilerRun(g, Signals.Held(true, k)).1 ==
      if k <= UnderrunTimeMs then [] else Signals.Held(true, k - UnderrunTimeMs)
  {
    if k <= UnderrunTimeMs {
      UnderrunSilence(g, k);
    } else {
      FiringRun(g, k);
    }
  }

  /** Every channel polled once, with its own input. */
  function PollAll(cs: seq<ChannelSnapshot>, inputs: seq<bool>): (ps: seq<ChannelSnapshot>)
    requires |inputs| == |cs|
    ensures |ps| == |cs|
    ensures forall i :: 0 <= i < |cs| ==> ps[i] == ChannelPoll(cs[i], inputs[i])
  {
    seq(|cs|, i requires 0 <= i < |cs| => ChannelPoll(cs[i], inputs[i]))
  }

  /** The result of one tick of `loop()`. */
  datatype TickOutcome = TickOutcome(globals: Globals, boilerDemand: bool, commands: seq<Command>, pinWrites: seq<bool>)

  /**
   * One tick of `loop()` after its channels were polled into `cs`, with the
   * fixed overrun channel at index `overrun`.
   */
  function LoopStep(g: Globals, cs: seq<ChannelSnapshot>, overrun: nat): (r: TickOutcome)
    requires overrun < |cs|
    ensures |r.commands| == |cs|
    ensures r.globals.state == Branch(DemandMask(cs), g.overrunCounterMs)
    ensures r.boilerDemand == (r.globals.state == Demand && DemandMask(cs) * OpenMask(cs) != {})
    ensures forall i :: 0 <= i < |cs| ==>
      r.commands[i] == CommandFor(r.globals.state, cs[i], i, DemandMask(cs) * OpenMask(cs) != {}, overrun, ChannelOpen(cs[overrun]))
  {
    var thisDemand := DemandMask(cs);
    var anyDemandedIsOpen := thisDemand * OpenMask(cs) != {};
    var state := Branch(thisDemand, g.overrunCounterMs);
    var boilerDemand := state == Demand && anyDemandedIsOpen;
    var (g2, writes) := BoilerUpdate(g.(state := state), boilerDemand);
    TickOutcome(g2, boilerDemand,
      seq(|cs|, i requires 0 <= i < |cs| => CommandFor(state, cs[i], i, anyDemandedIsOpen, overrun, ChannelOpen(cs[overrun]))),
      writes)
  }

  /**
   * The boiler is requested only in the demand branch and only when some
   * polled channel both demands and is fully open; the overrun and idle
   * branches never request it.
   */
  lemma BoilerDemandOnlyWhenDemandedOpen(g: Globals, cs: seq<ChannelSnapshot>, overrun: nat)
    requires overrun < |cs|
    ensures var r := LoopStep(g, cs, overrun);
      (r.boilerDemand <==> r.globals.state == Demand && exists i :: 0 <= i < |cs| && cs[i].debounce.demand && ChannelOpen(cs[i]))
      && (r.globals.state != Demand ==> !r.boilerDemand && r.pinWrites == [false])
  {
    var r := LoopStep(g, cs, overrun);
    if exists i :: 0 <= i < |cs| && cs[i].debounce.demand && ChannelOpen(cs[i]) {
      var i :| 0 <= i < |cs| && cs[i].debounce.demand && ChannelOpen(cs[i]);
      assert i in DemandMask(cs) * OpenMask(cs);
    }
    if DemandMask(cs) * OpenMask(cs) != {} {
      var i :| i in DemandMask(cs) * OpenMask(cs);
      assert cs[i].debounce.demand && ChannelOpen(cs[i]);
    }
  }

  /**
   * The boiler pin goes HIGH only on a requested tick whose underrun delay is
   * already spent, and that tick re-arms the overrun to 300000; the
   * underrun delay is armed to 6000 only on the tick the request rises.
   */
  lemma BoilerPinRule(g: Globals, cs: seq<ChannelSnapshot>, overrun: nat)
    requires overrun < |cs|
    ensures var r := LoopStep(g, cs, overrun);
      (r.pinWrites == [true] ==> r.boilerDemand && g.lastBoilerDemand && g.underrunCounterMs == 0
                                 && r.globals.overrunCounterMs == OverrunTimeMs)
      && (r.globals.underrunCounterMs > g.underrunCounterMs ==> r.boilerDemand && !g.lastBoilerDemand)
  {
  }

  /** The legacy controller's globals and its four channels, with the fixed overrun channel. */
  class Loop {
    const channels: seq<Channel>
    const overrunCh: Channel
    ghost const overrunIndex: nat
    ghost const position: map<Channel, nat>
    var state: LoopState
    var overrunCounterMs: nat
    var underrunCounterMs: nat
    var lastBoilerDemand: bool
    /** Every value written to the boiler pin, oldest first. */
    var boilerPinWrites: seq<bool>

    ghost predicate Valid()
      reads this
    {
      (forall i :: 0 <= i < |channels| ==> channels[i] in position && position[channels[i]] == i)
      && overrunIndex < |channels| && channels[overrunIndex] == overrunCh
    }

    function View(): Globals
      reads this
    {
      Globals(state, overrunCounterMs, underrunCounterMs, lastBoilerDemand)
    }

    ghost function Views(): (vs: seq<ChannelSnapshot>)
      reads this, channels
      ensures |vs| == |channels|
      ensures forall i :: 0 <= i < |channels| ==> vs[i] == channels[i].View()
    {
      seq(|channels|, i requires 0 <= i < |channels| reads channels => channels[i].View())
    }

    /** The channels `hw`, `ch1`, `ch2`, `ch3`, with `ch3` taking the overrun. */
    constructor (hw: Channel, ch1: Channel, ch2: Channel, ch3: Channel)
      requires hw != ch1 && hw != ch2 && hw != ch3 && ch1 != ch2 && ch1 != ch3 && ch2 != ch3
      ensures Valid()
      ensures channels == [hw, ch1, ch2, ch3] && overrunCh == ch3
      ensures View() == InitialGlobals && boilerPinWrites == []
    {
      channels := [hw, ch1, ch2, ch3];
      overrunCh := ch3;
      overrunIndex := 3;
      position := map[hw := 0, ch1 := 1, ch2 := 2, ch3 := 3];
      state := Idle;
      overrunCounterMs := 0;
      underrunCounterMs := 0;
      lastBoilerDemand := false;
      boilerPinWrites := [];
    }

    /**
     * The first loop of `loop()`: poll every channel with its input and
     * record its demand and open bits. The bits are read in a second pass;
     * a poll changes only its own channel, so they are the bits the
     * interleaved loop reads.
     */
    method PollChannels(inputs: seq<bool>) returns (thisDemand: set<nat>, thisOpen: set<nat>)
      requires Valid() && |inputs| == |channels|
      modifies channels
      ensures forall j :: 0 <= j < |channels| ==>
        channels[j].View() == ChannelPoll(old(channels[j].View()), inputs[j])
        && channels[j].valveWrites == old(channels[j].valveWrites)
      ensures forall j: nat :: j in thisDemand <==> j < |channels| && channels[j].HasDemand()
      ensures forall j: nat :: j in thisOpen <==> j < |channels| && channels[j].IsOpen()
    {
      for i := 0 to |channels|
        invariant forall j :: 0 <= j < |channels| ==>
          channels[j].View() == (if j < i then ChannelPoll(old(channels[j].View()), inputs[j]) else old(channels[j].View()))
          && channels[j].valveWrites == old(channels[j].valveWrites)
      {
        channels[i].Poll(inputs[i]);
      }
      thisDemand, thisOpen := {}, {};
      for i := 0 to |channels|
        invariant forall j: nat :: j in thisDemand <==> j < i && channels[j].HasDemand()
        invariant forall j: nat :: j in thisOpen <==> j < i && channels[j].IsOpen()
      {
        if channels[i].HasDemand() {
          thisDemand := thisDemand + {i};
        }
        if channels[i].IsOpen() {
          thisOpen := thisOpen + {i};
        }
      }
    }

    /** The command loop of the demand branch. */
    method CommandDemand(anyDemandedIsOpen: bool)
      requires Valid()
      modifies channels
      ensures forall j :: 0 <= j < |channels| ==>
        var c := CommandFor(Demand, old(channels[j].View()), j, anyDemandedIsOpen, overrunIndex, false);
        channels[j].View() == ApplyCommand(old(channels[j].View()), c)
        && channels[j].valveWrites == old(channels[j].valveWrites) + CommandWrites(c)
    {
      for i := 0 to |channels|
        invariant forall j :: 0 <= j < |channels| ==>
          var s0 := old(channels[j].View());
          var c := CommandFor(Demand, s0, j, anyDemandedIsOpen, overrunIndex, false);
          channels[j].View() == (if j < i then ApplyCommand(s0, c) else s0)
          && channels[j].valveWrites == old(channels[j].valveWrites) + (if j < i then CommandWrites(c) else [])
      {
        if channels[i].HasDemand() {
          channels[i].Open();
        } else if !channels[i].IsOpen() {
          channels[i].Close();
        } else if anyDemandedIsOpen {
          channels[i].Close();
        }
      }
    }

    /** The overrun branch: open the overrun channel, and once it is open close all the others. */
    method CommandOverrun()
      requires Valid()
      modifies channels
      ensures forall j :: 0 <= j < |channels| ==>
        var c := CommandFor(Overrun, old(channels[j].View()), j, false, overrunIndex, old(overrunCh.IsOpen()));
        channels[j].View() == ApplyCommand(old(channels[j].View()), c)
        && channels[j].valveWrites == old(channels[j].valveWrites) + CommandWrites(c)
    {
      ghost var wasOpen := overrunCh.IsOpen();
      overrunCh.Open();
      if overrunCh.IsOpen() {
        for i := 0 to |channels|
          invariant forall j :: 0 <= j < |channels| ==>
            var s0 := old(channels[j].View());
            var c := CommandFor(Overrun, s0, j, false, overrunIndex, wasOpen);
            channels[j].View() == (if j < i || j == overrunIndex then ApplyCommand(s0, c) else s0)
            && channels[j].valveWrites == old(channels[j].valveWrites)
                 + (if j < i || j == overrunIndex then CommandWrites(c) else [])
        {
          if channels[i] != overrunCh {
            channels[i].Close();
          }
        }
      }
    }

    /** The idle branch: close every channel. */
    method CommandIdle()
      requires Valid()
      modifies channels
      ensures forall j :: 0 <= j < |channels| ==>
        channels[j].View() == ApplyCommand(old(channels[j].View()), CloseCmd)
        && channels[j].valveWrites == old(channels[j].valveWrites) + CommandWrites(CloseCmd)
    {
      for i := 0 to |channels|
        invariant forall j :: 0 <= j < |channels| ==>
          channels[j].View() == (if j < i then ApplyCommand(old(channels[j].View()), CloseCmd) else old(channels[j].View()))
          && channels[j].valveWrites == old(channels[j].valveWrites) + (if j < i then CommandWrites(CloseCmd) else [])
      {
        channels[i].Close();
      }
    }

    /** The three-branch choice of `loop()` and its command loops, on the polled channels. */
    method Arbitrate(thisDemand: set<nat>, thisOpen: set<nat>) returns (boilerDemand: bool)
      requires Valid()
      requires forall j: nat :: j in thisDemand <==> j < |channels| && channels[j].HasDemand()
      requires forall j: nat :: j in thisOpen <==> j < |channels| && channels[j].IsOpen()
      modifies this`state, channels
      ensures var r := LoopStep(old(View()), old(Views()), overrunIndex);
        state == r.globals.state && boilerDemand == r.boilerDemand
        && forall i :: 0 <= i < |channels| ==>
             channels[i].View() == ApplyCommand(old(channels[i].View()), r.commands[i])
             && channels[i].valveWrites == old(channels[i].valveWrites) + CommandWrites(r.commands[i])
    {
      ghost var cs := Views();
      assert thisDemand == DemandMask(cs) && thisOpen == OpenMask(cs);
      var anyDemandedIsOpen := thisDemand * thisOpen != {};
      if thisDemand != {} {
        state := Demand;
        boilerDemand := anyDemandedIsOpen;
        CommandDemand(anyDemandedIsOpen);
      } else if overrunCounterMs > 0 {
        state := Overrun;
        boilerDemand := false;
        CommandOverrun();
      } else {
        state := Idle;
        boilerDemand := false;
        CommandIdle();
      }
    }

    /** The boiler part of `loop()`. */
    method DriveBoiler(boilerDemand: bool)
      modifies this`overrunCounterMs, this`underrunCounterMs, this`lastBoilerDemand, this`boilerPinWrites
      ensures var r := BoilerUpdate(old(View()), boilerDemand);
        View() == r.0 && boilerPinWrites == old(boilerPinWrites) + r.1
    {
      if boilerDemand != lastBoilerDemand {
        if boilerDemand {
          underrunCounterMs := UnderrunTimeMs;
        }
      }
      lastBoilerDemand := boilerDemand;

      if boilerDemand {
        if underrunCounterMs != 0 {
          underrunCounterMs := underrunCounterMs - 1;
        } else {
          boilerPinWrites := boilerPinWrites + [true];
          overrunCounterMs := OverrunTimeMs;
        }
      } else if overrunCounterMs > 0 {
        boilerPinWrites := boilerPinWrites + [false];
        overrunCounterMs := overrunCounterMs - 1;
      } else {
        boilerPinWrites := boilerPinWrites + [false];
      }
    }

    /**
     * One tick of `loop()` (lines 205 to 317): every channel is polled with
     * its input, then commanded, and the globals and boiler pin follow
     * `LoopStep` on the polled channels.
     */
    method Tick(inputs: seq<bool>)
      requires Valid() && |inputs| == |channels|
      modifies this, channels
      ensures Valid()
      ensures var polled := PollAll(old(Views()), inputs);
        var r := LoopStep(old(View()), polled, overrunIndex);
        View() == r.globals && boilerPinWrites == old(boilerPinWrites) + r.pinWrites
      ensures var polled := PollAll(old(Views()), inputs);
        var r := LoopStep(old(View()), polled, overrunIndex);
        forall i :: 0 <= i < |channels| ==>
          channels[i].View() == ApplyCommand(polled[i], r.commands[i])
          && channels[i].valveWrites == old(channels[i].valveWrites) + CommandWrites(r.commands[i])
    {
      ghost var before := Views();
      var thisDemand, thisOpen := PollChannels(inputs);
      assert Views() == PollAll(before, inputs);
      var boilerDemand := Arbitrate(thisDemand, thisOpen);
      DriveBoiler(boilerDemand);
    }
  }
}
