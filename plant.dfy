/**
 * A composed millisecond tick of the header-file classes: every channel is
 * polled with its input, then the controller polls, then the boiler polls.
 * The headers leave this ordering to their caller; it is the assumption
 * this module is built on.
 */
module Plant {
  import ValveChannel
  import BoilerUnit
  import Arbiter

  /** The channels, the controller and the boiler together. */
  datatype World = World(channels: seq<ValveChannel.Snapshot>, controller: Arbiter.Snapshot, boiler: BoilerUnit.Snapshot)

  /** The controller's overrun index and its default both point at a channel. */
  predicate Placed(w: World, defaultIndex: nat) {
    w.controller.overrunIndex < |w.channels| && defaultIndex < |w.channels|
  }

  /** Every channel after its own `ms_poll`. */
  function PollChannels(cs: seq<ValveChannel.Snapshot>, inputs: seq<bool>): (ps: seq<ValveChannel.Snapshot>)
    requires |inputs| == |cs|
    ensures |ps| == |cs|
    ensures forall i :: 0 <= i < |cs| ==> ps[i] == ValveChannel.Poll(cs[i], inputs[i])
  {
    seq(|cs|, i requires 0 <= i < |cs| => ValveChannel.Poll(cs[i], inputs[i]))
  }

  /** Every channel after the controller's command for it. */
  function ApplyAll(cs: seq<ValveChannel.Snapshot>, commands: seq<Arbiter.Command>): (rs: seq<ValveChannel.Snapshot>)
    requires |commands| == |cs|
    ensures |rs| == |cs|
    ensures forall i :: 0 <= i < |cs| ==> rs[i] == Arbiter.Apply(cs[i], commands[i])
  {
    seq(|cs|, i requires 0 <= i < |cs| => Arbiter.Apply(cs[i], commands[i]))
  }

  /** One tick: channels, then controller (seeing whether the boiler is idle), then the boiler with the new request. */
  function Tick(w: World, inputs: seq<bool>, defaultIndex: nat): (r: World)
    requires Placed(w, defaultIndex) && |inputs| == |w.channels|
    ensures Placed(r, defaultIndex) && |r.channels| == |w.channels|
  {
    var polled := PollChannels(w.channels, inputs);
    var o := Arbiter.Step(w.controller, polled, w.boiler.mode == BoilerUnit.Idle, defaultIndex);
    World(ApplyAll(polled, o.commands), o.view, BoilerUnit.Poll(BoilerUnit.SetDemand(w.boiler, o.request)))
  }

  /**
   * Safety of the composed tick: when the boiler fires at the end of a
   * tick, some zone has debounced demand and its valve is fully open, both
   * before and after the controller's commands.
   */
  lemma FiresOnlyIntoOpenDemandedZone(w: World, inputs: seq<bool>, defaultIndex: nat)
    requires Placed(w, defaultIndex) && |inputs| == |w.channels|
    ensures var r := Tick(w, inputs, defaultIndex);
      BoilerUnit.Fires(r.boiler) ==>
        exists i :: 0 <= i < |r.channels| && r.channels[i].debounce.demand && ValveChannel.IsOpenValve(r.channels[i])
    ensures var polled := PollChannels(w.channels, inputs);
      BoilerUnit.Fires(Tick(w, inputs, defaultIndex).boiler) ==>
        exists i :: 0 <= i < |polled| && polled[i].debounce.demand && ValveChannel.IsOpenValve(polled[i])
  {
    var polled := PollChannels(w.channels, inputs);
    var o := Arbiter.Step(w.controller, polled, w.boiler.mode == BoilerUnit.Idle, defaultIndex);
    var r := Tick(w, inputs, defaultIndex);
    if BoilerUnit.Fires(r.boiler) {
      assert o.request;
      Arbiter.RequestOnlyWhenDemandedOpen(w.controller, polled, w.boiler.mode == BoilerUnit.Idle, defaultIndex);
      var i :| 0 <= i < |polled| && polled[i].debounce.demand && ValveChannel.IsOpenValve(polled[i]);
      assert o.commands[i] == Arbiter.OpenCmd;
      assert r.channels[i] == ValveChannel.OpenValve(polled[i]);
    }
  }
}
