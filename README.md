# boiler_valves in Dafny

This project models the controller of a small heating installation. Several
zones share one boiler and one set of motorised flow valves. Each zone raises
a raw, noisy demand signal. The controller debounces each signal and drives
each zone's valve through a slow timed open/close cycle. It fires the boiler
only once some demanding zone's valve is fully open. When all demand goes
away, it dumps the residual heat into one chosen "overrun" zone before going
idle.

Everything runs as one poll per millisecond. The model has one Dafny module
per source unit:

- `Debounce` (debounce.dfy): the asymmetric demand debounce. Both channel
  classes share it. The count climbs by one per demanding poll, saturating
  at 512. It halves on every quiet poll. The flag is raised at 512 and
  dropped at 0.
- `ValveChannel` (channel.dfy): `Channel` from src/Channel.h. It combines
  the debounce with the Closed / Opening / Open / Closing valve motion and
  its single countdown.
- `BoilerUnit` (boiler.dfy): `Boiler` from src/Boiler.h. This is the
  ignition shaper with its underrun delay and its overrun.
- `Arbiter` (controller.dfy): `Controller` from src/Controller.h. It builds
  the demand and open masks, re-elects the overrun channel, and runs the
  three-branch arbitration (Demand, Cool, Idle).
- `LegacyMain` (legacy.dfy): the older all-in-one src/main.cpp. It covers
  `roll_right`, `bits_to_tags`, its own `Channel` class with two count-up
  counters, and the decision part of `loop()`. That part works over the
  globals `state`, `overrun_counter_ms` and `underrun_counter_ms` and the
  static `last_boiler_demand`.
- `Plant` (plant.dfy): a composed tick. It polls the channels, then the
  controller, then the boiler. It carries the safety lemma that the boiler
  fires only into a zone that demands and is fully open.
- `Signals` (signals.dfy): `Held(level, k)`, an input held at one level
  for `k` polls, used by the timing lemmas.

Every class is modelled twice:

- as a Dafny `class` with the source's fields, whose methods mutate those
  fields as the C++ does;
- as a pure snapshot datatype with step functions.

Each method's `ensures` ties its new state to the step function applied to
the old state (`View() == Poll(old(View()), input)`). The properties the
source promises are proved as lemmas about the step functions and the runs
they generate (`Debounce.Run`, `ValveChannel.PollRun`, `BoilerUnit.Drive`,
`LegacyMain.ChannelRun`, `LegacyMain.BoilerRun`).

How I/O and the C++ types are modelled:

- Injected input callbacks (`input_fn`, `digitalRead`) become method
  parameters.
- Output callbacks and pin writes become recorded traces: `valveWrites`,
  `fireWrites` and `boilerPinWrites`, one entry per write, `true` for HIGH.
- A controller bitmask (`unsigned int`, bit `i` for channel `i`) is the set
  of its 1-bit positions.
  - `m |= 1 << i` is `m + {i}`.
  - `a & b` is `a * b`.
  - `m != 0` is `m != {}`.
- `roll_right` and `bits_to_tags` keep `bv32`.
- A pointer to a channel (`curr_overrun`, `overrun_ch`) is an object
  reference, plus a ghost index into the channel list.

The accessors (`Channel::state`, `has_demand`, `fully_open`;
`Boiler::state`, `is_idle`; `Controller::state`, `demand`, `open`; the
legacy `has_demand` and `is_open`) are reading functions whose contracts
tie them to the snapshot the step functions work on.

Timing and ordering details of the code that the model reproduces:

- **Overrun election mask.** The election reads `curr_open`, the open mask
  the controller stored on the *previous* poll (src/Controller.h:41). This
  poll's `this_open` is stored only afterwards (src/Controller.h:46).
- **Valve opening time.** After `open()` on a closed or closing valve, the
  valve reports Opening for 8000 polls and Open from the 8001st poll. The
  countdown is compared with 0 before it is decremented (src/Channel.h:39-45).
  Closing likewise takes 4000 polls, with Closed on the 4001st.
- **Underrun length.** After a false-to-true request, the boiler is in
  Underrun for `underrun_time` polls and reaches Demand on poll
  `underrun_time + 1` (src/Boiler.h:30-41).
- **Legacy opening time.** The legacy valve counts up from 1 and is open
  7999 polls after `open()` (src/main.cpp:76-80, src/main.cpp:95-96).

## Model

| member | source | states |
|---|---|---|
| Debounce.Sample | src/Channel.h:28-36 | A demanding poll adds one to the count below 512 and leaves it at 512; a quiet poll halves it; the count stays in [0, 512]; the flag rises only where the count reaches 512, falls only where it reaches 0, and is kept at every count in between |
| Debounce.RunValid | src/Channel.h:28-36 | Every run of polls from a valid debouncer keeps the count in [0, 512] and the flag consistent with both extremes |
| Debounce.RiseRun | src/Channel.h:28-34 | From a lowered flag, `k` demanding polls that do not pass 512 add exactly `k` to the count, and the flag is up exactly when the count has reached 512 |
| Debounce.FirstAssertion | src/Channel.h:28-34 | From count 0, demand is first asserted on exactly the 512th consecutive demanding poll |
| Debounce.FallRun | src/Channel.h:30-36 | After `k` quiet polls the count has been halved `k` times and the flag is up exactly when it was up and the count is still non-zero |
| Debounce.ClearFromFull | src/Channel.h:30-36 | From 512, quiet polls halve the count each time (256, ..., 1, 0); the flag stays up through the 9th poll and drops on the 10th |
| ValveChannel.Poll | src/Channel.h:24-46 | The debounce step, then: Open and Closed never change, Opening becomes Open (Closing becomes Closed) exactly when the countdown is already 0, a non-zero countdown drops by exactly one and 0 stays 0; well-formedness is kept |
| ValveChannel.OpenValve | src/Channel.h:48-57 | `open()` leaves an Open or Opening valve unchanged and otherwise starts Opening with a countdown of 8000; the debounce is untouched |
| ValveChannel.CloseValve | src/Channel.h:59-68 | `close()` leaves a Closed or Closing valve unchanged and otherwise starts Closing with a countdown of 4000; the debounce is untouched |
| ValveChannel.PollRunDebounce | src/Channel.h:24-46 | A run of channel polls leaves the debouncer exactly where the debounce run alone would |
| ValveChannel.OpeningRun | src/Channel.h:39-45 | An Opening valve with countdown `c` is still Opening, with countdown `c - k`, after `k <= c` polls |
| ValveChannel.ClosingRun | src/Channel.h:39-45 | A Closing valve with countdown `c` is still Closing, with countdown `c - k`, after `k <= c` polls |
| ValveChannel.OpenTravel | src/Channel.h:39-57 | After `open()` on a Closed or Closing valve, it is Opening for the next 8000 polls and Open on the 8001st |
| ValveChannel.CloseTravel | src/Channel.h:39-68 | After `close()` on an Open or Opening valve, it is Closing for the next 4000 polls and Closed on the 4001st |
| ValveChannel.CommandsIdempotentAndReversing | src/Channel.h:48-68 | Repeating `open()` or `close()` changes nothing more; `close()` while Opening switches at once to Closing with 4000, `open()` while Closing to Opening with 8000; `open()` does not change whether the valve is fully open |
| ValveChannel.Channel.constructor | src/Channel.h:6-14 | A new channel has no demand, count 0, valve Closed with countdown 0, and no writes |
| ValveChannel.Channel.MsPoll | src/Channel.h:24-46 | `ms_poll` performs `Poll` on the fields with the sampled input, writes nothing, and keeps the channel well formed |
| ValveChannel.Channel.Open | src/Channel.h:48-57 | `open()` writes HIGH to the valve output and performs `OpenValve` on the fields |
| ValveChannel.Channel.Close | src/Channel.h:59-68 | `close()` writes LOW to the valve output and performs `CloseValve` on the fields |
| ValveChannel.Channel.State | src/Channel.h:17 | `state()` reports the valve state of the channel's snapshot |
| ValveChannel.Channel.HasDemand | src/Channel.h:70 | `has_demand()` reports the debounced demand flag of the snapshot |
| ValveChannel.Channel.FullyOpen | src/Channel.h:71 | `fully_open()` holds exactly when the snapshot's valve is Open |
| BoilerUnit.SetDemand | src/Boiler.h:21-26 | `demand(b)` records the request and re-arms the underrun counter to `underrun_time_ms` exactly on a false-to-true change; nothing else changes |
| BoilerUnit.Poll | src/Boiler.h:28-54 | The new mode is Underrun iff requested with a non-zero underrun counter, Demand iff requested with it at zero, Overrun iff not requested with a non-zero overrun counter, Idle iff not requested with it at zero; Demand re-arms the overrun counter; a counter only ever drops by one, and only while it was non-zero in its own mode |
| BoilerUnit.UnderrunRun | src/Boiler.h:30-41 | With the request held after an edge, poll `k <= U` is Underrun with underrun counter `U - k` |
| BoilerUnit.DemandRun | src/Boiler.h:30-41 | With the request held, every poll after the `U`-th is Demand |
| BoilerUnit.UnderrunDuration | src/Boiler.h:21-53 | After a false-to-true request, the fire output is off for exactly `underrun_time` polls (all Underrun) and on from the next poll |
| BoilerUnit.OverrunRun | src/Boiler.h:43-47 | With the request dropped and overrun counter `c`, poll `k <= c` is Overrun with counter `c - k` |
| BoilerUnit.IdleRun | src/Boiler.h:43-51 | With the request dropped, every poll after the overrun counter is spent is Idle |
| BoilerUnit.OverrunDuration | src/Boiler.h:37-53 | After dropping the request from Demand: Overrun for exactly `overrun_time` polls, then Idle, with the fire output off throughout |
| BoilerUnit.Boiler.constructor | src/Boiler.h:6-15 | A new boiler is not requested, Idle, with durations 300000 and 5000 and both counters at 0 |
| BoilerUnit.Boiler.Demand | src/Boiler.h:21-26 | `demand(b)` performs `SetDemand` on the fields and writes nothing |
| BoilerUnit.Boiler.MsPoll | src/Boiler.h:28-54 | `ms_poll` performs `Poll` on the fields and writes `state == Demand` to the fire output |
| BoilerUnit.Boiler.SetOverrunTime | src/Boiler.h:56 | Only the configured overrun duration changes |
| BoilerUnit.Boiler.SetUnderrunTime | src/Boiler.h:58 | Only the configured underrun duration changes |
| BoilerUnit.Boiler.State | src/Boiler.h:18 | `state()` reports the mode of the boiler's snapshot |
| BoilerUnit.Boiler.IsIdle | src/Boiler.h:19 | `is_idle()` holds exactly when the snapshot's mode is Idle |
| Arbiter.DemandMask | src/Controller.h:30-34 | Bit `i` of `this_demand` is set iff channel `i` has debounced demand |
| Arbiter.OpenMask | src/Controller.h:30-34 | Bit `i` of `this_open` is set iff channel `i` is fully open |
| Arbiter.Elect | src/Controller.h:36-43 | The election loop yields the default or a channel whose bit is set in the mask |
| Arbiter.ElectHighest | src/Controller.h:36-43 | The elected channel is the highest-indexed one set in the mask, or the default if none is set |
| Arbiter.Step | src/Controller.h:25-89 | One `ms_poll`: the stored masks become this poll's masks; the state is Demand / Cool / Idle by the branch rule; the boiler request is `state == Demand && this_demand & this_open != 0`; every channel gets its branch's command |
| Arbiter.RequestOnlyWhenDemandedOpen | src/Controller.h:49-88 | The boiler is asked to fire iff the state is Demand and some channel both demands and is fully open; Cool and Idle always request false |
| Arbiter.StateClassification | src/Controller.h:51-88 | The state is Demand iff some channel demands, Cool iff none does and the boiler is not idle, Idle otherwise |
| Arbiter.Reelection | src/Controller.h:36-46 | The overrun channel changes only on the poll where the demand mask goes from non-zero to zero; it becomes the highest channel set in the previous poll's open mask, or the default |
| Arbiter.DemandBranchCommands | src/Controller.h:56-64 | Demand branch: a demanding channel is opened; a non-demanding one not fully open is closed; a fully open non-demanding one is closed iff some demanding channel is fully open and otherwise not commanded |
| Arbiter.CoolBranchCommands | src/Controller.h:66-80 | Cool branch: the overrun channel is opened; every other channel is closed if the overrun channel is fully open and otherwise not commanded |
| Arbiter.IdleBranchCommands | src/Controller.h:81-88 | Idle branch: every channel is closed and the boiler request is false |
| Arbiter.Controller.constructor | src/Controller.h:9-18 | A new controller is Idle with empty masks, and both overrun references point at the given overrun channel |
| Arbiter.Controller.State | src/Controller.h:21 | `state()` reports the branch stored in the controller's snapshot |
| Arbiter.Controller.Demand | src/Controller.h:22 | `demand()` reports the demand mask stored by the last poll |
| Arbiter.Controller.Open | src/Controller.h:23 | `open()` reports the open mask stored by the last poll |
| Arbiter.Controller.BuildMasks | src/Controller.h:27-34 | The mask loop yields exactly `DemandMask` and `OpenMask` of the channels |
| Arbiter.Controller.ElectOverrun | src/Controller.h:38-43 | The election loop sets the overrun channel to `Elect` of the stored open mask |
| Arbiter.Controller.CommandDemand | src/Controller.h:56-64 | Each channel gets exactly its Demand-branch command and its valve write |
| Arbiter.Controller.CommandCool | src/Controller.h:71-79 | The overrun channel is opened, and the others are closed only if it is fully open after that |
| Arbiter.Controller.CommandIdle | src/Controller.h:86-87 | Every channel is closed and writes LOW |
| Arbiter.Controller.Observe | src/Controller.h:27-46 | The masks are stored, and the overrun channel is re-elected from the previously stored open mask exactly when demand has just gone |
| Arbiter.Controller.Arbitrate | src/Controller.h:49-88 | The branch, the boiler request and each channel's command and write follow the stored masks and whether the boiler was idle |
| Arbiter.Controller.MsPoll | src/Controller.h:25-89 | `ms_poll` keeps the object invariant and moves controller, boiler request and every channel exactly as `Step` says |
| LegacyMain.RollRight | src/main.cpp:39 | `roll_right` is a one-bit right rotation of the 32-bit word |
| LegacyMain.RollPeriod | src/main.cpp:39 | Thirty-two `roll_right`s give back the original word |
| LegacyMain.TagsRoundTrip | src/main.cpp:163-170 | The four tags record exactly the low four bits of the mask |
| LegacyMain.BitsToTags | src/main.cpp:163-170 | `bits_to_tags` writes `W`/`1`/`2`/`3` or `-` for bits 0 to 3 into the buffer, changes nothing else, and returns 4 |
| LegacyMain.ChannelPoll | src/main.cpp:63-90 | The debounce step, then one step of the running counter: a started `open_count` below 8000 climbs by one, else a started `close_count` below 4000 climbs by one, else neither moves; the counters stay in range and never both non-zero |
| LegacyMain.ChannelOpenCmd | src/main.cpp:92-98 | `open()` sets `open_count` to 1 only from 0, otherwise keeps it, and always zeroes `close_count` |
| LegacyMain.ChannelCloseCmd | src/main.cpp:99-105 | `close()` zeroes `open_count`, and sets `close_count` to 1 only from 0 and otherwise keeps it |
| LegacyMain.OpenCountRun | src/main.cpp:76-80 | A started open counter gains one per poll until it reaches 8000, where it stays |
| LegacyMain.OpenTravel | src/main.cpp:76-108 | After `open()` from rest, `is_open()` holds exactly from the 7999th poll on |
| LegacyMain.OpenKeepsOpenness | src/main.cpp:92-108 | `open()` does not change `is_open()` |
| LegacyMain.Channel.constructor | src/main.cpp:46-54 | A new legacy channel has both counters and the debounce at 0 |
| LegacyMain.Channel.Poll | src/main.cpp:63-90 | `poll()` performs `ChannelPoll` on the fields with the read input and writes no valve value |
| LegacyMain.Channel.Open | src/main.cpp:92-98 | `open()` writes HIGH to the valve pin and performs `ChannelOpenCmd` |
| LegacyMain.Channel.Close | src/main.cpp:99-105 | `close()` writes LOW to the valve pin and performs `ChannelCloseCmd` |
| LegacyMain.Channel.HasDemand | src/main.cpp:107 | `has_demand()` reports the debounced demand flag of the legacy snapshot |
| LegacyMain.Channel.IsOpen | src/main.cpp:108 | `is_open()` holds exactly when the open counter has reached 8000 |
| LegacyMain.DemandMask | src/main.cpp:209-215 | Bit `i` of `this_demand` is set iff polled channel `i` has demand |
| LegacyMain.OpenMask | src/main.cpp:209-215 | Bit `i` of `this_open` is set iff polled channel `i` is open |
| LegacyMain.BoilerUpdate | src/main.cpp:283-317 | The pin goes HIGH iff requested with the (re-armed) underrun delay at 0, and that re-arms the overrun to 300000; an unrequested tick writes LOW; the underrun delay is armed (ending the tick at 5999) only when the request rises; otherwise each counter drops by at most one |
| LegacyMain.UnderrunSilence | src/main.cpp:283-299 | For the first 6000 ticks of a risen request the boiler pin is not written and the delay counts down to 0 |
| LegacyMain.FiringRun | src/main.cpp:293-305 | From the 6001st tick of a held request every tick writes HIGH and re-arms the overrun |
| LegacyMain.UnderrunDuration | src/main.cpp:283-305 | A risen, held request leaves the boiler pin silent for exactly 6000 ticks and HIGH on every tick after |
| LegacyMain.LoopStep | src/main.cpp:205-317 | One tick over the polled channels: demand branch iff some channel demands, else overrun while the overrun counter runs, else idle; the boiler request is `this_demand & this_open != 0` in the demand branch; each channel gets its branch's command |
| LegacyMain.BoilerDemandOnlyWhenDemandedOpen | src/main.cpp:225-280 | `boiler_demand` holds iff the demand branch is taken and some polled channel demands and is open; the overrun and idle branches never request and drive the pin LOW |
| LegacyMain.BoilerPinRule | src/main.cpp:283-317 | The pin goes HIGH only on a requested tick that follows a requested tick with the underrun delay spent, and that tick sets the overrun to 300000; the underrun counter grows only on a rising request |
| LegacyMain.Loop.constructor | src/main.cpp:126-140 | Four channels with `ch3` as the overrun channel; state idle and both counters at 0 |
| LegacyMain.Loop.PollChannels | src/main.cpp:209-215 | Every channel is polled with its input, and the masks are exactly its demand and open bits afterwards |
| LegacyMain.Loop.CommandDemand | src/main.cpp:236-244 | Each channel gets exactly its demand-branch command and valve write |
| LegacyMain.Loop.CommandOverrun | src/main.cpp:256-264 | The overrun channel is opened, and the others are closed only if it is open after that |
| LegacyMain.Loop.CommandIdle | src/main.cpp:276-277 | Every channel is closed and writes LOW |
| LegacyMain.Loop.Arbitrate | src/main.cpp:225-280 | The branch, the boiler request and each channel's command follow `LoopStep` on the polled channels |
| LegacyMain.Loop.DriveBoiler | src/main.cpp:283-317 | The globals and the boiler pin writes follow `BoilerUpdate` |
| LegacyMain.Loop.Tick | src/main.cpp:205-317 | One tick of `loop()` moves the globals, the boiler pin and every channel exactly as `LoopStep` over the polled channels says |
| Plant.FiresOnlyIntoOpenDemandedZone | src/Controller.h:49-64 | In a composed tick, the boiler fires only when some zone has debounced demand and a fully open valve, both among the polled channels the controller decided on and among the channels after its commands |

## Left out

- Hardware I/O is not modelled beyond the traces and parameters above: `pinMode`, `setup()`, the LED outputs and the boiler LED.
- The function-pointer and `fn_context` plumbing is replaced by parameters and traces.
- LED brightness and pattern rendering are not modelled: `pattern_mask`, `min_brightness`, `mid_brightness` and the status-pattern block in src/main.cpp. They are presentation only. `roll_right` is modelled on its own.
- Serial logging is not modelled: `report_state_change`, the "NEW STATE" and "BOILER ON" prints, and the `last_demand`/`last_open` static locals that exist only for them. The part of `report_state_change` that fills its buffer is `BitsToTags`.
- The watchdog and the `millis()` gating of `loop()` are not modelled; one call is one tick, and time is not modelled otherwise.
- Integer widths: counters are unbounded naturals. The Boiler durations are limited to the `uint32_t` range. Their arithmetic never leaves that range, because each counter only decreases or is set to a duration.
- Arbiter.Controller.constructor: requires at most 15 channels. On the AVR Arduino targets the source is built for, `int` and `unsigned int` are 16 bits wide, so `1 << i` stays defined and a mask keeps bit `i` only for `i <= 14`; with more channels the C++ masks lose bits that the model's sets keep. It requires distinct channels. It requires the default overrun channel to be one of them. The C++ does not check any of these.
- Plant.FiresOnlyIntoOpenDemandedZone: the order of the composed tick is an assumption. The headers do not fix who polls the channels, the controller and the boiler, or in which order.
- LegacyMain.Loop.PollChannels: the channels are polled in one pass and their flags are read in a second pass. The C++ does both in one loop. A poll touches only its own channel, so the masks are the same.
- LegacyMain.Channel.Poll: the LED write in every branch of `poll()` is not modelled.
- LegacyMain.Loop.constructor: the four global channels are passed in. Their pins are not modelled.
