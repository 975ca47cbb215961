/**
 * The asymmetric demand debounce shared by both channel classes
 * (src/Channel.h and the older src/main.cpp): a counter that climbs by one
 * on every demanding poll, saturating at 512, and halves on every quiet poll;
 * the debounced flag is raised only at the top and dropped only at zero.
 */
module Debounce {
  import Signals

  /** Saturation point of the debounce counter: half a second of demand. */
  const DemandCountMax: nat := 512

  /** The debounce counter and the debounced demand flag. */
  datatype Debouncer = Debouncer(count: nat, demand: bool)

  /** The state a channel is constructed in. */
  const Quiet: Debouncer := Debouncer(0, false)

  /** A debouncer fully charged by sustained demand. */
  const Full: Debouncer := Debouncer(DemandCountMax, true)

  /** The counter is in range and the flag agrees with it at both extremes. */
  predicate Valid(d: Debouncer) {
    d.count <= DemandCountMax
    && (d.count == 0 ==> !d.demand)
    && (d.count == DemandCountMax ==> d.demand)
  }

  /**
   * One poll with raw input `input`: count up by one (never past 512) on a
   * demanding poll, halve on a quiet one; then raise the flag at 512, drop it
   * at 0 and keep it at any count in between.
   */
  function Sample(d: Debouncer, input: bool): (r: Debouncer)
    ensures d.count <= DemandCountMax ==> Valid(r)
    ensures input && d.count < DemandCountMax ==> r.count == d.count + 1
    ensures input && d.count >= DemandCountMax ==> r.count == d.count
    ensures !input ==> r.count == d.count / 2
    ensures r.demand && !d.demand ==> r.count == DemandCountMax
    ensures !r.demand && d.demand ==> r.count == 0
    ensures 0 < r.count < DemandCountMax ==> r.demand == d.demand
  {
    var count :=
      if input && d.count < DemandCountMax then d.count + 1
      else if !input && d.count > 0 then d.count / 2
      else d.count;
    var demand :=
      if count == DemandCountMax then true
      else if count == 0 then false
      else d.demand;
    Debouncer(count, demand)
  }

  /** The debouncer after one poll per element of `inputs`, oldest first. */
  function Run(d: Debouncer, inputs: seq<bool>): Debouncer
    decreases |inputs|
  {
    if |inputs| == 0 then d
    else Sample(Run(d, inputs[..|inputs| - 1]), inputs[|inputs| - 1])
  }

  /** Every run of polls from a valid state ends in a valid state. */
  lemma {:induction false} RunValid(d: Debouncer, inputs: seq<bool>)
    requires Valid(d)
    ensures Valid(Run(d, inputs))
    decreases |inputs|
  {
    if |inputs| > 0 {
      RunValid(d, inputs[..|inputs| - 1]);
    }
  }

  /**
   * Starting below the top with the flag down, `k` demanding polls that do
   * not pass 512 add exactly `k` to the counter, and the flag is up exactly
   * when the counter has reached 512.
   */
  lemma {:induction false} RiseRun(d: Debouncer, k: nat)
    requires Valid(d) && !d.demand && d.count + k <= DemandCountMax
    ensures Run(d, Signals.Held(true, k)) == Debouncer(d.count + k, d.count + k == DemandCountMax)
  {
    if k > 0 {
      Signals.HeldPrefix(true, k - 1);
      RiseRun(d, k - 1);
    }
  }

  /** From a quiet channel, demand is first asserted on exactly the 512th demanding poll. */
  lemma FirstAssertion(k: nat)
    requires k <= DemandCountMax
    ensures Run(Quiet, Signals.Held(true, k)).demand <==> k == DemandCountMax
  {
    RiseRun(Quiet, k);
  }

  /** `c` halved `k` times with integer division. */
  function Halved(c: nat, k: nat): (h: nat)
    ensures h <= c
  {
    if k == 0 then c else Halved(c, k - 1) / 2
  }

  /** Halving more often never gives a larger count. */
  lemma {:induction false} HalvedMonotone(c: nat, j: nat, k: nat)
    requires j <= k
    ensures Halved(c, k) <= Halved(c, j)
    decreases k - j
  {
    if j < k {
      HalvedMonotone(c, j, k - 1);
      var h := Halved(c, k - 1);
      assert Halved(c, k) == h / 2 <= h;
    }
  }

  /**
   * After `k >= 1` quiet polls the counter has been halved `k` times, and
   * the flag is still up exactly when it was up before and the counter has
   * not yet reached zero.
   */
  lemma {:induction false} FallRun(d: Debouncer, k: nat)
    requires Valid(d) && k > 0
    ensures Run(d, Signals.Held(false, k)) == Debouncer(Halved(d.count, k), d.demand && Halved(d.count, k) != 0)
  {
    Signals.HeldPrefix(false, k - 1);
    if k > 1 {
      FallRun(d, k - 1);
      HalvedMonotone(d.count, k - 1, k);
    }
  }

  /**
   * From a fully charged channel, quiet polls halve the counter
   * 512, 256, ..., 2, 1, 0: the flag stays up through the 9th and drops on
   * the 10th.
   */
  lemma ClearFromFull(k: nat)
    requires 1 <= k <= 10
    ensures Run(Full, Signals.Held(false, k)).count == Run(Full, Signals.Held(false, k - 1)).count / 2
    ensures Run(Full, Signals.Held(false, k)).demand <==> k < 10
    ensures Run(Full, Signals.Held(false, 9)).count == 1
    ensures Run(Full, Signals.Held(false, 10)).count == 0
  {
    FallRun(Full, k);
    FallRun(Full, 9);
    FallRun(Full, 10);
    assert Halved(DemandCountMax, 9) == 1;
    if k < 10 {
      HalvedMonotone(DemandCountMax, k, 9);
    }
    if k > 1 {
      FallRun(Full, k - 1);
    }
  }
}
