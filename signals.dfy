/** Input sequences used to state what a run of polls does. */
module Signals {

  /** `k` consecutive polls that all see the same level. */
  function Held(level: bool, k: nat): (r: seq<bool>)
    ensures |r| == k
    ensures forall i :: 0 <= i < k ==> r[i] == level
  {
    seq(k, _ => level)
  }

  /** A held run one poll longer ends in one more poll of the same level. */
  lemma HeldPrefix(level: bool, k: nat)
    ensures Held(level, k + 1)[..k] == Held(level, k)
    ensures Held(level, k + 1)[k] == level
  {
  }
}
