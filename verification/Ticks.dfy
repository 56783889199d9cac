/** The 32-bit millisecond clock against true time. */
module Ticks {
  import opened Bytes

  /** What the clock shows at true time t. */
  function Clock(t: nat): u32 {
    t % TWO32
  }

  /** The unsigned difference between the clock at true time t and a stamp. */
  function Since(t: nat, stamp: u32): u32 {
    Sub32(Clock(t), stamp)
  }

  /** The difference is the true age modulo 2^32. */
  lemma SinceExact(t: nat, at: nat)
    requires at <= t
    ensures Since(t, Clock(at)) == (t - at) % TWO32
    ensures t < at + TWO32 ==> Since(t, Clock(at)) == t - at
  {
    var d := t - at;
    assert Clock(t) == (Clock(at) + d % TWO32) % TWO32;
  }
}
