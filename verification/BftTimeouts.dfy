/**
 * How long a round may take (`current_timeout_ms` in src/consensus/bft/round_manager.rs): the base,
 * doubled for each time-out in a row, up to a maximum. The power saturates but the product does not,
 * so after enough time-outs it wraps around and the back-off can fall to nothing.
 */
module BftTimeouts {
  import opened Words

  function Pow2(k: nat): nat {
    if k == 0 then 1 else 2 * Pow2(k - 1)
  }

  /** A power of two that stops at the largest word. */
  function SaturatingPow2(k: nat): nat {
    if k < 64 then Pow2(k) else U64_MAX
  }

  function Min(a: nat, b: nat): nat {
    if a < b then a else b
  }

  function TimeoutMs(base: U64, max: U64, timeouts: nat): nat {
    Min(base * SaturatingPow2(timeouts) % (U64_MAX + 1), max)
  }

  /** The back-off as it is meant. */
  function Doubled(base: U64, max: U64, timeouts: nat): nat {
    Min(base * Pow2(timeouts), max)
  }

  lemma {:induction false} Pow2Adds(j: nat, k: nat)
    ensures Pow2(j + k) == Pow2(j) * Pow2(k)
  {
    if k > 0 {
      Pow2Adds(j, k - 1);
      assert Pow2(j) * (2 * Pow2(k - 1)) == 2 * (Pow2(j) * Pow2(k - 1));
    }
  }

  lemma {:induction false} LargePowers()
    ensures Pow2(61) == 0x2000_0000_0000_0000 && Pow2(64) == U64_MAX + 1
  {
    assert Pow2(1) == 2 && Pow2(2) == 4 && Pow2(3) == 8;
    Pow2Adds(2, 2);
    Pow2Adds(4, 4);
    Pow2Adds(8, 8);
    Pow2Adds(16, 16);
    Pow2Adds(16, 8);
    Pow2Adds(24, 4);
    Pow2Adds(28, 1);
    Pow2Adds(32, 29);
    Pow2Adds(61, 3);
  }

  lemma {:induction false} Pow2Grows(j: nat, k: nat)
    requires j <= k
    ensures Pow2(j) <= Pow2(k)
  {
    if j < k {
      Pow2Grows(j, k - 1);
    }
  }

  lemma {:induction false} AtLeastFactor(a: nat, b: nat)
    ensures a > 0 ==> a * b >= b
    ensures b > 1 && a > 1 ==> a * b >= 2 * b
  {
    if a > 1 {
      assert a * b == 2 * b + (a - 2) * b;
    }
  }

  /** From 64 time-outs on the intended back-off is the maximum, unless the base is zero. */
  lemma {:induction false} LongBackoff(base: U64, max: U64, timeouts: nat)
    requires timeouts >= 64
    ensures Doubled(base, max, timeouts) == if base == 0 then 0 else max
  {
    LargePowers();
    Pow2Grows(64, timeouts);
    AtLeastFactor(base, Pow2(timeouts));
  }

  /** The time-out is the intended one if and only if the product fits, or what is left of it suffices. */
  lemma {:induction false} BackoffIsExact(base: U64, max: U64, timeouts: nat)
    ensures TimeoutMs(base, max, timeouts) == Doubled(base, max, timeouts)
       <==> (var product := base * SaturatingPow2(timeouts);
             product <= U64_MAX || product % (U64_MAX + 1) >= max)
  {
    if timeouts >= 64 {
      LongBackoff(base, max, timeouts);
      AtLeastFactor(base, U64_MAX);
    }
  }

  lemma {:induction false} MinDoubles(x: nat, max: nat)
    ensures Min(2 * x, max) == Min(2 * Min(x, max), max)
  {
  }

  /** While it fits, one more time-out doubles the wait, up to the maximum. */
  lemma {:induction false} BackoffDoubles(base: U64, max: U64, timeouts: nat)
    requires timeouts < 63 && base * Pow2(timeouts + 1) <= U64_MAX
    ensures TimeoutMs(base, max, timeouts + 1) == Min(2 * TimeoutMs(base, max, timeouts), max)
  {
    var x := base * Pow2(timeouts);
    assert base * Pow2(timeouts + 1) == 2 * x;
    BackoffIsExact(base, max, timeouts);
    BackoffIsExact(base, max, timeouts + 1);
    MinDoubles(x, max);
  }

  /** With the default configuration the 61st time-out in a row leaves no time at all. */
  lemma {:induction false} BackoffWraps()
    ensures TimeoutMs(3000, 30_000, 61) == 0
  {
    LargePowers();
  }
}
