/**
 * The halving schedule of `calculate_reward` (src/mining.rs): what all rewards up to a height add
 * up to. The shift is capped at 64, the width of the word, and such a shift is a shift by zero (in a
 * build that checks overflow it aborts instead). So the schedule halves for 64 intervals, and from
 * then on it pays the base again: the bound on the total holds for the 64 intervals and for exactly
 * as many blocks more as `BoundHoldsExactly` says.
 */
module MiningRewards {

  function Pow2(k: nat): (p: nat)
    ensures p >= 1
  {
    if k == 0 then 1 else 2 * Pow2(k - 1)
  }

  /** The base halved `k` times, each time rounded down. */
  function Epoch(base: nat, k: nat): nat {
    if k == 0 then base else Epoch(base, k - 1) / 2
  }

  const WIDTH := 64

  /** A right shift of a 64-bit word: the amount is taken modulo the width. */
  function ShiftRight(base: nat, amount: nat): nat {
    Epoch(base, amount % WIDTH)
  }

  function Reward(base: nat, interval: nat, height: nat): nat
    requires interval > 0
  {
    var halvings := height / interval;
    ShiftRight(base, if halvings < WIDTH then halvings else WIDTH)
  }

  /** All rewards below a height. */
  function Total(base: nat, interval: nat, height: nat): nat
    requires interval > 0
  {
    if height == 0 then 0 else Total(base, interval, height - 1) + Reward(base, interval, height - 1)
  }

  function EpochSum(base: nat, k: nat): nat {
    if k == 0 then 0 else EpochSum(base, k - 1) + Epoch(base, k - 1)
  }

  // ---------------------------------------------------------------------------------------------
  // Products

  lemma {:induction false} MulDistributes(a: int, b: int, c: int)
    ensures a * (b + c) == a * b + a * c && (b + c) * a == b * a + c * a
  {
  }

  lemma {:induction false} MulMonotone(a: nat, b: nat, c: nat)
    requires a <= b
    ensures a * c <= b * c && c * a <= c * b
  {
    MulDistributes(c, a, b - a);
  }

  lemma {:induction false} Doubled(a: nat, b: nat)
    ensures (2 * a) * b == a * (2 * b)
  {
  }

  lemma {:induction false} QuotientIs(n: nat, d: nat, q: nat, r: nat)
    requires d > 0 && n == q * d + r && r < d
    ensures n / d == q
  {
    var q', r' := n / d, n % d;
    assert n == q' * d + r';
    if q' < q {
      MulMonotone(q' + 1, q, d);
      MulDistributes(d, q', 1);
    } else if q < q' {
      MulMonotone(q + 1, q', d);
      MulDistributes(d, q, 1);
    }
  }

  /** The shift is a division: `Epoch` is the base divided by a power of two, rounded down once. */
  lemma {:induction false} EpochIsQuotient(base: nat, k: nat)
    ensures Epoch(base, k) == base / Pow2(k)
  {
    var r := EpochRemainder(base, k);
    QuotientIs(base, Pow2(k), Epoch(base, k), r);
  }

  lemma {:induction false} EpochRemainder(base: nat, k: nat) returns (r: nat)
    ensures base == Epoch(base, k) * Pow2(k) + r && r < Pow2(k)
  {
    if k == 0 {
      r := 0;
    } else {
      var before := EpochRemainder(base, k - 1);
      var p, e := Pow2(k - 1), Epoch(base, k);
      Doubled(e, p);
      if Epoch(base, k - 1) == 2 * e {
        r := before;
      } else {
        MulDistributes(p, 2 * e, 1);
        r := p + before;
      }
    }
  }

  // ---------------------------------------------------------------------------------------------
  // Totals

  lemma {:induction false} RewardWithin(base: nat, interval: nat, k: nat, rest: nat)
    requires rest < interval && k < WIDTH
    ensures Reward(base, interval, k * interval + rest) == Epoch(base, k)
  {
    QuotientIs(k * interval + rest, interval, k, rest);
  }

  /** The rewards of `k` whole intervals, at most 64, and `rest` blocks of the next one. */
  lemma {:induction false} TotalIsExact(base: nat, interval: nat, k: nat, rest: nat)
    requires 0 < interval && rest <= interval && (k < WIDTH || (k == WIDTH && rest == 0))
    ensures Total(base, interval, k * interval + rest) == interval * EpochSum(base, k) + rest * Epoch(base, k)
    decreases k, rest
  {
    if rest > 0 {
      TotalIsExact(base, interval, k, rest - 1);
      RewardWithin(base, interval, k, rest - 1);
      MulDistributes(Epoch(base, k), rest - 1, 1);
    } else if k > 0 {
      TotalIsExact(base, interval, k - 1, interval);
      MulDistributes(interval, k - 1, 1);
      MulDistributes(interval, EpochSum(base, k - 1), Epoch(base, k - 1));
    }
  }

  /** Rounding down at every halving keeps the sum under twice the first term. */
  lemma {:induction false} EpochsAreBounded(base: nat, k: nat)
    ensures EpochSum(base, k + 1) + Epoch(base, k) <= 2 * base
  {
    if k > 0 {
      EpochsAreBounded(base, k - 1);
    }
  }

  /** For 64 intervals the coinbases together never exceed twice the first interval's. */
  lemma {:induction false} TotalIsBounded(base: nat, interval: nat, height: nat)
    requires 0 < interval && height <= WIDTH * interval
    ensures Total(base, interval, height) <= interval * (2 * base)
  {
    var k, rest := height / interval, height % interval;
    var sum, last := EpochSum(base, k), Epoch(base, k);
    assert height == k * interval + rest;
    if k >= WIDTH {
      MulMonotone(WIDTH + 1, k + 1, interval);
      MulDistributes(interval, WIDTH, 1);
      MulDistributes(interval, k, 1);
      WholeIntervals(k, rest, interval);
    }
    TotalIsExact(base, interval, k, rest);
    MulMonotone(rest, interval, last);
    MulDistributes(interval, sum, last);
    EpochsAreBounded(base, k);
    MulMonotone(sum + last, 2 * base, interval);
  }

  lemma {:induction false} WholeIntervals(k: nat, rest: nat, interval: nat)
    requires interval > 0 && k >= WIDTH && k * interval + rest <= WIDTH * interval
    ensures k == WIDTH && rest == 0
  {
    if k > WIDTH {
      MulMonotone(WIDTH + 1, k, interval);
      MulDistributes(interval, WIDTH, 1);
    }
  }

  /** Past the 64 intervals every block pays the base again. */
  lemma {:induction false} TotalPastTheSchedule(base: nat, interval: nat, width: nat, more: nat)
    requires 0 < interval && width == WIDTH
    ensures Total(base, interval, width * interval + more) == interval * EpochSum(base, width) + more * base
    decreases more
  {
    if more == 0 {
      TotalIsExact(base, interval, width, 0);
    } else {
      TotalPastTheSchedule(base, interval, width, more - 1);
      RewardPastTheSchedule(base, interval, width, more - 1);
      MulDistributes(base, more - 1, 1);
    }
  }

  lemma {:induction false} RewardPastTheSchedule(base: nat, interval: nat, width: nat, more: nat)
    requires 0 < interval && width == WIDTH
    ensures Reward(base, interval, width * interval + more) == base
  {
    AtLeastWidth(width * interval + more, interval);
  }

  lemma {:induction false} AtLeastWidth(height: nat, interval: nat)
    requires interval > 0 && height >= WIDTH * interval
    ensures height / interval >= WIDTH
  {
    var q := height / interval;
    assert height == q * interval + height % interval;
    if q < WIDTH {
      MulMonotone(q + 1, WIDTH, interval);
      MulDistributes(interval, q, 1);
    }
  }

  /** How many blocks past the schedule the bound survives: while their rewards fit under it, and no longer. */
  lemma {:induction false} BoundHoldsExactly(base: nat, interval: nat, width: nat, more: nat)
    requires 0 < interval && width == WIDTH
    ensures Total(base, interval, width * interval + more) <= interval * (2 * base)
            <==> more * base <= interval * (2 * base - EpochSum(base, width))
  {
    TotalPastTheSchedule(base, interval, width, more);
    MulDistributes(interval, 2 * base - EpochSum(base, width), EpochSum(base, width));
  }

  /** So it fails, whatever the configuration, two intervals and a block later at the latest. */
  lemma {:induction false} BoundFailsLater(base: nat, interval: nat, width: nat)
    requires 0 < interval && 0 < base && width == WIDTH
    ensures Total(base, interval, width * interval + (2 * interval + 1)) > interval * (2 * base)
  {
    TotalPastTheSchedule(base, interval, width, 2 * interval + 1);
    MulDistributes(base, 2 * interval, 1);
    Doubled(interval, base);
    MulMonotone(0, EpochSum(base, width), interval);
  }
}
