/**
 * Median, outlier filter and average of a symbol's price reports
 * (`calculate_median`, `is_outlier`, `calculate_average` and the aggregation in
 * src/oracle_system.rs).
 *
 * The results: the median and the consensus price do not depend on the order of the reports; a
 * strict majority of reports inside a range puts the median inside it, and exactly half does not;
 * the consensus price is within the outlier threshold of the median, so the majority pins it; and
 * there is always a report left to average.
 */
module OraclePrices {
  import opened Words
  import opened Sorting

  /** The ascending arrangement of a list of prices. */
  function Arrange(s: seq<U64>): seq<int> {
    if s == [] then [] else Insert(Arrange(s[..|s| - 1]), s[|s| - 1])
  }

  lemma {:induction false} ArrangeSorts(s: seq<U64>)
    ensures Ascending(Arrange(s)) && multiset(Arrange(s)) == multiset(s) && |Arrange(s)| == |s|
  {
    if s != [] {
      var n := |s| - 1;
      ArrangeSorts(s[..n]);
      InsertAscending(Arrange(s[..n]), s[n]);
      InsertContents(Arrange(s[..n]), s[n]);
      assert s == s[..n] + [s[n]];
    }
    assert |Arrange(s)| == |multiset(Arrange(s))| == |multiset(s)|;
  }

  /** The upper median; 0 when there are no prices. */
  function Median(prices: seq<U64>): int {
    if prices == [] then 0 else (ArrangeSorts(prices); Arrange(prices)[|prices| / 2])
  }

  /** `calculate_median`: sort a copy and take the middle element. */
  method CalculateMedian(prices: seq<U64>) returns (m: int)
    ensures m == Median(prices)
  {
    if prices == [] {
      return 0;
    }
    var sorted := Sort(prices);
    ArrangeSorts(prices);
    SortedIsUnique(sorted, Arrange(prices));
    m := sorted[|sorted| / 2];
  }

  // ---------------------------------------------------------------------------------------------
  // Counting

  /** How many elements satisfy a property, and their sum. */
  function Count(s: seq<int>, p: int -> bool): nat {
    if s == [] then 0 else (if p(s[0]) then 1 else 0) + Count(s[1..], p)
  }

  function SumOf(s: seq<int>, p: int -> bool): int {
    if s == [] then 0 else (if p(s[0]) then s[0] else 0) + SumOf(s[1..], p)
  }

  lemma {:induction false} InsertCounts(s: seq<int>, x: int, p: int -> bool)
    ensures Count(Insert(s, x), p) == Count(s, p) + if p(x) then 1 else 0
    ensures SumOf(Insert(s, x), p) == SumOf(s, p) + if p(x) then x else 0
  {
    if s != [] && x > s[0] {
      InsertCounts(s[1..], x, p);
    } else {
      assert ([x] + s)[1..] == s;
    }
  }

  lemma {:induction false} LastCounts(s: seq<int>, p: int -> bool)
    requires s != []
    ensures Count(s, p) == Count(s[..|s| - 1], p) + if p(s[|s| - 1]) then 1 else 0
    ensures SumOf(s, p) == SumOf(s[..|s| - 1], p) + if p(s[|s| - 1]) then s[|s| - 1] else 0
  {
    if |s| > 1 {
      LastCounts(s[1..], p);
      assert s[1..][..|s| - 2] == s[..|s| - 1][1..];
    }
  }

  lemma {:induction false} ArrangeCounts(s: seq<U64>, p: int -> bool)
    ensures Count(Arrange(s), p) == Count(s, p)
    ensures SumOf(Arrange(s), p) == SumOf(s, p)
  {
    if s != [] {
      ArrangeCounts(s[..|s| - 1], p);
      InsertCounts(Arrange(s[..|s| - 1]), s[|s| - 1], p);
      LastCounts(s, p);
    }
  }

  lemma {:induction false} CountBelowLength(s: seq<int>, p: int -> bool)
    ensures Count(s, p) <= |s|
  {
    if s != [] {
      CountBelowLength(s[1..], p);
    }
  }

  lemma {:induction false} CountSplit(s: seq<int>, k: nat, p: int -> bool)
    requires k <= |s|
    ensures Count(s, p) == Count(s[..k], p) + Count(s[k..], p)
  {
    if k == 0 {
      assert s[0..] == s;
    } else {
      CountSplit(s[1..], k - 1, p);
      assert s[1..][..k - 1] == s[..k][1..];
      assert s[1..][k - 1..] == s[k..];
    }
  }

  lemma {:induction false} CountNone(s: seq<int>, p: int -> bool)
    requires forall i :: 0 <= i < |s| ==> !p(s[i])
    ensures Count(s, p) == 0
  {
    if s != [] {
      CountNone(s[1..], p);
    }
  }

  lemma {:induction false} CountAll(s: seq<int>, p: int -> bool)
    requires forall i :: 0 <= i < |s| ==> p(s[i])
    ensures Count(s, p) == |s|
  {
    if s != [] {
      CountAll(s[1..], p);
    }
  }

  // ---------------------------------------------------------------------------------------------
  // The median

  function Within(lo: int, hi: int): int -> bool {
    x => lo <= x <= hi
  }

  ghost predicate Majority(prices: seq<U64>, lo: int, hi: int) {
    2 * Count(prices, Within(lo, hi)) > |prices|
  }

  lemma {:induction false} CountBelowHigh(s: seq<int>, lo: int, hi: int, k: nat)
    requires Ascending(s) && k < |s| && s[k] > hi
    ensures Count(s, Within(lo, hi)) <= k
  {
    CountSplit(s, k, Within(lo, hi));
    CountBelowLength(s[..k], Within(lo, hi));
    CountNone(s[k..], Within(lo, hi));
  }

  lemma {:induction false} CountAboveLow(s: seq<int>, lo: int, hi: int, k: nat)
    requires Ascending(s) && k < |s| && s[k] < lo
    ensures Count(s, Within(lo, hi)) < |s| - k
  {
    CountSplit(s, k + 1, Within(lo, hi));
    CountNone(s[..k + 1], Within(lo, hi));
    CountBelowLength(s[k + 1..], Within(lo, hi));
  }

  /** Lies on either side cannot move the median out of a range that holds a strict majority. */
  lemma {:induction false} MajorityPinsMedian(prices: seq<U64>, lo: int, hi: int)
    requires Majority(prices, lo, hi)
    ensures lo <= Median(prices) <= hi
  {
    var s := Arrange(prices);
    ArrangeSorts(prices);
    ArrangeCounts(prices, Within(lo, hi));
    CountBelowLength(prices, Within(lo, hi));
    var k := |s| / 2;
    if s[k] > hi {
      CountBelowHigh(s, lo, hi, k);
    } else if s[k] < lo {
      CountAboveLow(s, lo, hi, k);
    }
  }

  lemma {:induction false} CountUpTo(s: seq<int>, lo: int, hi: int, k: nat)
    requires Ascending(s) && k < |s| && s[k] <= hi && forall i :: 0 <= i < |s| ==> s[i] >= lo
    ensures Count(s, Within(lo, hi)) > k
  {
    CountSplit(s, k + 1, Within(lo, hi));
    CountAll(s[..k + 1], Within(lo, hi));
  }

  /** The bound is tight: when the others all report more, half of the reports do not hold the median. */
  lemma {:induction false} HalfDoesNotPinMedian(prices: seq<U64>, lo: int, hi: int)
    requires prices != [] && forall i :: 0 <= i < |prices| ==> prices[i] >= lo
    requires !Majority(prices, lo, hi)
    ensures Median(prices) > hi
  {
    var s := Arrange(prices);
    ArrangeSorts(prices);
    ArrangeCounts(prices, Within(lo, hi));
    var k := |s| / 2;
    if s[k] <= hi {
      forall i | 0 <= i < |s| ensures s[i] >= lo {
        ArrangeMembers(prices, i);
      }
      CountUpTo(s, lo, hi, k);
    }
  }

  lemma {:induction false} ArrangeMembers(prices: seq<U64>, k: nat)
    requires k < |prices|
    ensures |Arrange(prices)| == |prices| && Arrange(prices)[k] in prices
  {
    ArrangeSorts(prices);
    assert Arrange(prices)[k] in multiset(Arrange(prices));
  }

  // ---------------------------------------------------------------------------------------------
  // Outliers and the average

  /** (median / 100) times the configured percentage, saturating. */
  function Tolerance(median: nat, percent: nat): nat {
    Saturate((median / 100) * percent)
  }

  function AbsDiff(a: int, b: int): nat {
    if a < b then b - a else a - b
  }

  predicate IsOutlier(price: int, median: nat, percent: nat) {
    AbsDiff(price, median) > Tolerance(median, percent)
  }

  function Kept(median: nat, percent: nat): int -> bool {
    x => !IsOutlier(x, median, percent)
  }

  function KeptPrices(prices: seq<U64>, median: nat, percent: nat): (r: seq<U64>)
    ensures forall x :: x in r <==> x in prices && !IsOutlier(x, median, percent)
  {
    if prices == [] then []
    else (if IsOutlier(prices[0], median, percent) then [] else [prices[0]]) + KeptPrices(prices[1..], median, percent)
  }

  function Sum(prices: seq<U64>): nat {
    if prices == [] then 0 else prices[0] + Sum(prices[1..])
  }

  function Average(prices: seq<U64>): nat {
    if prices == [] then 0 else Sum(prices) / |prices|
  }

  /** One past the largest number that 128 bits hold. */
  const U128_MODULUS: int := 0x1_0000_0000_0000_0000_0000_0000_0000_0000

  lemma {:induction false} SumFits(prices: seq<U64>, n: nat)
    requires |prices| <= n <= U64_MAX
    ensures Sum(prices) <= |prices| * U64_MAX < U128_MODULUS
  {
    if prices != [] {
      SumFits(prices[1..], n);
    }
  }

  /**
   * `calculate_average`: a sum in a word of 128 bits, divided once and cut down to 64. For any list
   * that 64 bits can index the sum never wraps and nothing is cut off.
   */
  method CalculateAverage(prices: seq<U64>) returns (a: nat)
    requires |prices| <= U64_MAX
    ensures a == Average(prices)
  {
    if prices == [] {
      return 0;
    }
    SumFits(prices, |prices|);
    var sum: nat := 0;
    for i := 0 to |prices|
      invariant sum + Sum(prices[i..]) == Sum(prices)
    {
      assert prices[i..][1..] == prices[i + 1..];
      sum := (sum + prices[i]) % U128_MODULUS;
    }
    AverageBounds(prices, 0, U64_MAX);
    a := (sum / |prices|) % (U64_MAX + 1);
  }

  lemma {:induction false} KeptCounts(prices: seq<U64>, median: nat, percent: nat)
    ensures |KeptPrices(prices, median, percent)| == Count(prices, Kept(median, percent))
    ensures Sum(KeptPrices(prices, median, percent)) == SumOf(prices, Kept(median, percent))
  {
    if prices != [] {
      KeptCounts(prices[1..], median, percent);
      var rest := KeptPrices(prices[1..], median, percent);
      assert ([prices[0]] + rest)[1..] == rest;
      assert [] + rest == rest;
    }
  }

  lemma {:induction false} SumBounds(prices: seq<U64>, lo: int, hi: int)
    requires forall i :: 0 <= i < |prices| ==> lo <= prices[i] <= hi
    ensures lo * |prices| <= Sum(prices) <= hi * |prices|
  {
    if prices != [] {
      SumBounds(prices[1..], lo, hi);
      assert lo * |prices| == lo + lo * |prices[1..]|;
      assert hi * |prices| == hi + hi * |prices[1..]|;
    }
  }

  lemma {:induction false} DivBounds(s: nat, n: nat, lo: int, hi: int)
    requires n > 0 && lo * n <= s <= hi * n
    ensures lo <= s / n <= hi
  {
    var q := s / n;
    assert s == n * q + s % n;
    MulMonotone(q + 1, lo, n);
    MulMonotone(hi + 1, q, n);
  }

  lemma {:induction false} MulMonotone(a: int, b: int, n: nat)
    ensures a <= b ==> a * n <= b * n
  {
  }

  /** The average, rounded down, stays between any bounds on the prices. */
  lemma {:induction false} AverageBounds(prices: seq<U64>, lo: int, hi: int)
    requires prices != []
    requires forall i :: 0 <= i < |prices| ==> lo <= prices[i] <= hi
    ensures lo <= Average(prices) <= hi
  {
    SumBounds(prices, lo, hi);
    DivBounds(Sum(prices), |prices|, lo, hi);
  }

  // ---------------------------------------------------------------------------------------------
  // The consensus price

  function Consensus(prices: seq<U64>, percent: nat): nat {
    MedianIsPrice(prices);
    Average(KeptPrices(prices, Median(prices), percent))
  }

  lemma {:induction false} MedianIsPrice(prices: seq<U64>)
    ensures Median(prices) >= 0
    ensures prices != [] ==> Median(prices) in prices
  {
    if prices != [] {
      ArrangeMembers(prices, |prices| / 2);
    }
  }

  /** The median is never an outlier, so filtering never leaves nothing to average. */
  lemma {:induction false} SomethingIsKept(prices: seq<U64>, percent: nat)
    requires prices != []
    ensures Median(prices) >= 0 && KeptPrices(prices, Median(prices), percent) != []
  {
    MedianIsPrice(prices);
    assert Median(prices) in KeptPrices(prices, Median(prices), percent);
  }

  /** The consensus price is within the tolerance of the median. */
  lemma {:induction false} ConsensusNearMedian(prices: seq<U64>, percent: nat)
    requires prices != []
    ensures Median(prices) >= 0
    ensures AbsDiff(Consensus(prices, percent), Median(prices)) <= Tolerance(Median(prices), percent)
  {
    SomethingIsKept(prices, percent);
    var m := Median(prices);
    var t := Tolerance(m, percent);
    var kept := KeptPrices(prices, m, percent);
    forall i | 0 <= i < |kept| ensures m - t <= kept[i] <= m + t {
      assert kept[i] in kept;
    }
    AverageBounds(kept, m - t, m + t);
  }

  lemma {:induction false} ToleranceMonotone(a: nat, b: nat, percent: nat)
    requires a <= b
    ensures Tolerance(a, percent) <= Tolerance(b, percent)
  {
    MulMonotone(a / 100, b / 100, percent);
  }

  /** Byzantine robustness: whatever the other reports say, a strict majority pins the price. */
  lemma {:induction false} MajorityPinsConsensus(prices: seq<U64>, percent: nat, lo: nat, hi: nat)
    requires Majority(prices, lo, hi)
    ensures lo - Tolerance(hi, percent) <= Consensus(prices, percent) <= hi + Tolerance(hi, percent)
  {
    assert prices != [];
    MajorityPinsMedian(prices, lo, hi);
    ConsensusNearMedian(prices, percent);
    ToleranceMonotone(Median(prices), hi, percent);
  }

  /** If the majority's range is no wider than the tolerance, none of its reports is filtered out. */
  lemma {:induction false} MajorityIsKept(prices: seq<U64>, percent: nat, lo: nat, hi: nat, x: U64)
    requires Majority(prices, lo, hi) && hi - lo <= Tolerance(lo, percent)
    requires lo <= x <= hi
    ensures Median(prices) >= 0 && !IsOutlier(x, Median(prices), percent)
  {
    MajorityPinsMedian(prices, lo, hi);
    ToleranceMonotone(lo, Median(prices), percent);
  }

  /** Neither the median nor the consensus price depends on the order of the reports. */
  lemma {:induction false} OrderDoesNotMatter(a: seq<U64>, b: seq<U64>, percent: nat)
    requires multiset(a) == multiset(b)
    ensures Median(a) == Median(b) >= 0
    ensures Consensus(a, percent) == Consensus(b, percent)
    ensures |KeptPrices(a, Median(a), percent)| == |KeptPrices(b, Median(b), percent)|
  {
    ArrangeSorts(a);
    ArrangeSorts(b);
    SortedIsUnique(Arrange(a), Arrange(b));
    MedianIsPrice(a);
    var m := Median(a);
    ArrangeCounts(a, Kept(m, percent));
    ArrangeCounts(b, Kept(m, percent));
    KeptCounts(a, m, percent);
    KeptCounts(b, m, percent);
  }
}
