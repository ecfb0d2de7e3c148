/**
 * The oracle registry (src/oracle_system.rs): nodes with reputations and fees, pending reports and
 * the aggregation that turns a symbol's reports into a price.
 */
module OracleRegistry {
  import opened Wrappers
  import opened Words
  import opened MapSums
  import opened OraclePrices

  const MAX_PENDING := 10_000
  const MAX_FUTURE_DRIFT_MS := 300_000
  const MAX_PAST_DRIFT_MS := 3_600_000
  const MAX_REPUTATION := 1000

  datatype Report = Report(symbol: string, price: U64, timestamp: U64, source: string, confidence: nat)
  datatype OracleNode = OracleNode(reputation: nat, total: nat, correct: nat, lastUpdate: nat, fees: nat)
  datatype PriceData = PriceData(symbol: string, price: nat, timestamp: nat, sources: nat, confidence: nat)

  datatype Error = AlreadyRegistered | NotRegistered | TooFarInFuture | TooOld | InvalidSignature
                 | NoReports | OracleNotFound | ThresholdTooHigh

  const NEW_NODE := OracleNode(100, 0, 0, 0, 0)

  /** `update_reputation`: +10 up to 1000 for a correct report, -20 down to 0 for a wrong one. */
  function Rated(n: OracleNode, wasCorrect: bool): (r: OracleNode)
    ensures n.reputation <= MAX_REPUTATION ==> r.reputation <= MAX_REPUTATION
    ensures n.correct <= n.total ==> r.correct <= r.total
    ensures wasCorrect && n.reputation <= MAX_REPUTATION ==> n.reputation <= r.reputation
    ensures !wasCorrect ==> r.reputation <= n.reputation
  {
    if wasCorrect then
      n.(total := n.total + 1, correct := n.correct + 1,
         reputation := if n.reputation < 1000 then (if n.reputation + 10 > 1000 then 1000 else n.reputation + 10)
                       else n.reputation)
    else
      n.(total := n.total + 1, reputation := if n.reputation >= 20 then n.reputation - 20 else 0)
  }

  /** What one aggregated report does to its oracle. */
  function Settled(n: OracleNode, wasCorrect: bool, now: nat): OracleNode {
    var r := Rated(n, wasCorrect).(lastUpdate := now);
    if wasCorrect then r.(fees := r.fees + 10) else r
  }

  function SettleAll(nodes: map<string, OracleNode>, reports: seq<Report>, median: nat, percent: nat, now: nat)
    : map<string, OracleNode>
  {
    if reports == [] then nodes
    else
      var before := SettleAll(nodes, reports[..|reports| - 1], median, percent, now);
      var last := reports[|reports| - 1];
      if last.source in before then
        before[last.source := Settled(before[last.source], !IsOutlier(last.price, median, percent), now)]
      else before
  }

  function ReportsFor(pending: seq<Report>, symbol: string): (r: seq<Report>)
    ensures forall x :: x in r <==> x in pending && x.symbol == symbol
    ensures |r| <= |pending|
  {
    if pending == [] then []
    else (if pending[0].symbol == symbol then [pending[0]] else []) + ReportsFor(pending[1..], symbol)
  }

  function ReportsNotFor(pending: seq<Report>, symbol: string): (r: seq<Report>)
    ensures forall x :: x in r <==> x in pending && x.symbol != symbol
    ensures |r| <= |pending|
  {
    if pending == [] then []
    else (if pending[0].symbol != symbol then [pending[0]] else []) + ReportsNotFor(pending[1..], symbol)
  }

  lemma {:induction false} Prepend(x: Report, s: seq<Report>)
    ensures multiset([x] + s) == multiset{x} + multiset(s)
  {
  }

  lemma {:induction false} ReportsSplitAt(pending: seq<Report>, symbol: string, r: Report)
    ensures multiset(ReportsFor(pending, symbol))[r] + multiset(ReportsNotFor(pending, symbol))[r]
         == multiset(pending)[r]
  {
    if pending != [] {
      var (x, rest) := (pending[0], pending[1..]);
      ReportsSplitAt(rest, symbol, r);
      assert pending == [x] + rest;
      Prepend(x, rest);
      if x.symbol == symbol {
        Prepend(x, ReportsFor(rest, symbol));
      } else {
        Prepend(x, ReportsNotFor(rest, symbol));
      }
    }
  }

  /** Each report is either taken into the aggregation or kept pending. */
  lemma {:induction false} ReportsSplit(pending: seq<Report>, symbol: string)
    ensures multiset(ReportsFor(pending, symbol)) + multiset(ReportsNotFor(pending, symbol)) == multiset(pending)
  {
    forall r
      ensures multiset(ReportsFor(pending, symbol))[r] + multiset(ReportsNotFor(pending, symbol))[r]
         == multiset(pending)[r]
    {
      ReportsSplitAt(pending, symbol, r);
    }
  }

  function Prices(reports: seq<Report>): (r: seq<U64>)
    ensures |r| == |reports| && forall i :: 0 <= i < |r| ==> r[i] == reports[i].price
  {
    seq(|reports|, i requires 0 <= i < |reports| => reports[i].price)
  }

  // ---------------------------------------------------------------------------------------------
  // From a majority of oracles to a majority of reports

  /** How many of the reports come from `oracles`, by the sources of the reports. */
  ghost function ReportsFrom(sources: seq<string>, oracles: set<string>): nat {
    if sources == [] then 0
    else ReportsFrom(sources[..|sources| - 1], oracles) + if sources[|sources| - 1] in oracles then 1 else 0
  }

  /** The reports of `oracles` all lie in the range. */
  ghost predicate Honest(sources: seq<string>, prices: seq<U64>, oracles: set<string>, lo: int, hi: int)
    requires |prices| == |sources|
  {
    forall i :: 0 <= i < |sources| && sources[i] in oracles ==> lo <= prices[i] <= hi
  }

  lemma {:induction false} HonestAreCounted(sources: seq<string>, prices: seq<U64>, oracles: set<string>, lo: int,
                                            hi: int)
    requires |prices| == |sources| && Honest(sources, prices, oracles, lo, hi)
    ensures Count(prices, Within(lo, hi)) >= ReportsFrom(sources, oracles)
  {
    if sources != [] {
      var n := |sources| - 1;
      HonestAreCounted(sources[..n], prices[..n], oracles, lo, hi);
      LastCounts(prices, Within(lo, hi));
    }
  }

  /** The lower end of the range from `oracles`, and something above it from everyone else. */
  ghost function Split(sources: seq<string>, oracles: set<string>, lo: U64, above: U64): (prices: seq<U64>)
    ensures |prices| == |sources|
    ensures forall i :: 0 <= i < |sources| ==> prices[i] == if sources[i] in oracles then lo else above
  {
    seq(|sources|, i requires 0 <= i < |sources| => if sources[i] in oracles then lo else above)
  }

  lemma {:induction false} SplitCounts(sources: seq<string>, oracles: set<string>, lo: U64, hi: int, above: U64)
    requires lo <= hi < above
    ensures Count(Split(sources, oracles, lo, above), Within(lo, hi)) == ReportsFrom(sources, oracles)
  {
    if sources != [] {
      var n := |sources| - 1;
      var prices := Split(sources, oracles, lo, above);
      SplitCounts(sources[..n], oracles, lo, hi, above);
      assert prices[..n] == Split(sources[..n], oracles, lo, above);
      LastCounts(prices, Within(lo, hi));
    }
  }

  ghost predicate Pinned(prices: seq<U64>, lo: int, hi: int) {
    lo <= Median(prices) <= hi
  }

  /**
   * Whom a queue makes the median follow: whatever the other oracles report, these keep the median in
   * their range if and only if they filed more than half of the reports.
   */
  lemma {:induction false} OraclesPinMedianExactly(sources: seq<string>, oracles: set<string>, lo: U64, hi: int)
    requires sources != [] && lo <= hi < U64_MAX
    ensures (forall prices: seq<U64> ::
               |prices| == |sources| && Honest(sources, prices, oracles, lo, hi) ==> Pinned(prices, lo, hi))
       <==> 2 * ReportsFrom(sources, oracles) > |sources|
  {
    if 2 * ReportsFrom(sources, oracles) > |sources| {
      forall prices: seq<U64> | |prices| == |sources| && Honest(sources, prices, oracles, lo, hi)
        ensures Pinned(prices, lo, hi)
      {
        HonestAreCounted(sources, prices, oracles, lo, hi);
        MajorityPinsMedian(prices, lo, hi);
      }
    } else {
      var prices := Split(sources, oracles, lo, hi + 1);
      SplitCounts(sources, oracles, lo, hi, hi + 1);
      HalfDoesNotPinMedian(prices, lo, hi);
      assert Honest(sources, prices, oracles, lo, hi) && !Pinned(prices, lo, hi);
    }
  }

  function SourcesOf(reports: seq<Report>): (s: seq<string>)
    ensures |s| == |reports| && forall i :: 0 <= i < |s| ==> s[i] == reports[i].source
  {
    seq(|reports|, i requires 0 <= i < |reports| => reports[i].source)
  }

  /** In particular for the reports of an aggregation. */
  lemma {:induction false} AggregationFollows(reports: seq<Report>, oracles: set<string>, lo: U64, hi: int)
    requires reports != [] && lo <= hi < U64_MAX && 2 * ReportsFrom(SourcesOf(reports), oracles) > |reports|
    requires forall i :: 0 <= i < |reports| && reports[i].source in oracles ==> lo <= reports[i].price <= hi
    ensures Pinned(Prices(reports), lo, hi)
  {
    assert Honest(SourcesOf(reports), Prices(reports), oracles, lo, hi);
    OraclesPinMedianExactly(SourcesOf(reports), oracles, lo, hi);
  }

  ghost predicate OneReportEach(sources: seq<string>) {
    forall i, j :: 0 <= i < j < |sources| ==> sources[i] != sources[j]
  }

  /** The oracles behind the reports. */
  ghost function Reporting(sources: seq<string>): set<string> {
    if sources == [] then {} else Reporting(sources[..|sources| - 1]) + {sources[|sources| - 1]}
  }

  lemma {:induction false} NotReporting(sources: seq<string>, oracle: string)
    requires forall i :: 0 <= i < |sources| ==> sources[i] != oracle
    ensures oracle !in Reporting(sources)
  {
    if sources != [] {
      NotReporting(sources[..|sources| - 1], oracle);
    }
  }

  /** With one report from each oracle, as many reports come from some of them as they are. */
  lemma {:induction false} DistinctReports(sources: seq<string>, oracles: set<string>)
    requires OneReportEach(sources) && oracles <= Reporting(sources)
    ensures ReportsFrom(sources, oracles) == |oracles|
  {
    if sources != [] {
      var n := |sources| - 1;
      NotReporting(sources[..n], sources[n]);
      DistinctReports(sources[..n], oracles - {sources[n]});
      OthersReport(sources[..n], oracles, sources[n]);
    }
  }

  lemma {:induction false} OthersReport(sources: seq<string>, oracles: set<string>, oracle: string)
    requires forall i :: 0 <= i < |sources| ==> sources[i] != oracle
    ensures ReportsFrom(sources, oracles - {oracle}) == ReportsFrom(sources, oracles)
  {
    if sources != [] {
      OthersReport(sources[..|sources| - 1], oracles, oracle);
    }
  }

  lemma {:induction false} AllReport(sources: seq<string>, oracles: set<string>)
    requires Reporting(sources) <= oracles
    ensures ReportsFrom(sources, oracles) == |sources|
  {
    if sources != [] {
      AllReport(sources[..|sources| - 1], oracles);
    }
  }

  /** With one report from each oracle, the oracles that pin the median are the majorities of them. */
  lemma {:induction false} OracleMajorityPinsMedian(sources: seq<string>, oracles: set<string>, lo: U64, hi: int)
    requires sources != [] && lo <= hi < U64_MAX && OneReportEach(sources) && oracles <= Reporting(sources)
    ensures (forall prices: seq<U64> ::
               |prices| == |sources| && Honest(sources, prices, oracles, lo, hi) ==> Pinned(prices, lo, hi))
       <==> 2 * |oracles| > |Reporting(sources)|
  {
    DistinctReports(sources, oracles);
    DistinctReports(sources, Reporting(sources));
    AllReport(sources, Reporting(sources));
    OraclesPinMedianExactly(sources, oracles, lo, hi);
  }

  lemma {:induction false} OneMoreReport(sources: seq<string>, source: string, oracles: set<string>)
    ensures ReportsFrom(sources + [source], oracles)
            == ReportsFrom(sources, oracles) + if source in oracles then 1 else 0
    ensures Reporting(sources + [source]) == Reporting(sources) + {source}
  {
    assert (sources + [source])[..|sources|] == sources;
  }

  /** The queue takes any number of reports from one oracle; two from one of three outdo the other two. */
  lemma {:induction false} RepeatedReportsMoveMedian(a: string, b: string, c: string, lo: U64, hi: int)
    requires a != b && b != c && c != a && lo <= hi < U64_MAX
    ensures Reporting([a, b, c, c]) == {a, b, c}
    ensures exists prices: seq<U64> ::
              |prices| == 4 && Honest([a, b, c, c], prices, {a, b}, lo, hi) && !Pinned(prices, lo, hi)
  {
    OneMoreReport([], a, {a, b});
    OneMoreReport([a], b, {a, b});
    OneMoreReport([a, b], c, {a, b});
    OneMoreReport([a, b, c], c, {a, b});
    assert [] + [a] == [a] && [a] + [b] == [a, b];
    assert [a, b] + [c] == [a, b, c] && [a, b, c] + [c] == [a, b, c, c];
    OraclesPinMedianExactly([a, b, c, c], {a, b}, lo, hi);
  }

  // ---------------------------------------------------------------------------------------------
  // What an aggregation adds up to

  function TotalReports(): OracleNode -> nat { (n: OracleNode) => n.total }
  function CorrectReports(): OracleNode -> nat { (n: OracleNode) => n.correct }
  function Fees(): OracleNode -> nat { (n: OracleNode) => n.fees }

  lemma {:induction false} KeptLast(prices: seq<U64>, median: nat, percent: nat)
    requires prices != []
    ensures |KeptPrices(prices, median, percent)|
         == |KeptPrices(prices[..|prices| - 1], median, percent)|
            + if IsOutlier(prices[|prices| - 1], median, percent) then 0 else 1
  {
    KeptCounts(prices, median, percent);
    KeptCounts(prices[..|prices| - 1], median, percent);
    LastCounts(prices, Kept(median, percent));
  }

  lemma {:induction false} SettleKeepsNodes(nodes: map<string, OracleNode>, reports: seq<Report>, median: nat,
                                            percent: nat, now: nat)
    requires forall id :: id in nodes ==> NodeInv(nodes[id])
    ensures SettleAll(nodes, reports, median, percent, now).Keys == nodes.Keys
    ensures forall id :: id in nodes ==> NodeInv(SettleAll(nodes, reports, median, percent, now)[id])
  {
    if reports != [] {
      SettleKeepsNodes(nodes, reports[..|reports| - 1], median, percent, now);
    }
  }

  lemma {:induction false} SettleOneAccounts(nodes: map<string, OracleNode>, id: string, wasCorrect: bool, now: nat)
    requires id in nodes
    ensures var after := nodes[id := Settled(nodes[id], wasCorrect, now)];
            && SumBy(after, TotalReports()) == SumBy(nodes, TotalReports()) + 1
            && SumBy(after, CorrectReports()) == SumBy(nodes, CorrectReports()) + (if wasCorrect then 1 else 0)
            && SumBy(after, Fees()) == SumBy(nodes, Fees()) + (if wasCorrect then 10 else 0)
  {
    var node := Settled(nodes[id], wasCorrect, now);
    SumUpdate(nodes, TotalReports(), id, node);
    SumUpdate(nodes, CorrectReports(), id, node);
    SumUpdate(nodes, Fees(), id, node);
  }

  /** Between two node tables: `reports` more reports, `kept` more of them correct, 10 more in fees for each. */
  ghost predicate Accounted(before: map<string, OracleNode>, after: map<string, OracleNode>, reports: nat, kept: nat) {
    && after.Keys == before.Keys
    && SumBy(after, TotalReports()) == SumBy(before, TotalReports()) + reports
    && SumBy(after, CorrectReports()) == SumBy(before, CorrectReports()) + kept
    && SumBy(after, Fees()) == SumBy(before, Fees()) + 10 * kept
  }

  lemma {:induction false} AccountedOneMore(before: map<string, OracleNode>, mid: map<string, OracleNode>,
                                            reports: nat, kept: nat, id: string, wasCorrect: bool, now: nat)
    requires Accounted(before, mid, reports, kept) && id in mid
    ensures Accounted(before, mid[id := Settled(mid[id], wasCorrect, now)], reports + 1,
                      kept + if wasCorrect then 1 else 0)
  {
    SettleOneAccounts(mid, id, wasCorrect, now);
  }

  /**
   * Conservation over an aggregation: every report is counted once, exactly the kept ones count as
   * correct, and each of those pays a fee of 10.
   */
  lemma {:induction false} SettleAccounts(nodes: map<string, OracleNode>, reports: seq<Report>, median: nat,
                                          percent: nat, now: nat)
    requires forall i :: 0 <= i < |reports| ==> reports[i].source in nodes
    ensures Accounted(nodes, SettleAll(nodes, reports, median, percent, now), |reports|,
                      |KeptPrices(Prices(reports), median, percent)|)
  {
    if reports != [] {
      var n := |reports| - 1;
      SettleAccounts(nodes, reports[..n], median, percent, now);
      assert Prices(reports)[..n] == Prices(reports[..n]);
      KeptLast(Prices(reports), median, percent);
      AccountedOneMore(nodes, SettleAll(nodes, reports[..n], median, percent, now), n,
                       |KeptPrices(Prices(reports[..n]), median, percent)|,
                       reports[n].source, !IsOutlier(reports[n].price, median, percent), now);
    }
  }

  function PercentOf(part: nat, whole: nat): nat
    requires whole > 0
  {
    (part * 100) / whole
  }

  /** The price data published for some reports. */
  ghost function Published(symbol: string, prices: seq<U64>, percent: nat, now: nat): PriceData
    requires prices != []
  {
    MedianIsPrice(prices);
    var kept := |KeptPrices(prices, Median(prices), percent)|;
    PriceData(symbol, Consensus(prices, percent), now, kept, PercentOf(kept, |prices|))
  }

  /** Median, filter, average and agreement; there is always something left after the filter. */
  method Evaluate(symbol: string, prices: seq<U64>, percent: nat, now: nat) returns (median: nat, data: PriceData)
    requires 0 < |prices| <= U64_MAX
    ensures median == Median(prices) && data == Published(symbol, prices, percent, now)
    ensures 0 < data.sources <= |prices| && data.confidence <= 100
  {
    MedianIsPrice(prices);
    median := CalculateMedian(prices);
    SomethingIsKept(prices, percent);
    KeptCounts(prices, median, percent);
    CountBelowLength(prices, Kept(median, percent));
    var valid := KeptPrices(prices, median, percent);
    if valid == [] {
      assert false;
    }
    var price := CalculateAverage(valid);
    var agreement := PercentOf(|valid|, |prices|);
    Percentage(|valid|, |prices|);
    var confidence := if agreement % 256 < 100 then agreement % 256 else 100;
    data := PriceData(symbol, price, now, |valid|, confidence);
  }

  ghost predicate NodeInv(n: OracleNode) {
    n.reputation <= MAX_REPUTATION && n.correct <= n.total
  }

  ghost predicate SourcesKnown(reports: seq<Report>, nodes: map<string, OracleNode>) {
    forall i :: 0 <= i < |reports| ==> reports[i].source in nodes
  }

  lemma {:induction false} RestSourcesKnown(pending: seq<Report>, symbol: string, nodes: map<string, OracleNode>)
    requires SourcesKnown(pending, nodes)
    ensures SourcesKnown(ReportsNotFor(pending, symbol), nodes)
  {
    var rest := ReportsNotFor(pending, symbol);
    forall i | 0 <= i < |rest| ensures rest[i].source in nodes {
      assert rest[i] in pending;
    }
  }

  class Registry {
    var nodes: map<string, OracleNode>
    var priceCache: map<string, PriceData>
    var pending: seq<Report>
    var outlierPercent: nat

    /** Holds after the constructor and is kept by every method. */
    ghost predicate Valid()
      reads this
    {
      && (forall id :: id in nodes ==> NodeInv(nodes[id]))
      && SourcesKnown(pending, nodes)
      && |pending| <= MAX_PENDING
      && outlierPercent <= 100
    }

    constructor ()
      ensures Valid() && nodes == map[] && priceCache == map[] && pending == [] && outlierPercent == 10
    {
      nodes, priceCache, pending, outlierPercent := map[], map[], [], 10;
    }

    method RegisterOracle(id: string) returns (r: Result<(), Error>)
      requires Valid()
      modifies this
      ensures Valid() && unchanged(`priceCache, `pending, `outlierPercent)
      ensures if id in old(nodes) then r == Err(AlreadyRegistered) && nodes == old(nodes)
              else r == Ok(()) && nodes == old(nodes)[id := NEW_NODE]
    {
      if id in nodes {
        return Err(AlreadyRegistered);
      }
      nodes := nodes[id := NEW_NODE];
      return Ok(());
    }

    /** Reports are queued in order; beyond 10,000 the oldest is dropped. */
    method SubmitPriceReport(report: Report, now: nat, signatureValid: bool) returns (r: Result<(), Error>)
      requires Valid()
      modifies this`pending
      ensures Valid()
      ensures r.Ok? <==>
        && report.source in nodes && signatureValid
        && report.timestamp <= now + MAX_FUTURE_DRIFT_MS && now <= report.timestamp + MAX_PAST_DRIFT_MS
      ensures r.Err? ==> pending == old(pending)
      ensures r.Ok? ==> pending == (if |old(pending)| < MAX_PENDING then old(pending) else old(pending)[1..]) + [report]
    {
      if report.source !in nodes {
        return Err(NotRegistered);
      }
      if report.timestamp > now && report.timestamp - now > MAX_FUTURE_DRIFT_MS {
        return Err(TooFarInFuture);
      }
      if now > report.timestamp && now - report.timestamp > MAX_PAST_DRIFT_MS {
        return Err(TooOld);
      }
      if !signatureValid {
        return Err(InvalidSignature);
      }
      if |pending| >= MAX_PENDING {
        pending := pending[1..];
      }
      pending := pending + [report];
      return Ok(());
    }

    /** Settle each report with its oracle, in order. */
    method SettleReports(reports: seq<Report>, median: nat, now: nat)
      requires Valid()
      modifies this`nodes
      ensures nodes == SettleAll(old(nodes), reports, median, outlierPercent, now)
      ensures Valid()
    {
      for i := 0 to |reports|
        invariant nodes == SettleAll(old(nodes), reports[..i], median, outlierPercent, now)
      {
        var report := reports[i];
        assert reports[..i + 1][..i] == reports[..i];
        if report.source in nodes {
          var wasCorrect := !IsOutlier(report.price, median, outlierPercent);
          var node := Rated(nodes[report.source], wasCorrect).(lastUpdate := now);
          if wasCorrect {
            node := node.(fees := node.fees + 10);
          }
          nodes := nodes[report.source := node];
        }
      }
      assert reports[..|reports|] == reports;
      SettleKeepsNodes(old(nodes), reports, median, outlierPercent, now);
    }

    /**
     * `aggregate_reports`. It fails only when there is nothing to aggregate; otherwise the price is
     * the consensus price of the reports, whatever they are, and only they leave the queue.
     */
    method AggregateReports(symbol: string, now: nat) returns (r: Result<PriceData, Error>)
      requires Valid()
      modifies this`nodes, this`priceCache, this`pending
      ensures Valid()
      ensures ReportsFor(old(pending), symbol) == [] ==>
                r == Err(NoReports) && nodes == old(nodes) && priceCache == old(priceCache) && pending == old(pending)
      ensures ReportsFor(old(pending), symbol) != [] ==>
                var reports := ReportsFor(old(pending), symbol);
                && Median(Prices(reports)) >= 0
                && r == Ok(Published(symbol, Prices(reports), outlierPercent, now))
                && nodes == SettleAll(old(nodes), reports, Median(Prices(reports)), outlierPercent, now)
                && priceCache == old(priceCache)[symbol := r.value]
                && pending == ReportsNotFor(old(pending), symbol)
    {
      var reports := ReportsFor(pending, symbol);
      if reports == [] {
        return Err(NoReports);
      }
      var median, data := Evaluate(symbol, Prices(reports), outlierPercent, now);
      SettleReports(reports, median, now);
      priceCache := priceCache[symbol := data];
      RestSourcesKnown(pending, symbol, nodes);
      pending := ReportsNotFor(pending, symbol);
      return Ok(data);
    }

    method PenalizeOracle(id: string, amount: nat) returns (r: Result<(), Error>)
      requires Valid()
      modifies this`nodes
      ensures Valid()
      ensures r.Ok? <==> id in old(nodes)
      ensures nodes == if id in old(nodes)
                       then old(nodes)[id := old(nodes)[id].(reputation :=
                               SaturatingSub(old(nodes)[id].reputation, amount))]
                       else old(nodes)
    {
      if id !in nodes {
        return Err(OracleNotFound);
      }
      var n := nodes[id];
      nodes := nodes[id := n.(reputation := if n.reputation >= amount then n.reputation - amount else 0)];
      return Ok(());
    }

    method RewardOracle(id: string, reward: nat) returns (r: Result<(), Error>)
      requires Valid()
      modifies this`nodes
      ensures Valid()
      ensures r.Ok? <==> id in old(nodes)
      ensures id !in old(nodes) ==> nodes == old(nodes)
      ensures id in old(nodes) ==>
                var n := old(nodes)[id];
                var rep := n.reputation + reward / 10;
                nodes == old(nodes)[id := n.(fees := n.fees + reward, reputation := if rep > 1000 then 1000 else rep)]
    {
      if id !in nodes {
        return Err(OracleNotFound);
      }
      var n := nodes[id].(fees := nodes[id].fees + reward);
      if n.reputation < 1000 {
        n := n.(reputation := n.reputation + reward / 10);
        if n.reputation > 1000 {
          n := n.(reputation := 1000);
        }
      }
      nodes := nodes[id := n];
      return Ok(());
    }

    method SetOutlierThreshold(percent: nat) returns (r: Result<(), Error>)
      requires Valid()
      modifies this`outlierPercent
      ensures Valid()
      ensures r.Ok? <==> percent <= 100
      ensures outlierPercent == if percent <= 100 then percent else old(outlierPercent)
    {
      if percent > 100 {
        return Err(ThresholdTooHigh);
      }
      outlierPercent := percent;
      return Ok(());
    }
  }

  lemma {:induction false} Percentage(part: nat, whole: nat)
    requires part <= whole && whole > 0
    ensures PercentOf(part, whole) <= 100
  {
    DivBounds(part * 100, whole, 0, 100);
  }
}
