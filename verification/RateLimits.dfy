/**
 * The two rate limiters: `RateLimiter` of src/contract_validation.rs and the per-address request
 * limiter of src/middleware.rs with its table of addresses.
 *
 * Each object carries the times it has accepted as ghost history. The invariants say that the
 * history is spaced, which by `SlidingWindow.SpacedMeansLimited` is the promised limit on every
 * window, over every run of the object.
 */
module RateLimits {
  import opened Words
  import opened SlidingWindow

  function Times(ops: seq<(int, string)>): (r: seq<int>)
    ensures |r| == |ops| && forall i :: 0 <= i < |ops| ==> r[i] == ops[i].0
  {
    seq(|ops|, i requires 0 <= i < |ops| => ops[i].0)
  }

  lemma {:induction false} TimesAppend(ops: seq<(int, string)>, now: int, op: string)
    ensures Times(ops + [(now, op)]) == Times(ops) + [now]
  {
  }

  /** Operations later than a cutoff, as `retain` keeps them. */
  function Retain(ops: seq<(int, string)>, cutoff: int): (r: seq<(int, string)>)
    ensures Times(r) == After(Times(ops), cutoff)
  {
    if ops == [] then []
    else
      var n := |ops| - 1;
      assert Times(ops)[..n] == Times(ops[..n]);
      Retain(ops[..n], cutoff) + if ops[n].0 > cutoff then [ops[n]] else []
  }

  /** The history is spaced, and what is remembered of it suffices for the window that ends now. */
  ghost predicate LimiterInv(times: seq<int>, history: seq<int>, clock: int, limit: nat, period: nat) {
    && Ascending(history) && Spaced(history, limit, period)
    && Remembers(times, history, SaturatingSub(clock, period))
    && (forall i :: 0 <= i < |history| ==> 0 < history[i] <= clock)
    && clock >= 0
  }

  lemma {:induction false} PositiveAfter(h: seq<int>, cutoff: int)
    requires forall i :: 0 <= i < |h| ==> 0 < h[i]
    ensures CountAfter(h, cutoff) == CountAfter(h, if cutoff < 0 then 0 else cutoff)
  {
    assert PositionsAfter(h, cutoff) == PositionsAfter(h, if cutoff < 0 then 0 else cutoff);
  }

  /** Forgetting what is older than a period leaves as many times as were accepted in the window. */
  lemma {:induction false} ForgetKeepsInv(times: seq<int>, history: seq<int>, clock: int, limit: nat, period: nat,
                                          now: int)
    requires LimiterInv(times, history, clock, limit, period) && clock <= now
    ensures LimiterInv(After(times, SaturatingSub(now, period)), history, now, limit, period)
    ensures |After(times, SaturatingSub(now, period))| == CountAfter(history, now - period)
  {
    RetainRemembers(times, history, SaturatingSub(clock, period), SaturatingSub(now, period));
    PositiveAfter(history, now - period);
  }

  lemma {:induction false} AcceptKeepsInv(times: seq<int>, history: seq<int>, limit: nat, period: nat, now: int)
    requires LimiterInv(times, history, now, limit, period) && 0 < now
    requires CountAfter(history, now - period) < limit
    ensures LimiterInv(times + [now], history + [now], now, limit, period)
  {
    AcceptKeepsSpaced(history, now, limit, period, now - period);
    RecordRemembers(times, history, SaturatingSub(now, period), SaturatingSub(now, period), now);
  }

  // ---------------------------------------------------------------------------------------------
  // Runs of the operation limiter

  /** The times still remembered and all the times accepted. */
  datatype Limiter = Limiter(times: seq<int>, history: seq<int>)

  function Admit(s: Limiter, limit: nat, period: nat, now: nat): Limiter {
    var kept := After(s.times, SaturatingSub(now, period));
    if |kept| < limit then Limiter(kept + [now], s.history + [now]) else Limiter(kept, s.history)
  }

  function RunOf(times: seq<nat>, limit: nat, period: nat): Limiter {
    if times == [] then Limiter([], [])
    else Admit(RunOf(times[..|times| - 1], limit, period), limit, period, times[|times| - 1])
  }

  /** Times that do not decrease, from `start` on. */
  ghost predicate RunsFrom(times: seq<nat>, start: nat) {
    forall i :: 0 <= i < |times| ==> start <= times[i] && (i > 0 ==> times[i - 1] <= times[i])
  }

  ghost predicate Promise(times: seq<nat>, limit: nat, period: nat) {
    Limited(RunOf(times, limit, period).history, limit, period)
  }

  lemma {:induction false} AdmitKeepsInv(s: Limiter, clock: int, limit: nat, period: nat, now: nat)
    requires LimiterInv(s.times, s.history, clock, limit, period) && clock <= now && 0 < now
    ensures var s' := Admit(s, limit, period, now); LimiterInv(s'.times, s'.history, now, limit, period)
    ensures |After(s.times, SaturatingSub(now, period))| == CountAfter(s.history, now - period)
  {
    ForgetKeepsInv(s.times, s.history, clock, limit, period, now);
    var kept := After(s.times, SaturatingSub(now, period));
    if |kept| < limit {
      AcceptKeepsInv(kept, s.history, limit, period, now);
    }
  }

  lemma {:induction false} RunKeepsInv(times: seq<nat>, limit: nat, period: nat)
    requires RunsFrom(times, 1)
    ensures var s := RunOf(times, limit, period);
            LimiterInv(s.times, s.history, if times == [] then 0 else times[|times| - 1], limit, period)
  {
    if times != [] {
      var front := times[..|times| - 1];
      RunKeepsInv(front, limit, period);
      AdmitKeepsInv(RunOf(front, limit, period), if front == [] then 0 else front[|front| - 1],
                    limit, period, times[|times| - 1]);
    }
  }

  function Zeros(n: nat): seq<nat> {
    seq(n, _ => 0)
  }

  /** At time zero nothing is remembered, so everything is accepted. */
  lemma {:induction false} ZerosAreAccepted(n: nat, limit: nat, period: nat)
    requires limit > 0
    ensures RunOf(Zeros(n), limit, period).history == Zeros(n)
    ensures forall i :: 0 <= i < |RunOf(Zeros(n), limit, period).times| ==> RunOf(Zeros(n), limit, period).times[i] == 0
  {
    if n > 0 {
      ZerosAreAccepted(n - 1, limit, period);
      assert Zeros(n)[..n - 1] == Zeros(n - 1);
      CountNone(RunOf(Zeros(n - 1), limit, period).times, 0);
      assert After(RunOf(Zeros(n - 1), limit, period).times, SaturatingSub(0, period)) == [];
    }
  }

  lemma {:induction false} NothingInEmptyWindow(h: seq<int>, end: int)
    ensures InWindow(h, end, 0) == 0
  {
    if h != [] {
      NothingInEmptyWindow(h[..|h| - 1], end);
    }
  }

  lemma {:induction false} LimitZeroAcceptsNothing(times: seq<nat>, period: nat)
    ensures RunOf(times, 0, period).history == []
  {
    if times != [] {
      LimitZeroAcceptsNothing(times[..|times| - 1], period);
    }
  }

  /** At time zero the limit is exceeded by as much as one likes: here by one. */
  lemma {:induction false} TimeZeroIsUnlimited(limit: nat, period: nat)
    requires limit > 0 && period > 0
    ensures RunsFrom(Zeros(limit + 1), 0) && !Promise(Zeros(limit + 1), limit, period)
  {
    ZerosAreAccepted(limit + 1, limit, period);
    AllInWindow(Zeros(limit + 1), 0, period);
    assert InWindow(RunOf(Zeros(limit + 1), limit, period).history, 0, period) == limit + 1;
  }

  /**
   * When the promise holds: every run that starts no earlier than `start` keeps every window within
   * the limit, exactly when the start is after time zero, or the limit or the period is zero.
   */
  lemma {:induction false} PromiseHoldsExactly(start: nat, limit: nat, period: nat)
    ensures (forall times: seq<nat> :: RunsFrom(times, start) ==> Promise(times, limit, period))
            <==> start > 0 || limit == 0 || period == 0
  {
    if start > 0 || limit == 0 || period == 0 {
      forall times: seq<nat> | RunsFrom(times, start) ensures Promise(times, limit, period) {
        var s := RunOf(times, limit, period);
        if period == 0 {
          forall end ensures InWindow(s.history, end, period) <= limit {
            NothingInEmptyWindow(s.history, end);
          }
        } else if limit == 0 {
          LimitZeroAcceptsNothing(times, period);
        } else {
          RunKeepsInv(times, limit, period);
          SpacedExactly(s.history, limit, period);
        }
      }
    } else {
      TimeZeroIsUnlimited(limit, period);
    }
  }

  /** After time zero, what is remembered in the window is what was accepted in it. */
  lemma {:induction false} WindowIsRemembered(times: seq<nat>, limit: nat, period: nat, now: nat)
    requires RunsFrom(times, 1) && (times != [] ==> times[|times| - 1] <= now)
    ensures var s := RunOf(times, limit, period);
            |After(s.times, SaturatingSub(now, period))| == CountAfter(s.history, now - period)
  {
    RunKeepsInv(times, limit, period);
    var s := RunOf(times, limit, period);
    ForgetKeepsInv(s.times, s.history, if times == [] then 0 else times[|times| - 1], limit, period, now);
  }

  class RateLimiter {
    const limit: nat
    const period: nat
    var operations: seq<(int, string)>
    ghost var history: seq<int>
    ghost var run: seq<nat>

    ghost function View(): Limiter
      reads this
    {
      Limiter(Times(operations), history)
    }

    /** The object is where its run of requests has led it. */
    ghost predicate Valid()
      reads this
    {
      View() == RunOf(run, limit, period)
    }

    constructor (limit: nat, period: nat)
      ensures Valid() && history == [] && run == [] && this.limit == limit && this.period == period
    {
      this.limit, this.period := limit, period;
      operations, history, run := [], [], [];
    }

    /** Accepted exactly when fewer than the limit are remembered in the window, and then recorded. */
    method CheckAndRecord(op: string, now: nat) returns (ok: bool)
      requires Valid()
      modifies this
      ensures Valid() && run == old(run) + [now]
      ensures ok <==> |After(old(Times(operations)), SaturatingSub(now, period))| < limit
      ensures history == if ok then old(history) + [now] else old(history)
    {
      ghost var before := View();
      operations := Retain(operations, SaturatingSub(now, period));
      ok := |operations| < limit;
      if ok {
        TimesAppend(operations, now, op);
        operations := operations + [(now, op)];
        history := history + [now];
      }
      assert View() == Admit(before, limit, period, now);
      run := run + [now];
      assert run[..|run| - 1] == old(run);
    }

    method CurrentCount(now: nat) returns (count: nat)
      ensures count == |After(Times(operations), SaturatingSub(now, period))|
    {
      count := |Retain(operations, SaturatingSub(now, period))|;
    }

    /** After time zero the count is the number of operations accepted in the window. */
    lemma {:induction false} CountIsAccepted(now: nat)
      requires Valid() && RunsFrom(run, 1) && (run != [] ==> run[|run| - 1] <= now)
      ensures |After(Times(operations), SaturatingSub(now, period))| == CountAfter(history, now - period)
    {
      WindowIsRemembered(run, limit, period, now);
    }

    /** The promise, for every window of one period. */
    lemma {:induction false} LimitHolds(end: int)
      requires Valid() && RunsFrom(run, 1)
      ensures InWindow(history, end, period) <= limit
    {
      PromiseHoldsExactly(1, limit, period);
      assert Promise(run, limit, period);
    }
  }

  // ---------------------------------------------------------------------------------------------
  // Requests by address

  const SECOND: nat := 1_000_000_000
  const MINUTE: nat := 60 * SECOND
  const HOUR: nat := 3600 * SECOND
  const STALE: nat := 120 * SECOND
  const MAX_TRACKED := 50_000

  datatype Config = Config(perSecond: nat, perMinute: nat, perHour: nat)
  datatype Info = Info(minute: seq<int>, hour: seq<int>)

  /** The clock readings of one request: eviction, strict check, clean-up, recording. */
  datatype Readings = Readings(evict: int, strict: int, clean: int, record: int) {
    predicate Ordered() { evict <= strict <= clean <= record }
  }

  const UNSEEN := Info([], [])

  /** `check_limit_strict`, which goes on to `check_limit`. */
  function Check(info: Info, c: Config, t: Readings): (Info, bool) {
    if |After(info.minute, t.strict - SECOND)| >= c.perSecond then (info, false)
    else
      var cleaned := Info(After(info.minute, t.clean - MINUTE), After(info.hour, t.clean - HOUR));
      if |cleaned.minute| >= c.perMinute || |cleaned.hour| >= c.perHour then (cleaned, false)
      else (Info(cleaned.minute + [t.record], cleaned.hour + [t.record]), true)
  }

  /** The same, step by step: refuse a burst, drop what is old, refuse a full window, record. */
  method CheckLimit(info: Info, c: Config, t: Readings) returns (info': Info, ok: bool)
    ensures (info', ok) == Check(info, c, t)
  {
    info' := info;
    if |After(info.minute, t.strict - SECOND)| >= c.perSecond {
      return info, false;
    }
    info' := info'.(minute := After(info'.minute, t.clean - MINUTE));
    info' := info'.(hour := After(info'.hour, t.clean - HOUR));
    if |info'.minute| >= c.perMinute {
      return info', false;
    }
    if |info'.hour| >= c.perHour {
      return info', false;
    }
    info' := info'.(minute := info'.minute + [t.record]);
    info' := info'.(hour := info'.hour + [t.record]);
    ok := true;
  }

  /** Whether the eviction keeps an address: its last request is less than two minutes old. */
  predicate IsFresh(info: Info, now: int) {
    info.minute != [] && info.minute[|info.minute| - 1] > now - STALE
  }

  ghost predicate UpTo(h: seq<int>, clock: int) {
    Ascending(h) && forall i :: 0 <= i < |h| ==> h[i] <= clock
  }

  /** The accepted requests of one address meet the limits, and enough of them is remembered. */
  ghost predicate AddressInv(minute: seq<int>, h: seq<int>, clock: int, c: Config) {
    && UpTo(h, clock) && UpTo(minute, clock)
    && Spaced(h, c.perSecond, SECOND) && Spaced(h, c.perMinute, MINUTE)
    && Remembers(minute, h, clock - MINUTE)
  }

  /** The hourly limit, and enough of the accepted times to keep it. */
  ghost predicate HourInv(hour: seq<int>, h: seq<int>, clock: int, c: Config) {
    Spaced(h, c.perHour, HOUR) && Remembers(hour, h, clock - HOUR)
  }

  lemma {:induction false} AfterAscending(h: seq<int>, cutoff: int, bound: int)
    requires UpTo(h, bound)
    ensures UpTo(After(h, cutoff), bound)
  {
    if h != [] {
      AfterAscending(h[..|h| - 1], cutoff, h[|h| - 1]);
    }
  }

  lemma {:induction false} UpToAppend(h: seq<int>, clock: int, now: int)
    requires UpTo(h, clock) && clock <= now
    ensures UpTo(h, now) && UpTo(h + [now], now)
  {
  }

  lemma {:induction false} ClockAdvances(minute: seq<int>, h: seq<int>, clock: int, now: int, c: Config)
    requires AddressInv(minute, h, clock, c) && clock <= now
    ensures AddressInv(minute, h, now, c)
  {
  }

  lemma {:induction false} CleanKeepsInv(minute: seq<int>, h: seq<int>, clock: int, c: Config, now: int)
    requires AddressInv(minute, h, clock, c) && clock <= now
    ensures AddressInv(After(minute, now - MINUTE), h, now, c)
    ensures |After(minute, now - MINUTE)| == CountAfter(h, now - MINUTE)
  {
    RetainRemembers(minute, h, clock - MINUTE, now - MINUTE);
    AfterAscending(minute, now - MINUTE, clock);
  }

  lemma {:induction false} RecordKeepsInv(minute: seq<int>, h: seq<int>, clean: int, c: Config, strict: int, now: int)
    requires AddressInv(minute, h, clean, c) && strict <= clean <= now
    requires CountAfter(h, strict - SECOND) < c.perSecond && CountAfter(h, clean - MINUTE) < c.perMinute
    ensures AddressInv(minute + [now], h + [now], now, c)
  {
    AcceptKeepsSpaced(h, now, c.perSecond, SECOND, strict - SECOND);
    AcceptKeepsSpaced(h, now, c.perMinute, MINUTE, clean - MINUTE);
    RecordRemembers(minute, h, clean - MINUTE, now - MINUTE, now);
    UpToAppend(h, clean, now);
    UpToAppend(minute, clean, now);
  }

  /** A checked request keeps the limits per second and per minute. */
  lemma {:induction false} CheckKeepsInv(info: Info, h: seq<int>, clock: int, c: Config, t: Readings)
    requires AddressInv(info.minute, h, clock, c) && clock <= t.strict && t.Ordered()
    ensures var (info', ok) := Check(info, c, t);
            AddressInv(info'.minute, if ok then h + [t.record] else h, t.record, c)
  {
    CleanKeepsInv(info.minute, h, clock, c, t.clean);
    ClockAdvances(info.minute, h, clock, t.record, c);
    ClockAdvances(After(info.minute, t.clean - MINUTE), h, t.clean, t.record, c);
    if Check(info, c, t).1 {
      RecordKeepsInv(After(info.minute, t.clean - MINUTE), h, t.clean, c, t.strict, t.record);
    }
  }

  lemma {:induction false} HourClockAdvances(hour: seq<int>, h: seq<int>, clock: int, now: int, c: Config)
    requires HourInv(hour, h, clock, c) && clock <= now
    ensures HourInv(hour, h, now, c)
  {
  }

  lemma {:induction false} HourClean(hour: seq<int>, h: seq<int>, clock: int, now: int, c: Config)
    requires HourInv(hour, h, clock, c) && clock <= now
    ensures HourInv(After(hour, now - HOUR), h, now, c)
    ensures |After(hour, now - HOUR)| == CountAfter(h, now - HOUR)
  {
    RetainRemembers(hour, h, clock - HOUR, now - HOUR);
  }

  lemma {:induction false} AcceptHour(hour: seq<int>, h: seq<int>, c: Config, clean: int, now: int)
    requires Ascending(h) && HourInv(hour, h, clean, c) && clean <= now
    requires CountAfter(h, clean - HOUR) < c.perHour
    ensures HourInv(hour + [now], h + [now], now, c)
  {
    AcceptKeepsSpaced(h, now, c.perHour, HOUR, clean - HOUR);
    RecordRemembers(hour, h, clean - HOUR, now - HOUR, now);
  }

  lemma {:induction false} CheckKeepsHour(info: Info, h: seq<int>, clock: int, c: Config, t: Readings)
    requires Ascending(h) && HourInv(info.hour, h, clock, c) && clock <= t.strict && t.Ordered()
    ensures var (info', ok) := Check(info, c, t);
            HourInv(info'.hour, if ok then h + [t.record] else h, t.record, c)
  {
    HourClockAdvances(info.hour, h, clock, t.record, c);
    HourClean(info.hour, h, clock, t.clean, c);
    var kept := After(info.hour, t.clean - HOUR);
    HourClockAdvances(kept, h, t.clean, t.record, c);
    if Check(info, c, t).1 {
      assert |kept| < c.perHour;
      AcceptHour(kept, h, c, t.clean, t.record);
    }
  }

  /** Forgetting a stale address loses nothing that the second and minute limits need. */
  lemma {:induction false} EvictionKeepsInv(info: Info, h: seq<int>, clock: int, c: Config, now: int)
    requires AddressInv(info.minute, h, clock, c) && clock <= now && !IsFresh(info, now)
    ensures AddressInv([], h, now, c)
  {
    forall cutoff | cutoff >= now - MINUTE ensures CountAfter([], cutoff) == CountAfter(h, cutoff) {
      CountNone(info.minute, cutoff);
      assert CountAfter(info.minute, cutoff) == CountAfter(h, cutoff);
    }
  }

  /** The hourly record survives an eviction exactly when it holds nothing of the last hour. */
  lemma {:induction false} EvictionKeepsHourExactly(hour: seq<int>, h: seq<int>, now: int, c: Config)
    requires HourInv(hour, h, now, c)
    ensures HourInv([], h, now, c) <==> After(hour, now - HOUR) == []
  {
    assert CountAfter(hour, now - HOUR) == CountAfter(h, now - HOUR);
    CountNone([], now - HOUR);
    if After(hour, now - HOUR) == [] {
      forall cutoff | cutoff >= now - HOUR ensures CountAfter([], cutoff) == CountAfter(h, cutoff) {
        CountMonotone(h, now - HOUR, cutoff);
        CountNone([], cutoff);
      }
    }
  }

  function InfoIn(limits: map<string, Info>, ip: string): Info {
    if ip in limits then limits[ip] else UNSEEN
  }

  function HistoryIn(history: map<string, seq<int>>, ip: string): seq<int> {
    if ip in history then history[ip] else []
  }

  /**
   * Every address meets its limits per second and per minute, and per hour as well unless it is
   * among those `lost`: evicted within an hour of a request that was let through.
   */
  ghost predicate TableInv(limits: map<string, Info>, history: map<string, seq<int>>, lost: set<string>, clock: int,
                           c: Config)
  {
    && (forall ip :: AddressInv(InfoIn(limits, ip).minute, HistoryIn(history, ip), clock, c))
    && (forall ip :: ip !in lost ==> HourInv(InfoIn(limits, ip).hour, HistoryIn(history, ip), clock, c))
  }

  /** The addresses that an eviction keeps. */
  function Fresh(limits: map<string, Info>, now: int): map<string, Info> {
    map ip | ip in limits && IsFresh(limits[ip], now) :: limits[ip]
  }

  /** The addresses that an eviction drops although their last hour is not empty. */
  function Spoiled(limits: map<string, Info>, now: int): set<string> {
    set ip | ip in limits && !IsFresh(limits[ip], now) && After(limits[ip].hour, now - HOUR) != []
  }

  function Trimmed(limits: map<string, Info>, now: int): map<string, Info> {
    if |limits| > MAX_TRACKED then Fresh(limits, now) else limits
  }

  /** One limited request against the table: evict if it has grown too large, then check the address. */
  function Answer(limits: map<string, Info>, c: Config, ip: string, t: Readings): (map<string, Info>, bool) {
    var kept := Trimmed(limits, t.evict);
    var (info, ok) := Check(InfoIn(kept, ip), c, t);
    (kept[ip := info], ok)
  }

  lemma {:induction false} TableClockAdvances(limits: map<string, Info>, history: map<string, seq<int>>,
                                              lost: set<string>, clock: int, c: Config, now: int)
    requires TableInv(limits, history, lost, clock, c) && clock <= now
    ensures TableInv(limits, history, lost, now, c)
  {
    forall ip ensures AddressInv(InfoIn(limits, ip).minute, HistoryIn(history, ip), now, c) {
      ClockAdvances(InfoIn(limits, ip).minute, HistoryIn(history, ip), clock, now, c);
    }
    forall ip | ip !in lost ensures HourInv(InfoIn(limits, ip).hour, HistoryIn(history, ip), now, c) {
      HourClockAdvances(InfoIn(limits, ip).hour, HistoryIn(history, ip), clock, now, c);
    }
  }

  lemma {:induction false} EvictionKeepsTable(limits: map<string, Info>, history: map<string, seq<int>>,
                                              lost: set<string>, now: int, c: Config)
    requires TableInv(limits, history, lost, now, c)
    ensures TableInv(Fresh(limits, now), history, lost + Spoiled(limits, now), now, c)
  {
    var kept := Fresh(limits, now);
    forall ip ensures AddressInv(InfoIn(kept, ip).minute, HistoryIn(history, ip), now, c) {
      assert AddressInv(InfoIn(limits, ip).minute, HistoryIn(history, ip), now, c);
      if ip in limits && ip !in kept {
        EvictionKeepsInv(limits[ip], HistoryIn(history, ip), now, c, now);
      }
    }
    forall ip | ip !in lost + Spoiled(limits, now)
      ensures HourInv(InfoIn(kept, ip).hour, HistoryIn(history, ip), now, c)
    {
      assert HourInv(InfoIn(limits, ip).hour, HistoryIn(history, ip), now, c);
      if ip in limits && ip !in kept {
        EvictionKeepsHourExactly(limits[ip].hour, HistoryIn(history, ip), now, c);
      }
    }
  }

  lemma {:induction false} RequestKeepsTable(limits: map<string, Info>, history: map<string, seq<int>>,
                                             lost: set<string>, c: Config, ip: string, t: Readings, info: Info,
                                             ok: bool)
    requires TableInv(limits, history, lost, t.evict, c) && t.Ordered()
    requires (info, ok) == Check(InfoIn(limits, ip), c, t)
    ensures TableInv(limits[ip := info], if ok then history[ip := HistoryIn(history, ip) + [t.record]] else history,
                     lost, t.record, c)
  {
    var (limits', history') :=
      (limits[ip := info], if ok then history[ip := HistoryIn(history, ip) + [t.record]] else history);
    forall other ensures AddressInv(InfoIn(limits', other).minute, HistoryIn(history', other), t.record, c) {
      assert AddressInv(InfoIn(limits, other).minute, HistoryIn(history, other), t.evict, c);
      if other == ip {
        CheckKeepsInv(InfoIn(limits, ip), HistoryIn(history, ip), t.evict, c, t);
      } else {
        ClockAdvances(InfoIn(limits, other).minute, HistoryIn(history, other), t.evict, t.record, c);
      }
    }
    forall other | other !in lost
      ensures HourInv(InfoIn(limits', other).hour, HistoryIn(history', other), t.record, c)
    {
      assert AddressInv(InfoIn(limits, other).minute, HistoryIn(history, other), t.evict, c);
      assert HourInv(InfoIn(limits, other).hour, HistoryIn(history, other), t.evict, c);
      if other == ip {
        CheckKeepsHour(InfoIn(limits, ip), HistoryIn(history, ip), t.evict, c, t);
      } else {
        HourClockAdvances(InfoIn(limits, other).hour, HistoryIn(history, other), t.evict, t.record, c);
      }
    }
  }

  // ---------------------------------------------------------------------------------------------
  // A run that exceeds the hourly limit

  datatype Table = Table(limits: map<string, Info>, history: map<string, seq<int>>)

  function Serve(s: Table, c: Config, ip: string, t: Readings): Table {
    var (limits, ok) := Answer(s.limits, c, ip, t);
    Table(limits, if ok then s.history[ip := HistoryIn(s.history, ip) + [t.record]] else s.history)
  }

  /** The `i`-th of as many different addresses as one likes. */
  function Address(i: nat): string {
    seq(i, _ => 'x')
  }

  const STRICT := Config(1, 1, 1)
  const SEEN := Info([0], [0])

  function At(now: int): Readings {
    Readings(now, now, now, now)
  }

  /** The table after one request at time zero from each of the first `n` addresses. */
  function Crowd(n: nat): Table {
    if n == 0 then Table(map[], map[]) else Serve(Crowd(n - 1), STRICT, Address(n - 1), At(0))
  }

  lemma {:induction false} FirstRequest(now: int)
    ensures Check(UNSEEN, STRICT, At(now)) == (Info([now], [now]), true)
  {
    var none: seq<int> := [];
    assert After(none, now - SECOND) == none && After(none, now - MINUTE) == none && After(none, now - HOUR) == none;
    assert none + [now] == [now];
  }

  /** `n` different addresses, each let through once, at time zero. */
  ghost predicate Crowded(s: Table, n: nat) {
    && |s.limits| == n
    && (forall ip :: ip in s.limits ==> |ip| < n && s.limits[ip] == SEEN)
    && HistoryIn(s.history, Address(0)) == if n == 0 then [] else [0]
  }

  lemma {:induction false} OneMore(s: Table, n: nat)
    requires Crowded(s, n) && n <= MAX_TRACKED
    ensures Crowded(Serve(s, STRICT, Address(n), At(0)), n + 1)
  {
    var s', ip := Serve(s, STRICT, Address(n), At(0)), Address(n);
    assert |ip| == n && ip !in s.limits && Trimmed(s.limits, 0) == s.limits;
    FirstRequest(0);
    assert s'.limits == s.limits[ip := SEEN];
    assert s'.limits.Keys == s.limits.Keys + {ip};
    assert n > 0 ==> |ip| != |Address(0)|;
  }

  lemma {:induction false} CrowdGrows(n: nat)
    requires n <= MAX_TRACKED + 1
    ensures Crowded(Crowd(n), n)
  {
    if n > 0 {
      CrowdGrows(n - 1);
      OneMore(Crowd(n - 1), n - 1);
    }
  }

  lemma {:induction false} CrowdIsForgotten(s: Table, n: nat)
    requires Crowded(s, n) && n > MAX_TRACKED
    ensures Trimmed(s.limits, STALE + 1) == map[]
  {
    forall ip | ip in s.limits ensures !IsFresh(s.limits[ip], STALE + 1) {
      assert s.limits[ip] == SEEN;
    }
  }

  /**
   * An hourly limit of one, exceeded: 50,001 addresses come once, and two minutes later the first
   * comes back, finds the table evicted, and is let through a second time.
   */
  lemma {:induction false} EvictionLosesHour(n: nat, now: int)
    requires n == MAX_TRACKED + 1 && now == STALE + 1
    ensures var s := Serve(Crowd(n), STRICT, Address(0), At(now));
            HistoryIn(s.history, Address(0)) == [0, now] && InWindow([0, now], now, HOUR) > STRICT.perHour
  {
    CrowdGrows(n);
    CrowdIsForgotten(Crowd(n), n);
    FirstRequest(now);
    assert [0] + [now] == [0, now];
    AllInWindow([0, now], now, HOUR);
  }

  class RateLimitTable {
    const config: Config
    var limits: map<string, Info>
    ghost var history: map<string, seq<int>>
    ghost var clock: int
    ghost var lost: set<string>

    ghost predicate Valid()
      reads this
    {
      TableInv(limits, history, lost, clock, config)
    }

    constructor (config: Config, now: int)
      ensures Valid() && limits == map[] && history == map[] && clock == now && lost == {}
      ensures this.config == config
    {
      this.config, limits, history, clock, lost := config, map[], map[], now, {};
    }

    /** Drop the stale addresses when the table has grown too large. */
    method Evict(now: int)
      requires Valid() && clock <= now
      modifies this`limits, this`clock, this`lost
      ensures Valid() && clock == now
      ensures limits == Trimmed(old(limits), now)
      ensures lost == old(lost) + if |old(limits)| > MAX_TRACKED then Spoiled(old(limits), now) else {}
    {
      TableClockAdvances(limits, history, lost, clock, config, now);
      clock := now;
      if |limits| > MAX_TRACKED {
        EvictionKeepsTable(limits, history, lost, now, config);
        lost := lost + Spoiled(limits, now);
        limits := Fresh(limits, now);
      }
    }

    /** One limited request: evict if needed, then check the address. */
    method Request(ip: string, t: Readings) returns (ok: bool)
      requires Valid() && clock <= t.evict && t.Ordered()
      modifies this
      ensures Valid() && clock == t.record
      ensures history == if ok then old(history)[ip := HistoryIn(old(history), ip) + [t.record]] else old(history)
      ensures (limits, ok) == Answer(old(limits), config, ip, t)
      ensures lost == old(lost) + if |old(limits)| > MAX_TRACKED then Spoiled(old(limits), t.evict) else {}
    {
      Evict(t.evict);
      var info;
      info, ok := CheckLimit(InfoIn(limits, ip), config, t);
      RequestKeepsTable(limits, history, lost, config, ip, t, info, ok);
      limits := limits[ip := info];
      history := if ok then history[ip := HistoryIn(history, ip) + [t.record]] else history;
      clock := t.record;
    }

    /** The promise, for every address and every window: per second and per minute always, per hour unless lost. */
    lemma {:induction false} LimitsHold(ip: string, end: int)
      requires Valid()
      ensures InWindow(HistoryIn(history, ip), end, SECOND) <= config.perSecond
      ensures InWindow(HistoryIn(history, ip), end, MINUTE) <= config.perMinute
      ensures ip !in lost ==> InWindow(HistoryIn(history, ip), end, HOUR) <= config.perHour
    {
      var h := HistoryIn(history, ip);
      assert AddressInv(InfoIn(limits, ip).minute, h, clock, config);
      SpacedMeansLimited(h, config.perSecond, SECOND, end);
      SpacedMeansLimited(h, config.perMinute, MINUTE, end);
      if ip !in lost {
        SpacedMeansLimited(h, config.perHour, HOUR, end);
      }
    }
  }
}
