/**
 * What a sliding-window limiter has to guarantee about the times it accepts: among the accepted
 * times, any two that are `limit` places apart are at least a period apart. `SpacedMeansLimited`
 * turns that into the promise itself: no window of one period holds more than `limit` of them.
 */
module SlidingWindow {

  ghost predicate Ascending(h: seq<int>) {
    forall i, j :: 0 <= i < j < |h| ==> h[i] <= h[j]
  }

  /** The accepted time at position `k` is a period later than the one `limit` places before it. */
  ghost predicate GapAt(h: seq<int>, k: nat, limit: nat, period: nat) {
    limit <= k < |h| ==> h[k - limit] + period <= h[k]
  }

  ghost predicate Spaced(h: seq<int>, limit: nat, period: nat) {
    forall k :: GapAt(h, k, limit, period)
  }

  /** How many times lie in the window that ends at `end`, one period long and open at its start. */
  ghost function InWindow(h: seq<int>, end: int, period: nat): nat {
    if h == [] then 0
    else InWindow(h[..|h| - 1], end, period) + if end - period < h[|h| - 1] <= end then 1 else 0
  }

  /** The promise of a limiter: at most `limit` accepted times in any window of one period. */
  ghost predicate Limited(h: seq<int>, limit: nat, period: nat) {
    forall end :: InWindow(h, end, period) <= limit
  }

  lemma {:induction false} NoneInWindow(h: seq<int>, end: int, period: nat)
    requires forall i :: 0 <= i < |h| ==> h[i] <= end - period || h[i] > end
    ensures InWindow(h, end, period) == 0
  {
    if h != [] {
      NoneInWindow(h[..|h| - 1], end, period);
    }
  }

  lemma {:induction false} WindowConcat(a: seq<int>, b: seq<int>, end: int, period: nat)
    ensures InWindow(a + b, end, period) == InWindow(a, end, period) + InWindow(b, end, period)
  {
    if b == [] {
      assert a + b == a;
    } else {
      WindowConcat(a, b[..|b| - 1], end, period);
      assert (a + b)[..|a + b| - 1] == a + b[..|b| - 1];
    }
  }

  lemma {:induction false} WindowAtMostLength(h: seq<int>, end: int, period: nat)
    ensures InWindow(h, end, period) <= |h|
  {
    if h != [] {
      WindowAtMostLength(h[..|h| - 1], end, period);
    }
  }

  lemma {:induction false} SpacedMeansLimited(h: seq<int>, limit: nat, period: nat, end: int)
    requires Ascending(h) && Spaced(h, limit, period)
    ensures InWindow(h, end, period) <= limit
    decreases |h|
  {
    if |h| <= limit {
      WindowAtMostLength(h, end, period);
    } else {
      var n := |h| - 1;
      if end - period < h[n] <= end {
        var (early, recent) := (h[..|h| - limit], h[|h| - limit..]);
        assert h == early + recent;
        assert GapAt(h, n, limit, period);
        forall i | 0 <= i < |early| ensures early[i] <= end - period {
          assert i < n - limit ==> h[i] <= h[n - limit];
        }
        NoneInWindow(early, end, period);
        WindowConcat(early, recent, end, period);
        WindowAtMostLength(recent, end, period);
      } else {
        forall k: nat ensures GapAt(h[..n], k, limit, period) {
          assert GapAt(h, k, limit, period);
        }
        SpacedMeansLimited(h[..n], limit, period, end);
      }
    }
  }

  lemma {:induction false} StretchCounts(h: seq<int>, i: nat, k: nat, period: nat)
    requires Ascending(h) && i <= k < |h| && h[i] > h[k] - period
    ensures InWindow(h, h[k], period) >= k + 1 - i
  {
    var (a, b, c) := (h[..i], h[i..k + 1], h[k + 1..]);
    assert h == (a + b) + c;
    AllInWindow(b, h[k], period);
    WindowConcat(a + b, c, h[k], period);
    WindowConcat(a, b, h[k], period);
  }

  /** Conversely a history that keeps every window within the limit is spaced. */
  lemma {:induction false} LimitedMeansSpaced(h: seq<int>, limit: nat, period: nat)
    requires Ascending(h)
    requires Limited(h, limit, period)
    ensures Spaced(h, limit, period)
  {
    forall k: nat ensures GapAt(h, k, limit, period) {
      if limit <= k < |h| && h[k - limit] > h[k] - period {
        assert InWindow(h, h[k], period) <= limit;
        StretchCounts(h, k - limit, k, period);
      }
    }
  }

  /** The promise and the spacing are the same thing. */
  lemma {:induction false} SpacedExactly(h: seq<int>, limit: nat, period: nat)
    requires Ascending(h)
    ensures Spaced(h, limit, period) <==> Limited(h, limit, period)
  {
    if Spaced(h, limit, period) {
      forall end ensures InWindow(h, end, period) <= limit {
        SpacedMeansLimited(h, limit, period, end);
      }
    }
    if Limited(h, limit, period) {
      LimitedMeansSpaced(h, limit, period);
    }
  }

  lemma {:induction false} AllInWindow(h: seq<int>, end: int, period: nat)
    requires forall i :: 0 <= i < |h| ==> end - period < h[i] <= end
    ensures InWindow(h, end, period) == |h|
  {
    if h != [] {
      AllInWindow(h[..|h| - 1], end, period);
    }
  }

  // ---------------------------------------------------------------------------------------------
  // What a limiter remembers

  ghost function PositionsAfter(h: seq<int>, cutoff: int): set<nat> {
    set i: nat | i < |h| && h[i] > cutoff
  }

  /** How many times are later than a cutoff. */
  ghost function CountAfter(h: seq<int>, cutoff: int): nat {
    |PositionsAfter(h, cutoff)|
  }

  /** The times later than a cutoff, as `retain` keeps them. */
  function After(h: seq<int>, cutoff: int): (r: seq<int>)
    ensures |r| == CountAfter(h, cutoff)
  {
    if h == [] then []
    else
      CountLast(h, cutoff);
      After(h[..|h| - 1], cutoff) + if h[|h| - 1] > cutoff then [h[|h| - 1]] else []
  }

  lemma {:induction false} CountLast(h: seq<int>, cutoff: int)
    requires h != []
    ensures CountAfter(h, cutoff) == CountAfter(h[..|h| - 1], cutoff) + if h[|h| - 1] > cutoff then 1 else 0
  {
    var n := |h| - 1;
    if h[n] > cutoff {
      assert PositionsAfter(h, cutoff) == PositionsAfter(h[..n], cutoff) + {n};
    } else {
      assert PositionsAfter(h, cutoff) == PositionsAfter(h[..n], cutoff);
    }
  }

  /** From a cutoff on, the remembered times count like the accepted ones. */
  ghost predicate Remembers(times: seq<int>, history: seq<int>, cutoff: int) {
    forall c :: c >= cutoff ==> CountAfter(times, c) == CountAfter(history, c)
  }

  lemma {:induction false} CountConcat(a: seq<int>, b: seq<int>, cutoff: int)
    ensures CountAfter(a + b, cutoff) == CountAfter(a, cutoff) + CountAfter(b, cutoff)
  {
    if b == [] {
      assert a + b == a;
    } else {
      CountConcat(a, b[..|b| - 1], cutoff);
      assert (a + b)[..|a + b| - 1] == a + b[..|b| - 1];
      CountLast(a + b, cutoff);
      CountLast(b, cutoff);
    }
  }

  lemma {:induction false} CountAppend(h: seq<int>, x: int, cutoff: int)
    ensures CountAfter(h + [x], cutoff) == CountAfter(h, cutoff) + if x > cutoff then 1 else 0
  {
    assert (h + [x])[..|h|] == h;
    CountLast(h + [x], cutoff);
  }

  lemma {:induction false} CountNone(h: seq<int>, cutoff: int)
    requires forall i :: 0 <= i < |h| ==> h[i] <= cutoff
    ensures CountAfter(h, cutoff) == 0
  {
    assert PositionsAfter(h, cutoff) == {};
  }

  lemma {:induction false} CountAll(h: seq<int>, cutoff: int)
    requires forall i :: 0 <= i < |h| ==> h[i] > cutoff
    ensures CountAfter(h, cutoff) == |h|
  {
    if h != [] {
      CountAll(h[..|h| - 1], cutoff);
      CountLast(h, cutoff);
    }
  }

  lemma {:induction false} CountMonotone(h: seq<int>, early: int, late: int)
    requires early <= late
    ensures CountAfter(h, late) <= CountAfter(h, early)
  {
    if h != [] {
      CountMonotone(h[..|h| - 1], early, late);
      CountLast(h, early);
      CountLast(h, late);
    }
  }

  /** Forgetting what is not later than an early cutoff does not change what is later than a late one. */
  lemma {:induction false} CountRetained(h: seq<int>, early: int, late: int)
    requires early <= late
    ensures CountAfter(After(h, early), late) == CountAfter(h, late)
  {
    if h != [] {
      var n := |h| - 1;
      CountRetained(h[..n], early, late);
      CountLast(h, late);
      if h[n] > early {
        CountAppend(After(h[..n], early), h[n], late);
      } else {
        assert After(h, early) == After(h[..n], early);
      }
    }
  }

  lemma {:induction false} RetainRemembers(times: seq<int>, history: seq<int>, early: int, late: int)
    requires Remembers(times, history, early) && early <= late
    ensures Remembers(After(times, late), history, late)
  {
    forall c | c >= late ensures CountAfter(After(times, late), c) == CountAfter(history, c) {
      CountRetained(times, late, c);
    }
  }

  lemma {:induction false} RecordRemembers(times: seq<int>, history: seq<int>, early: int, late: int, now: int)
    requires Remembers(times, history, early) && early <= late
    ensures Remembers(times + [now], history + [now], late)
  {
    forall c | c >= late ensures CountAfter(times + [now], c) == CountAfter(history + [now], c) {
      CountAppend(times, now, c);
      CountAppend(history, now, c);
    }
  }

  /** If fewer than `limit` times of an ascending history are later than the cutoff, the limit-th last is not. */
  lemma {:induction false} FewAfter(h: seq<int>, cutoff: int, limit: nat)
    requires Ascending(h) && CountAfter(h, cutoff) < limit <= |h|
    ensures h[|h| - limit] <= cutoff
  {
    if h[|h| - limit] > cutoff {
      var (early, recent) := (h[..|h| - limit], h[|h| - limit..]);
      assert h == early + recent;
      CountAll(recent, cutoff);
      CountConcat(early, recent, cutoff);
    }
  }

  /** Accepting a time when fewer than `limit` are later than one period before it keeps the history spaced. */
  lemma {:induction false} AcceptKeepsSpaced(h: seq<int>, now: int, limit: nat, period: nat, cutoff: int)
    requires Ascending(h) && Spaced(h, limit, period) && cutoff <= now - period
    requires CountAfter(h, cutoff) < limit
    ensures Spaced(h + [now], limit, period)
  {
    if limit <= |h| {
      FewAfter(h, cutoff, limit);
    }
    forall k: nat ensures GapAt(h + [now], k, limit, period) {
      assert GapAt(h, k, limit, period);
    }
  }
}
