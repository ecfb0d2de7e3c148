/**
 * Conflict analysis and wave scheduling of a batch (src/transaction/parallel.rs).
 *
 * A transaction depends on every earlier one it conflicts with, and its wave is one more than the
 * largest wave it depends on. Two facts make the schedule right: it is a layering (a later
 * transaction that conflicts with an earlier one is in a later wave), and it is the least one, so
 * no other layering has fewer waves.
 */
module WaveSchedule {
  import opened Mvcc

  /** `conflicts`: some key is written by one and touched by the other. */
  predicate Conflicts(a: ReadWriteSet, b: ReadWriteSet) {
    || !(WriteKeys(a) !! ReadKeys(b))
    || !(WriteKeys(b) !! ReadKeys(a))
    || !(WriteKeys(a) !! WriteKeys(b))
  }

  function Max(a: nat, b: nat): nat {
    if a < b then b else a
  }

  /** One more than the largest wave of a transaction before `k` that conflicts with `j`; 0 if none does. */
  function WaveAfter(block: seq<ReadWriteSet>, j: nat, k: nat): nat
    requires k <= j < |block|
    decreases j, k
  {
    if k == 0 then 0
    else if Conflicts(block[k - 1], block[j]) then Max(WaveAfter(block, j, k - 1), WaveOf(block, k - 1) + 1)
    else WaveAfter(block, j, k - 1)
  }

  function WaveOf(block: seq<ReadWriteSet>, j: nat): nat
    requires j < |block|
    decreases j, j + 1
  {
    WaveAfter(block, j, j)
  }

  /** An assignment of waves that puts a transaction after all earlier ones it conflicts with. */
  ghost predicate IsLayering(block: seq<ReadWriteSet>, f: seq<nat>) {
    && |f| == |block|
    && forall i, j :: 0 <= i < j < |block| && Conflicts(block[i], block[j]) ==> f[i] < f[j]
  }

  lemma {:induction false} WaveAfterDominates(block: seq<ReadWriteSet>, i: nat, j: nat, k: nat)
    requires i < k <= j < |block| && Conflicts(block[i], block[j])
    ensures WaveOf(block, i) < WaveAfter(block, j, k)
    decreases k
  {
    if i < k - 1 {
      WaveAfterDominates(block, i, j, k - 1);
    }
  }

  /** The computed waves respect every conflict. */
  lemma {:induction false} WavesSeparateConflicts(block: seq<ReadWriteSet>, i: nat, j: nat)
    requires i < j < |block| && Conflicts(block[i], block[j])
    ensures WaveOf(block, i) < WaveOf(block, j)
  {
    WaveAfterDominates(block, i, j, j);
  }

  lemma {:induction false} WaveAfterIsLeast(block: seq<ReadWriteSet>, f: seq<nat>, j: nat, k: nat)
    requires IsLayering(block, f) && k <= j < |block|
    ensures WaveAfter(block, j, k) <= f[j]
    decreases j, k
  {
    if k > 0 {
      WaveAfterIsLeast(block, f, j, k - 1);
      if Conflicts(block[k - 1], block[j]) {
        WaveAfterIsLeast(block, f, k - 1, k - 1);
      }
    }
  }

  /** No layering puts any transaction in an earlier wave, so none has fewer waves. */
  lemma {:induction false} WavesAreLeast(block: seq<ReadWriteSet>, f: seq<nat>)
    requires IsLayering(block, f)
    ensures forall j :: 0 <= j < |block| ==> WaveOf(block, j) <= f[j]
  {
    forall j | 0 <= j < |block| ensures WaveOf(block, j) <= f[j] {
      WaveAfterIsLeast(block, f, j, j);
    }
  }

  lemma {:induction false} WaveAfterIsReached(block: seq<ReadWriteSet>, j: nat, k: nat) returns (i: nat)
    requires k <= j < |block| && WaveAfter(block, j, k) > 0
    ensures i < k && Conflicts(block[i], block[j]) && WaveOf(block, i) + 1 == WaveAfter(block, j, k)
    decreases k
  {
    if Conflicts(block[k - 1], block[j]) && WaveOf(block, k - 1) + 1 == WaveAfter(block, j, k) {
      i := k - 1;
    } else {
      i := WaveAfterIsReached(block, j, k - 1);
    }
  }

  /**
   * A transaction in wave w ends a chain of w + 1 transactions, each conflicting with the next:
   * the reason why the waves cannot be fewer.
   */
  lemma {:induction false} WaveEndsChain(block: seq<ReadWriteSet>, j: nat) returns (chain: seq<nat>)
    requires j < |block|
    ensures |chain| == WaveOf(block, j) + 1 && chain[|chain| - 1] == j
    ensures forall k :: 0 <= k < |chain| ==> chain[k] <= j
    ensures forall k :: 0 <= k < |chain| - 1 ==>
              chain[k] < chain[k + 1] && Conflicts(block[chain[k]], block[chain[k + 1]])
    decreases j
  {
    if WaveOf(block, j) == 0 {
      chain := [j];
    } else {
      var i := WaveAfterIsReached(block, j, j);
      var rest := WaveEndsChain(block, i);
      chain := rest + [j];
    }
  }

  // ---------------------------------------------------------------------------------------------
  // The members of each wave and the order they are executed in

  /** Batch positions below `n` in wave `w`, ascending. */
  function Members(block: seq<ReadWriteSet>, w: nat, n: nat): (r: seq<nat>)
    requires n <= |block|
    ensures forall i: nat :: i in r <==> i < n && WaveOf(block, i) == w
    ensures forall k :: 0 <= k < |r| ==> r[k] < n && WaveOf(block, r[k]) == w
    ensures forall p, q :: 0 <= p < q < |r| ==> r[p] < r[q]
  {
    if n == 0 then []
    else if WaveOf(block, n - 1) == w then Members(block, w, n - 1) + [n - 1]
    else Members(block, w, n - 1)
  }

  function WaveCount(block: seq<ReadWriteSet>, n: nat): nat
    requires n <= |block|
  {
    if n == 0 then 0 else Max(WaveCount(block, n - 1), WaveOf(block, n - 1) + 1)
  }

  lemma {:induction false} WaveCountBounds(block: seq<ReadWriteSet>, i: nat, n: nat)
    requires i < n <= |block|
    ensures WaveOf(block, i) < WaveCount(block, n)
  {
    if i < n - 1 {
      WaveCountBounds(block, i, n - 1);
    }
  }

  /** The order in which the first `c` waves are executed. */
  function WaveOrder(block: seq<ReadWriteSet>, c: nat): seq<nat> {
    if c == 0 then [] else WaveOrder(block, c - 1) + Members(block, c - 1, |block|)
  }

  lemma {:induction false} WaveOrderMember(block: seq<ReadWriteSet>, c: nat, i: nat)
    ensures i in WaveOrder(block, c) <==> i < |block| && WaveOf(block, i) < c
  {
    if c > 0 {
      WaveOrderMember(block, c - 1, i);
      assert i in WaveOrder(block, c) <==> i in WaveOrder(block, c - 1) || i in Members(block, c - 1, |block|);
    }
  }

  lemma {:induction false} WaveOrderContents(block: seq<ReadWriteSet>, c: nat)
    ensures forall i: nat :: i in WaveOrder(block, c) <==> i < |block| && WaveOf(block, i) < c
    ensures forall k :: 0 <= k < |WaveOrder(block, c)| ==> WaveOrder(block, c)[k] < |block|
  {
    var order := WaveOrder(block, c);
    forall i: nat ensures i in order <==> i < |block| && WaveOf(block, i) < c {
      WaveOrderMember(block, c, i);
    }
    forall k | 0 <= k < |order| ensures order[k] < |block| {
      assert order[k] in order;
    }
  }

  /** Later in the order means a later wave, or the same wave and a larger index. */
  lemma {:induction false} WaveOrderAscends(block: seq<ReadWriteSet>, c: nat, p: nat, q: nat)
    requires p < q < |WaveOrder(block, c)|
    ensures WaveOrder(block, c)[p] < |block| && WaveOrder(block, c)[q] < |block|
    ensures var (a, b) := (WaveOrder(block, c)[p], WaveOrder(block, c)[q]);
            WaveOf(block, a) < WaveOf(block, b) || (WaveOf(block, a) == WaveOf(block, b) && a < b)
  {
    var before, wave := WaveOrder(block, c - 1), Members(block, c - 1, |block|);
    if q < |before| {
      WaveOrderAscends(block, c - 1, p, q);
    } else if p < |before| {
      WaveOrderMember(block, c - 1, before[p]);
      AcrossWaves(before, wave, p, q);
    } else {
      WithinWave(before, wave, p, q);
    }
  }

  lemma {:induction false} AcrossWaves(before: seq<nat>, wave: seq<nat>, p: nat, q: nat)
    requires p < |before| <= q < |before| + |wave|
    ensures (before + wave)[p] == before[p] && (before + wave)[q] == wave[q - |before|]
  {
  }

  lemma {:induction false} WithinWave(before: seq<nat>, wave: seq<nat>, p: nat, q: nat)
    requires |before| <= p < q < |before| + |wave|
    ensures (before + wave)[p] == wave[p - |before|] && (before + wave)[q] == wave[q - |before|]
  {
  }

  // ---------------------------------------------------------------------------------------------
  // The scheduler

  datatype TxWithRwSet = TxWithRwSet(index: nat, txId: string, rwset: ReadWriteSet)

  function BatchSets(batch: seq<TxWithRwSet>): (r: seq<ReadWriteSet>)
    ensures |r| == |batch| && forall i :: 0 <= i < |batch| ==> r[i] == batch[i].rwset
  {
    seq(|batch|, i requires 0 <= i < |batch| => batch[i].rwset)
  }

  /** The indices recorded in the batch for some batch positions. */
  function IndicesAt(batch: seq<TxWithRwSet>, positions: seq<nat>): seq<nat>
    requires InRange(positions, |batch|)
  {
    seq(|positions|, k requires 0 <= k < |positions| => batch[positions[k]].index)
  }

  /** The earlier transactions that `j` conflicts with. */
  function DependenciesOf(batch: seq<TxWithRwSet>, j: nat): set<nat>
    requires j < |batch|
  {
    set i: nat | i < j && Conflicts(batch[i].rwset, batch[j].rwset)
  }

  method Dependencies(batch: seq<TxWithRwSet>) returns (deps: seq<set<nat>>)
    ensures |deps| == |batch|
    ensures forall j :: 0 <= j < |batch| ==> deps[j] == DependenciesOf(batch, j)
  {
    deps := [];
    for j := 0 to |batch|
      invariant |deps| == j
      invariant forall k :: 0 <= k < j ==> deps[k] == DependenciesOf(batch, k)
    {
      var d: set<nat> := {};
      for i := 0 to j
        invariant d == set m: nat | m < i && Conflicts(batch[m].rwset, batch[j].rwset)
      {
        var raw := !(WriteKeys(batch[i].rwset) !! ReadKeys(batch[j].rwset));
        var waw := !(WriteKeys(batch[i].rwset) !! WriteKeys(batch[j].rwset));
        var war := !(ReadKeys(batch[i].rwset) !! WriteKeys(batch[j].rwset));
        if raw || waw || war {
          d := d + {i};
        }
      }
      deps := deps + [d];
    }
  }

  /** The largest wave among the dependencies, in whatever order the hash set yields them. */
  method MaxDependencyWave(deps: set<nat>, wave: seq<nat>) returns (m: nat)
    requires deps != {} && forall d: nat :: d in deps ==> d < |wave|
    ensures forall d: nat :: d in deps ==> wave[d] <= m
    ensures exists d :: d in deps && wave[d] == m
  {
    var d0 :| d0 in deps;
    m := wave[d0];
    var rest := deps - {d0};
    while rest != {}
      invariant rest <= deps
      invariant forall d :: d in deps && d !in rest ==> wave[d] <= m
      invariant exists d :: d in deps && wave[d] == m
    {
      var d :| d in rest;
      m := Max(m, wave[d]);
      rest := rest - {d};
    }
  }

  lemma {:induction false} WaveFromDependencies(block: seq<ReadWriteSet>, j: nat, m: nat, d: nat)
    requires j < |block|
    requires forall i :: 0 <= i < j && Conflicts(block[i], block[j]) ==> WaveOf(block, i) <= m
    requires d < j && Conflicts(block[d], block[j]) && WaveOf(block, d) == m
    ensures WaveOf(block, j) == m + 1
  {
    WaveAfterDominates(block, d, j, j);
    var i := WaveAfterIsReached(block, j, j);
  }

  lemma {:induction false} WaveWithoutDependencies(batch: seq<TxWithRwSet>, j: nat)
    requires j < |batch| && DependenciesOf(batch, j) == {}
    ensures WaveOf(BatchSets(batch), j) == 0
  {
    forall i: nat | i < j ensures !Conflicts(batch[i].rwset, batch[j].rwset) {
      assert i !in DependenciesOf(batch, j);
    }
    if WaveOf(BatchSets(batch), j) > 0 {
      var i := WaveAfterIsReached(BatchSets(batch), j, j);
    }
  }

  /** Longest-path wave of every transaction. */
  method AssignWaves(batch: seq<TxWithRwSet>) returns (wave: seq<nat>)
    ensures |wave| == |batch|
    ensures forall j :: 0 <= j < |batch| ==> wave[j] == WaveOf(BatchSets(batch), j)
  {
    var deps := Dependencies(batch);
    ghost var block := BatchSets(batch);
    wave := [];
    for j := 0 to |batch|
      invariant |wave| == j
      invariant forall k :: 0 <= k < j ==> wave[k] == WaveOf(block, k)
    {
      if deps[j] == {} {
        WaveWithoutDependencies(batch, j);
        wave := wave + [0];
      } else {
        var m := MaxDependencyWave(deps[j], wave);
        ghost var d :| d in deps[j] && wave[d] == m;
        forall i | 0 <= i < j && Conflicts(block[i], block[j]) ensures WaveOf(block, i) <= m {
          assert i in deps[j];
        }
        WaveFromDependencies(block, j, m, d);
        wave := wave + [m + 1];
      }
    }
  }

  /** `schedule_batch`: the batch grouped into waves, each in batch order. */
  method ScheduleBatch(batch: seq<TxWithRwSet>) returns (waves: seq<seq<nat>>)
    ensures |waves| == WaveCount(BatchSets(batch), |batch|)
    ensures forall w :: 0 <= w < |waves| ==>
              waves[w] == IndicesAt(batch, Members(BatchSets(batch), w, |batch|))
  {
    var wave := AssignWaves(batch);
    ghost var block := BatchSets(batch);
    var count := 0;
    for i := 0 to |batch|
      invariant count == WaveCount(block, i)
    {
      count := Max(count, wave[i] + 1);
    }
    waves := seq(count, _ => []);
    for i := 0 to |batch|
      invariant |waves| == count
      invariant forall w :: 0 <= w < count ==> waves[w] == IndicesAt(batch, Members(block, w, i))
    {
      WaveCountBounds(block, i, |batch|);
      var w := wave[i];
      waves := waves[w := waves[w] + [batch[i].index]];
    }
  }
}
