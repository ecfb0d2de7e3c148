/**
 * The wave-parallel block executors (src/transaction/executor.rs).
 *
 * `ExecuteBlockParallel` checks and applies the transactions of each wave one by one;
 * `ExecuteBlockConcurrent` checks a whole wave against the world at its start and applies the
 * valid ones afterwards. For every block and every world, both end in the world that committing
 * the block in its own order gives, and report the same outcome for every transaction.
 */
module BlockExecutor {
  import opened Wrappers
  import opened Mvcc
  import opened WaveSchedule
  import opened Sorting

  // ---------------------------------------------------------------------------------------------
  // Reordering transactions that do not conflict

  lemma {:induction false} WorldsEqual(v: World, w: World)
    requires forall k :: AgreeAt(v, w, k)
    ensures v == w
  {
    forall k | k in v ensures k in w && v[k] == w[k] { assert AgreeAt(v, w, k); }
    forall k | k in w ensures k in v { assert AgreeAt(v, w, k); }
  }

  lemma {:induction false} WritesCommute(w: World, a: seq<KVWrite>, b: seq<KVWrite>)
    requires forall i, j :: 0 <= i < |a| && 0 <= j < |b| ==> a[i].key != b[j].key
    ensures PutAll(PutAll(w, a), b) == PutAll(PutAll(w, b), a)
  {
    forall k ensures AgreeAt(PutAll(PutAll(w, a), b), PutAll(PutAll(w, b), a), k) {
      if forall i :: 0 <= i < |a| ==> a[i].key != k {
        PutAllFrame(w, a, k);
        PutAllLocal(PutAll(w, a), w, b, k);
        PutAllFrame(PutAll(w, b), a, k);
      } else {
        PutAllFrame(w, b, k);
        PutAllLocal(PutAll(w, b), w, a, k);
        PutAllFrame(PutAll(w, a), b, k);
      }
    }
    WorldsEqual(PutAll(PutAll(w, a), b), PutAll(PutAll(w, b), a));
  }

  lemma {:induction false} CommitsCommute(a: ReadWriteSet, b: ReadWriteSet, w: World)
    requires !Conflicts(a, b)
    ensures CommitOne(b, CommitOne(a, w)) == CommitOne(a, CommitOne(b, w))
  {
    OutcomeUnaffected(a, b, w);
    OutcomeUnaffected(b, a, w);
    forall i, j | 0 <= i < |a.writeSet| && 0 <= j < |b.writeSet|
      ensures a.writeSet[i].key != b.writeSet[j].key
    {
      assert a.writeSet[i].key in WriteKeys(a);
      assert b.writeSet[j].key in WriteKeys(b);
      assert WriteKeys(a) !! WriteKeys(b);
    }
    WritesCommute(w, a.writeSet, b.writeSet);
  }

  /** Two transactions that do not conflict can be executed in either order. */
  lemma {:induction false} StepsCommute(block: seq<ReadWriteSet>, s: Exec, i: nat, j: nat)
    requires i < |block| && j < |block| && i != j
    requires !Conflicts(block[i], block[j])
    ensures Step(block, Step(block, s, i), j) == Step(block, Step(block, s, j), i)
  {
    CommitsCommute(block[i], block[j], s.world);
    OutcomeUnaffected(block[i], block[j], s.world);
    OutcomeUnaffected(block[j], block[i], s.world);
  }

  function Without(order: seq<nat>, p: nat): seq<nat>
    requires p < |order|
  {
    order[..p] + order[p + 1..]
  }

  lemma {:induction false} WithoutSplits(block: seq<ReadWriteSet>, order: seq<nat>, p: nat, s: Exec)
    requires InRange(order, |block|) && p < |order| - 1
    ensures InRange(Without(order, p), |block|) && InRange(Without(order[..|order| - 1], p), |block|)
    ensures Run(block, Without(order, p), s)
         == Step(block, Run(block, Without(order[..|order| - 1], p), s), order[|order| - 1])
  {
    var n := |order| - 1;
    assert Without(order, p)[..n - 1] == Without(order[..n], p);
    assert Without(order, p)[n - 1] == order[n];
  }

  /** One exchange of `MoveToEnd`: the moved transaction passes the last one. */
  lemma {:induction false} PassLast(block: seq<ReadWriteSet>, order: seq<nat>, p: nat, s: Exec)
    requires InRange(order, |block|) && p < |order| - 1
    requires InRange(Without(order[..|order| - 1], p), |block|)
    requires Run(block, order[..|order| - 1], s)
          == Step(block, Run(block, Without(order[..|order| - 1], p), s), order[p])
    requires order[|order| - 1] != order[p] && !Conflicts(block[order[|order| - 1]], block[order[p]])
    ensures InRange(Without(order, p), |block|)
    ensures Run(block, order, s) == Step(block, Run(block, Without(order, p), s), order[p])
  {
    WithoutSplits(block, order, p, s);
    StepsCommute(block, Run(block, Without(order[..|order| - 1], p), s), order[|order| - 1], order[p]);
  }

  /** A transaction that conflicts with nothing after it can be executed last. */
  lemma {:induction false} MoveToEnd(block: seq<ReadWriteSet>, order: seq<nat>, p: nat, s: Exec)
    requires InRange(order, |block|) && p < |order|
    requires forall q :: p < q < |order| ==> order[q] != order[p] && !Conflicts(block[order[q]], block[order[p]])
    ensures InRange(Without(order, p), |block|)
    ensures Run(block, order, s) == Step(block, Run(block, Without(order, p), s), order[p])
    decreases |order|
  {
    if p == |order| - 1 {
      assert Without(order, p) == order[..p];
    } else {
      MoveToEnd(block, order[..|order| - 1], p, s);
      PassLast(block, order, p, s);
    }
  }

  /** Every batch position below `n` exactly once. */
  ghost predicate IsOrder(order: seq<nat>, n: nat) {
    && InRange(order, n)
    && (forall i: nat :: i < n ==> i in order)
    && forall p, q :: 0 <= p < q < |order| ==> order[p] != order[q]
  }

  /** A pair that the order turns round does not conflict. */
  ghost predicate KeepsConflicts(block: seq<ReadWriteSet>, order: seq<nat>)
    requires InRange(order, |block|)
  {
    forall p, q :: 0 <= p < q < |order| && order[q] < order[p] ==> !Conflicts(block[order[q]], block[order[p]])
  }

  function Skip(k: nat, p: nat): nat {
    if k < p then k else k + 1
  }

  lemma {:induction false} WithoutKeeps(block: seq<ReadWriteSet>, order: seq<nat>, n: nat, p: nat)
    requires 0 < n <= |block| && IsOrder(order, n) && KeepsConflicts(block, order)
    requires p < |order| && order[p] == n - 1
    ensures IsOrder(Without(order, p), n - 1) && KeepsConflicts(block, Without(order, p))
  {
    var rest := Without(order, p);
    forall k: nat | k < |rest| ensures rest[k] == order[Skip(k, p)] && rest[k] < n - 1 {
      assert rest[k] == order[Skip(k, p)];
    }
    forall i: nat | i < n - 1 ensures i in rest {
      assert i in order;
      var k :| 0 <= k < |order| && order[k] == i;
      assert rest[if k < p then k else k - 1] == i;
    }
    forall k: nat, l: nat | k < l < |rest| ensures rest[k] != rest[l] {
      assert order[Skip(k, p)] != order[Skip(l, p)];
    }
    forall k: nat, l: nat | k < l < |rest| && rest[l] < rest[k] ensures !Conflicts(block[rest[l]], block[rest[k]]) {
      assert order[Skip(l, p)] < order[Skip(k, p)];
    }
  }

  /**
   * Conflict serializability: an execution order that keeps the batch order of every conflicting
   * pair gives the same world and the same outcomes as the batch order.
   */
  lemma {:induction false} OrderIsSerial(block: seq<ReadWriteSet>, order: seq<nat>, n: nat, s: Exec)
    requires n <= |block| && IsOrder(order, n) && KeepsConflicts(block, order)
    ensures Run(block, order, s) == Run(block, UpTo(n), s)
    decreases n
  {
    if n == 0 {
      assert order == [];
    } else {
      var p := LastIsMovable(block, order, n);
      MoveToEnd(block, order, p, s);
      WithoutKeeps(block, order, n, p);
      OrderIsSerial(block, Without(order, p), n - 1, s);
      RunUpTo(block, n, s);
    }
  }

  lemma {:induction false} RunUpTo(block: seq<ReadWriteSet>, n: nat, s: Exec)
    requires 0 < n <= |block|
    ensures Run(block, UpTo(n), s) == Step(block, Run(block, UpTo(n - 1), s), n - 1)
  {
    assert UpTo(n)[..n - 1] == UpTo(n - 1);
  }

  /** The last batch position conflicts with nothing that the order puts after it. */
  lemma {:induction false} LastIsMovable(block: seq<ReadWriteSet>, order: seq<nat>, n: nat) returns (p: nat)
    requires 0 < n <= |block| && IsOrder(order, n) && KeepsConflicts(block, order)
    ensures p < |order| && order[p] == n - 1
    ensures forall q :: p < q < |order| ==> order[q] != order[p] && !Conflicts(block[order[q]], block[order[p]])
  {
    var last: nat := n - 1;
    assert last in order;
    p :| p < |order| && order[p] == last;
    forall q | p < q < |order| ensures order[q] != order[p] && !Conflicts(block[order[q]], block[order[p]]) {
      assert order[q] < n;
    }
  }

  /** Executing wave by wave is the same as executing in batch order. */
  lemma {:induction false} WaveOrderIsSerial(block: seq<ReadWriteSet>, s: Exec)
    ensures InRange(WaveOrder(block, WaveCount(block, |block|)), |block|)
    ensures Run(block, WaveOrder(block, WaveCount(block, |block|)), s) == Run(block, UpTo(|block|), s)
  {
    var c := WaveCount(block, |block|);
    var order := WaveOrder(block, c);
    WaveOrderContents(block, c);
    forall i: nat | i < |block| ensures i in order {
      WaveCountBounds(block, i, |block|);
    }
    forall p, q | 0 <= p < q < |order| ensures order[p] != order[q] {
      WaveOrderAscends(block, c, p, q);
    }
    forall p, q | 0 <= p < q < |order| && order[q] < order[p]
      ensures !Conflicts(block[order[q]], block[order[p]])
    {
      WaveOrderAscends(block, c, p, q);
      if Conflicts(block[order[q]], block[order[p]]) {
        WavesSeparateConflicts(block, order[q], order[p]);
      }
    }
    OrderIsSerial(block, order, |block|, s);
  }

  // ---------------------------------------------------------------------------------------------
  // One wave, checked as a whole

  /** The transactions of a wave that pass the check against the world at its start. */
  function ValidOf(block: seq<ReadWriteSet>, wave: seq<nat>, start: World): (r: seq<nat>)
    requires InRange(wave, |block|)
    ensures InRange(r, |block|)
    ensures forall k :: 0 <= k < |r| ==> r[k] in wave
    ensures (forall p, q :: 0 <= p < q < |wave| ==> wave[p] < wave[q]) ==>
              forall p, q :: 0 <= p < q < |r| ==> r[p] < r[q]
  {
    if wave == [] then []
    else
      var n := |wave| - 1;
      var r := ValidOf(block, wave[..n], start);
      if OutcomeOf(block[wave[n]], start).Committed? then r + [wave[n]] else r
  }

  function PutEach(block: seq<ReadWriteSet>, valid: seq<nat>, w: World): World
    requires InRange(valid, |block|)
  {
    if valid == [] then w
    else PutAll(PutEach(block, valid[..|valid| - 1], w), block[valid[|valid| - 1]].writeSet)
  }

  /** The outcome of every transaction of a wave, checked against one world. */
  function OutcomesAt(block: seq<ReadWriteSet>, wave: seq<nat>, start: World): map<nat, TxOutcome>
    requires InRange(wave, |block|)
  {
    map i | i in wave :: OutcomeOf(block[i], start)
  }

  function ConflictsAt(block: seq<ReadWriteSet>, wave: seq<nat>, start: World): map<nat, TxOutcome>
    requires InRange(wave, |block|)
  {
    map i | i in wave && OutcomeOf(block[i], start) != Committed :: OutcomeOf(block[i], start)
  }

  function CommitsOf(valid: seq<nat>): map<nat, TxOutcome> {
    map i | i in valid :: Committed
  }

  lemma {:induction false} PlusUpdate<K, V>(a: map<K, V>, b: map<K, V>, k: K, v: V)
    ensures a + b[k := v] == (a + b)[k := v]
  {
  }

  lemma {:induction false} ConflictsAtExtends(block: seq<ReadWriteSet>, wave: seq<nat>, start: World, k: nat)
    requires InRange(wave, |block|) && k < |wave|
    ensures var o := OutcomeOf(block[wave[k]], start);
            ConflictsAt(block, wave[..k + 1], start) ==
              if o == Committed then ConflictsAt(block, wave[..k], start)
              else ConflictsAt(block, wave[..k], start)[wave[k] := o]
  {
    assert forall i :: i in wave[..k + 1] <==> i in wave[..k] || i == wave[k];
  }

  lemma {:induction false} OutcomesAtExtends(block: seq<ReadWriteSet>, wave: seq<nat>, start: World)
    requires InRange(wave, |block|) && wave != []
    ensures OutcomesAt(block, wave, start)
         == OutcomesAt(block, wave[..|wave| - 1], start)[wave[|wave| - 1] := OutcomeOf(block[wave[|wave| - 1]], start)]
  {
    assert forall i :: i in wave <==> i in wave[..|wave| - 1] || i == wave[|wave| - 1];
  }

  lemma {:induction false} PutEachExtends(block: seq<ReadWriteSet>, wave: seq<nat>, start: World, w: World)
    requires InRange(wave, |block|) && wave != []
    ensures PutEach(block, ValidOf(block, wave, start), w) == (
              var before := PutEach(block, ValidOf(block, wave[..|wave| - 1], start), w);
              var rw := block[wave[|wave| - 1]];
              if OutcomeOf(rw, start).Committed? then PutAll(before, rw.writeSet) else before)
  {
    var n := |wave| - 1;
    var valid := ValidOf(block, wave[..n], start);
    assert (valid + [wave[n]])[..|valid|] == valid;
  }

  /** A wave checked as a whole: every outcome from the world at its start, then the writes. */
  function WholeWave(block: seq<ReadWriteSet>, wave: seq<nat>, s: Exec): Exec
    requires InRange(wave, |block|)
  {
    Exec(PutEach(block, ValidOf(block, wave, s.world), s.world),
         s.outcomes + OutcomesAt(block, wave, s.world))
  }

  ghost predicate Independent(block: seq<ReadWriteSet>, wave: seq<nat>)
    requires InRange(wave, |block|)
  {
    forall p, q :: 0 <= p < q < |wave| ==> !Conflicts(block[wave[p]], block[wave[q]])
  }

  /** A run writes none of the keys that a later transaction of the wave reads. */
  lemma {:induction false} RunLeavesOutcome(block: seq<ReadWriteSet>, order: seq<nat>, s: Exec, i: nat)
    requires InRange(order, |block|) && i < |block|
    requires forall p :: 0 <= p < |order| ==> !Conflicts(block[order[p]], block[i])
    ensures OutcomeOf(block[i], Run(block, order, s).world) == OutcomeOf(block[i], s.world)
  {
    if order != [] {
      var n := |order| - 1;
      RunLeavesOutcome(block, order[..n], s, i);
      OutcomeUnaffected(block[i], block[order[n]], Run(block, order[..n], s).world);
    }
  }

  /** One transaction more: the check made at the start of the wave is the check made in turn. */
  lemma {:induction false} WholeWaveExtends(block: seq<ReadWriteSet>, wave: seq<nat>, s: Exec)
    requires InRange(wave, |block|) && wave != []
    requires OutcomeOf(block[wave[|wave| - 1]], WholeWave(block, wave[..|wave| - 1], s).world)
          == OutcomeOf(block[wave[|wave| - 1]], s.world)
    ensures WholeWave(block, wave, s) == Step(block, WholeWave(block, wave[..|wave| - 1], s), wave[|wave| - 1])
  {
    var i := wave[|wave| - 1];
    OutcomesAtExtends(block, wave, s.world);
    PlusUpdate(s.outcomes, OutcomesAt(block, wave[..|wave| - 1], s.world), i, OutcomeOf(block[i], s.world));
    PutEachExtends(block, wave, s.world, s.world);
  }

  /** Checking a wave as a whole gives what checking it one by one gives. */
  lemma {:induction false} WholeWaveIsStepwise(block: seq<ReadWriteSet>, wave: seq<nat>, s: Exec)
    requires InRange(wave, |block|) && Independent(block, wave)
    ensures WholeWave(block, wave, s) == Run(block, wave, s)
  {
    if wave == [] {
      assert WholeWave(block, wave, s).outcomes == s.outcomes;
    } else {
      var n := |wave| - 1;
      WholeWaveIsStepwise(block, wave[..n], s);
      RunLeavesOutcome(block, wave[..n], s, wave[n]);
      WholeWaveExtends(block, wave, s);
    }
  }

  lemma {:induction false} WavesAreIndependent(block: seq<ReadWriteSet>, w: nat)
    ensures Independent(block, Members(block, w, |block|))
  {
    var wave := Members(block, w, |block|);
    forall p, q | 0 <= p < q < |wave| ensures !Conflicts(block[wave[p]], block[wave[q]]) {
      if Conflicts(block[wave[p]], block[wave[q]]) {
        WavesSeparateConflicts(block, wave[p], wave[q]);
      }
    }
  }

  // ---------------------------------------------------------------------------------------------
  // The executors

  datatype BlockExecResult =
    BlockExecResult(outcomes: seq<(string, TxOutcome)>, waves: seq<seq<nat>>, committed: nat, conflicts: nat)

  function Prepare(txs: seq<EndorsedTransaction>): (batch: seq<TxWithRwSet>)
    ensures |batch| == |txs|
    ensures forall i :: 0 <= i < |txs| ==> batch[i].index == i && batch[i].rwset == txs[i].rwset
  {
    seq(|txs|, i requires 0 <= i < |txs| => TxWithRwSet(i, txs[i].tx.id, txs[i].rwset))
  }

  /** Outcomes by batch position; a transaction no wave holds counts as a conflict. */
  function Collect(txs: seq<EndorsedTransaction>, outcomes: map<nat, TxOutcome>): (r: seq<(string, TxOutcome)>)
    ensures |r| == |txs|
  {
    seq(|txs|, i requires 0 <= i < |txs| =>
        (txs[i].tx.id, if i in outcomes then outcomes[i] else MvccConflict("unscheduled")))
  }

  function CountCommitted(outcomes: seq<(string, TxOutcome)>): nat {
    if outcomes == [] then 0
    else CountCommitted(outcomes[..|outcomes| - 1]) + if outcomes[|outcomes| - 1].1.Committed? then 1 else 0
  }

  method Tally(outcomes: seq<(string, TxOutcome)>) returns (committed: nat, conflicts: nat)
    ensures committed == CountCommitted(outcomes)
    ensures committed + conflicts == |outcomes|
  {
    committed, conflicts := 0, 0;
    for i := 0 to |outcomes|
      invariant committed == CountCommitted(outcomes[..i])
      invariant committed + conflicts == i
    {
      assert outcomes[..i + 1][..i] == outcomes[..i];
      if outcomes[i].1.Committed? {
        committed := committed + 1;
      } else {
        conflicts := conflicts + 1;
      }
    }
    assert outcomes[..|outcomes|] == outcomes;
  }

  /** What both executors must report: the outcomes of the block in its own order, all scheduled. */
  ghost predicate Reports(txs: seq<EndorsedTransaction>, before: World, r: BlockExecResult) {
    var serial := Sequential(Sets(txs), before);
    && |r.outcomes| == |txs|
    && (forall i :: 0 <= i < |txs| ==> i in serial.outcomes && r.outcomes[i] == (txs[i].tx.id, serial.outcomes[i]))
    && r.committed == CountCommitted(r.outcomes)
    && r.committed + r.conflicts == |txs|
    && |r.waves| == WaveCount(Sets(txs), |txs|)
  }

  /** Sorting a wave, already ascending, leaves it as it is. */
  method SortIndices(indices: seq<nat>) returns (sorted: seq<nat>)
    requires forall p, q :: 0 <= p < q < |indices| ==> indices[p] < indices[q]
    ensures sorted == indices
  {
    var r := Sort(indices);
    SortedIsUnique(r, indices);
    sorted := r;
  }

  lemma {:induction false} PreparedSets(txs: seq<EndorsedTransaction>, w: nat)
    ensures BatchSets(Prepare(txs)) == Sets(txs)
    ensures IndicesAt(Prepare(txs), Members(Sets(txs), w, |txs|)) == Members(Sets(txs), w, |txs|)
  {
  }

  /** The waves of a block, as lists of batch positions. */
  method ScheduleBlock(txs: seq<EndorsedTransaction>) returns (waves: seq<seq<nat>>)
    ensures |waves| == WaveCount(Sets(txs), |txs|)
    ensures forall w :: 0 <= w < |waves| ==> waves[w] == Members(Sets(txs), w, |txs|)
  {
    waves := ScheduleBatch(Prepare(txs));
    forall w | 0 <= w < |waves| ensures waves[w] == Members(Sets(txs), w, |txs|) {
      PreparedSets(txs, w);
    }
    PreparedSets(txs, 0);
  }

  /** One wave of `execute_block_parallel`. */
  method ExecuteWave(txs: seq<EndorsedTransaction>, wave: seq<nat>, store: WorldState, before: map<nat, TxOutcome>)
    returns (outcomes: map<nat, TxOutcome>)
    requires InRange(wave, |txs|)
    modifies store
    ensures Exec(store.entries, outcomes) == Run(Sets(txs), wave, Exec(old(store.entries), before))
  {
    outcomes := before;
    for k := 0 to |wave|
      invariant Exec(store.entries, outcomes) == Run(Sets(txs), wave[..k], Exec(old(store.entries), before))
    {
      assert wave[..k + 1][..k] == wave[..k];
      var outcome := store.CommitTransaction(txs[wave[k]].rwset);
      outcomes := outcomes[wave[k] := outcome];
    }
    assert wave[..|wave|] == wave;
  }

  /** Phase 1 of one wave of `execute_block_concurrent`: every check reads the world at its start. */
  method ValidateWave(txs: seq<EndorsedTransaction>, wave: seq<nat>, store: WorldState)
    returns (valid: seq<nat>, conflicts: map<nat, TxOutcome>)
    requires InRange(wave, |txs|)
    ensures valid == ValidOf(Sets(txs), wave, store.entries)
    ensures conflicts == ConflictsAt(Sets(txs), wave, store.entries)
  {
    valid, conflicts := [], map[];
    for k := 0 to |wave|
      invariant valid == ValidOf(Sets(txs), wave[..k], store.entries)
      invariant conflicts == ConflictsAt(Sets(txs), wave[..k], store.entries)
    {
      assert wave[..k + 1][..k] == wave[..k];
      ConflictsAtExtends(Sets(txs), wave, store.entries, k);
      var conflict := store.ValidateRwset(txs[wave[k]].rwset);
      match conflict
      case None => valid := valid + [wave[k]];
      case Some(c) => conflicts := conflicts[wave[k] := MvccConflict(c.key)];
    }
    assert wave[..|wave|] == wave;
  }

  /** Phase 2: apply the writes of the valid transactions in ascending order. */
  method ApplyWave(txs: seq<EndorsedTransaction>, valid: seq<nat>, store: WorldState)
    returns (committed: map<nat, TxOutcome>)
    requires InRange(valid, |txs|)
    modifies store
    ensures store.entries == PutEach(Sets(txs), valid, old(store.entries))
    ensures committed == CommitsOf(valid)
  {
    committed := map[];
    for k := 0 to |valid|
      invariant store.entries == PutEach(Sets(txs), valid[..k], old(store.entries))
      invariant committed == CommitsOf(valid[..k])
    {
      assert valid[..k + 1][..k] == valid[..k];
      assert forall i :: i in valid[..k + 1] <==> i in valid[..k] || i == valid[k];
      store.ApplyWrites(txs[valid[k]].rwset.writeSet);
      committed := committed[valid[k] := Committed];
    }
    assert valid[..|valid|] == valid;
  }

  lemma {:induction false} ValidMembers(block: seq<ReadWriteSet>, wave: seq<nat>, start: World)
    requires InRange(wave, |block|)
    ensures forall i :: i in ValidOf(block, wave, start) <==> i in wave && OutcomeOf(block[i], start).Committed?
  {
    if wave != [] {
      var n := |wave| - 1;
      ValidMembers(block, wave[..n], start);
      assert forall i :: i in wave <==> i in wave[..n] || i == wave[n];
    }
  }

  /** The conflicts of the first phase and the commits of the second make up all outcomes of the wave. */
  lemma {:induction false} WaveOutcomes(block: seq<ReadWriteSet>, wave: seq<nat>, start: World)
    requires InRange(wave, |block|)
    ensures ConflictsAt(block, wave, start) + CommitsOf(ValidOf(block, wave, start)) == OutcomesAt(block, wave, start)
  {
    ValidMembers(block, wave, start);
  }

  /** One wave of `execute_block_concurrent`. */
  method ExecuteWaveConcurrently(txs: seq<EndorsedTransaction>, wave: seq<nat>, store: WorldState,
                                 before: map<nat, TxOutcome>)
    returns (outcomes: map<nat, TxOutcome>)
    requires InRange(wave, |txs|)
    requires forall p, q :: 0 <= p < q < |wave| ==> wave[p] < wave[q]
    modifies store
    ensures Exec(store.entries, outcomes) == WholeWave(Sets(txs), wave, Exec(old(store.entries), before))
  {
    var valid, conflicts := ValidateWave(txs, wave, store);
    WaveOutcomes(Sets(txs), wave, store.entries);
    var sorted := SortIndices(valid);
    var committed := ApplyWave(txs, sorted, store);
    outcomes := before + (conflicts + committed);
  }

  lemma {:induction false} ReportsSerial(txs: seq<EndorsedTransaction>, before: World, outcomes: map<nat, TxOutcome>,
                      waves: seq<seq<nat>>, r: BlockExecResult)
    requires outcomes == Sequential(Sets(txs), before).outcomes
    requires |waves| == WaveCount(Sets(txs), |txs|)
    requires r.outcomes == Collect(txs, outcomes) && r.waves == waves
    requires r.committed == CountCommitted(r.outcomes) && r.committed + r.conflicts == |r.outcomes|
    ensures Reports(txs, before, r)
  {
    SequentialRecords(Sets(txs), before);
  }

  /** `execute_block_parallel`: waves in order, each transaction checked and applied in turn. */
  method ExecuteBlockParallel(txs: seq<EndorsedTransaction>, store: WorldState) returns (r: BlockExecResult)
    modifies store
    ensures store.entries == Sequential(Sets(txs), old(store.entries)).world
    ensures Reports(txs, old(store.entries), r)
  {
    ghost var block, start := Sets(txs), Exec(store.entries, map[]);
    var waves := ScheduleBlock(txs);
    var outcomes: map<nat, TxOutcome> := map[];
    WaveOrderIsSerial(block, start);
    for w := 0 to |waves|
      invariant InRange(WaveOrder(block, w), |block|)
      invariant Exec(store.entries, outcomes) == Run(block, WaveOrder(block, w), start)
    {
      var sorted := SortIndices(waves[w]);
      RunConcat(block, WaveOrder(block, w), sorted, start);
      outcomes := ExecuteWave(txs, sorted, store, outcomes);
    }
    var collected := Collect(txs, outcomes);
    var committed, conflicts := Tally(collected);
    r := BlockExecResult(collected, waves, committed, conflicts);
    ReportsSerial(txs, old(store.entries), outcomes, waves, r);
  }

  /** `execute_block_concurrent`: waves in order, each checked as a whole and then applied. */
  method ExecuteBlockConcurrent(txs: seq<EndorsedTransaction>, store: WorldState) returns (r: BlockExecResult)
    modifies store
    ensures store.entries == Sequential(Sets(txs), old(store.entries)).world
    ensures Reports(txs, old(store.entries), r)
  {
    ghost var block, start := Sets(txs), Exec(store.entries, map[]);
    var waves := ScheduleBlock(txs);
    var outcomes: map<nat, TxOutcome> := map[];
    WaveOrderIsSerial(block, start);
    for w := 0 to |waves|
      invariant InRange(WaveOrder(block, w), |block|)
      invariant Exec(store.entries, outcomes) == Run(block, WaveOrder(block, w), start)
    {
      var sorted := SortIndices(waves[w]);
      RunConcat(block, WaveOrder(block, w), sorted, start);
      WavesAreIndependent(block, w);
      WholeWaveIsStepwise(block, sorted, Exec(store.entries, outcomes));
      outcomes := ExecuteWaveConcurrently(txs, sorted, store, outcomes);
    }
    var collected := Collect(txs, outcomes);
    var committed, conflicts := Tally(collected);
    r := BlockExecResult(collected, waves, committed, conflicts);
    ReportsSerial(txs, old(store.entries), outcomes, waves, r);
  }

  /** `to_legacy_results`: the block relabelled with the reported outcomes. */
  function ToLegacyResults(txs: seq<EndorsedTransaction>, r: BlockExecResult): seq<Transaction>
    requires |r.outcomes| == |txs|
  {
    seq(|txs|, i requires 0 <= i < |txs| => Transaction(txs[i].tx.id, Label(r.outcomes[i].1)))
  }

  /** The legacy form of an executor's report is exactly what `commit_block` returns. */
  lemma {:induction false} LegacyResultsAgree(txs: seq<EndorsedTransaction>, before: World, r: BlockExecResult,
                                              results: seq<Transaction>)
    requires Reports(txs, before, r)
    requires |results| == |txs| && Relabelled(txs, Sequential(Sets(txs), before).outcomes, results)
    ensures ToLegacyResults(txs, r) == results
  {
    assert forall i :: 0 <= i < |txs| ==> ToLegacyResults(txs, r)[i] == results[i];
  }
}
