/**
 * The versioned world state and the multi-version check made before a transaction commits
 * (src/storage/world_state.rs, src/transaction/mvcc.rs, src/transaction/rwset.rs).
 *
 * A block is a sequence of read-write sets. `Step` commits one of them against the world and
 * records its outcome; `Run` commits them in a given order. The order of the block itself is
 * what `CommitBlock` uses; the parallel executors use another one.
 */
module Mvcc {
  import opened Wrappers

  type Key = string
  type Bytes = seq<bv8>

  datatype KVRead = KVRead(key: Key, version: nat)
  datatype KVWrite = KVWrite(key: Key, value: Bytes)
  datatype ReadWriteSet = ReadWriteSet(readSet: seq<KVRead>, writeSet: seq<KVWrite>)

  datatype VersionedValue = VersionedValue(version: nat, data: Bytes)
  type World = map<Key, VersionedValue>

  datatype Conflict = Conflict(key: Key, readVersion: nat, currentVersion: nat)
  datatype TxOutcome = Committed | MvccConflict(key: Key)

  /** The world after some transactions of a block, with the outcome of each by batch index. */
  datatype Exec = Exec(world: World, outcomes: map<nat, TxOutcome>)

  function VersionAt(w: World, k: Key): nat {
    if k in w then w[k].version else 0
  }

  function PutEntry(w: World, k: Key, data: Bytes): World {
    w[k := VersionedValue(VersionAt(w, k) + 1, data)]
  }

  function PutAll(w: World, writes: seq<KVWrite>): World {
    if writes == [] then w
    else
      var last := writes[|writes| - 1];
      PutEntry(PutAll(w, writes[..|writes| - 1]), last.key, last.value)
  }

  /** The first read whose version is not the committed one. */
  function FirstConflict(readSet: seq<KVRead>, w: World): (r: Option<Conflict>)
    ensures r.None? <==> forall i :: 0 <= i < |readSet| ==> readSet[i].version == VersionAt(w, readSet[i].key)
  {
    if readSet == [] then None
    else if readSet[0].version != VersionAt(w, readSet[0].key) then
      Some(Conflict(readSet[0].key, readSet[0].version, VersionAt(w, readSet[0].key)))
    else
      var r := FirstConflict(readSet[1..], w);
      assert readSet == [readSet[0]] + readSet[1..];
      r
  }

  function OutcomeOf(rw: ReadWriteSet, w: World): TxOutcome {
    match FirstConflict(rw.readSet, w)
    case None => Committed
    case Some(c) => MvccConflict(c.key)
  }

  function CommitOne(rw: ReadWriteSet, w: World): World {
    if OutcomeOf(rw, w).Committed? then PutAll(w, rw.writeSet) else w
  }

  function Step(block: seq<ReadWriteSet>, s: Exec, i: nat): Exec
    requires i < |block|
  {
    Exec(CommitOne(block[i], s.world), s.outcomes[i := OutcomeOf(block[i], s.world)])
  }

  ghost predicate InRange(order: seq<nat>, n: nat) {
    forall k :: 0 <= k < |order| ==> order[k] < n
  }

  function Run(block: seq<ReadWriteSet>, order: seq<nat>, s: Exec): Exec
    requires InRange(order, |block|)
  {
    if order == [] then s
    else Step(block, Run(block, order[..|order| - 1], s), order[|order| - 1])
  }

  /** The batch indices 0 .. n-1 in order. */
  function UpTo(n: nat): (r: seq<nat>)
    ensures |r| == n && forall k :: 0 <= k < n ==> r[k] == k
  {
    seq(n, i => i)
  }

  lemma {:induction false} RunConcat(block: seq<ReadWriteSet>, a: seq<nat>, b: seq<nat>, s: Exec)
    requires InRange(a, |block|) && InRange(b, |block|)
    ensures InRange(a + b, |block|)
    ensures Run(block, a + b, s) == Run(block, b, Run(block, a, s))
    decreases |b|
  {
    if b == [] {
      assert a + b == a;
    } else {
      RunConcat(block, a, b[..|b| - 1], s);
      assert (a + b)[..|a + b| - 1] == a + b[..|b| - 1];
    }
  }

  // ---------------------------------------------------------------------------------------------
  // Keys a transaction touches

  function ReadKeys(rw: ReadWriteSet): set<Key> {
    set i | 0 <= i < |rw.readSet| :: rw.readSet[i].key
  }

  function WriteKeys(rw: ReadWriteSet): set<Key> {
    set i | 0 <= i < |rw.writeSet| :: rw.writeSet[i].key
  }

  ghost predicate AgreeAt(v: World, w: World, k: Key) {
    (k in v <==> k in w) && (k in v ==> v[k] == w[k])
  }

  /** Writes change nothing outside their own keys. */
  lemma {:induction false} PutAllFrame(w: World, writes: seq<KVWrite>, k: Key)
    requires forall i :: 0 <= i < |writes| ==> writes[i].key != k
    ensures AgreeAt(PutAll(w, writes), w, k)
  {
    if writes != [] {
      PutAllFrame(w, writes[..|writes| - 1], k);
    }
  }

  /** What a key holds after some writes depends only on what it held before. */
  lemma {:induction false} PutAllLocal(v: World, w: World, writes: seq<KVWrite>, k: Key)
    requires AgreeAt(v, w, k)
    ensures AgreeAt(PutAll(v, writes), PutAll(w, writes), k)
  {
    if writes != [] {
      PutAllLocal(v, w, writes[..|writes| - 1], k);
    }
  }

  lemma {:induction false} CommitFrame(rw: ReadWriteSet, w: World, k: Key)
    requires k !in WriteKeys(rw)
    ensures AgreeAt(CommitOne(rw, w), w, k)
  {
    forall i | 0 <= i < |rw.writeSet| ensures rw.writeSet[i].key != k {
      assert rw.writeSet[i].key in WriteKeys(rw);
    }
    PutAllFrame(w, rw.writeSet, k);
  }

  lemma {:induction false} FirstConflictLocal(readSet: seq<KVRead>, v: World, w: World)
    requires forall i :: 0 <= i < |readSet| ==> VersionAt(v, readSet[i].key) == VersionAt(w, readSet[i].key)
    ensures FirstConflict(readSet, v) == FirstConflict(readSet, w)
  {
    if readSet != [] {
      FirstConflictLocal(readSet[1..], v, w);
    }
  }

  /** The check of one transaction ignores a commit that writes none of the keys it reads. */
  lemma {:induction false} OutcomeUnaffected(rw: ReadWriteSet, other: ReadWriteSet, w: World)
    requires WriteKeys(other) !! ReadKeys(rw)
    ensures OutcomeOf(rw, CommitOne(other, w)) == OutcomeOf(rw, w)
  {
    forall i | 0 <= i < |rw.readSet|
      ensures VersionAt(CommitOne(other, w), rw.readSet[i].key) == VersionAt(w, rw.readSet[i].key)
    {
      assert rw.readSet[i].key in ReadKeys(rw);
      CommitFrame(other, w, rw.readSet[i].key);
    }
    FirstConflictLocal(rw.readSet, CommitOne(other, w), w);
  }

  // ---------------------------------------------------------------------------------------------
  // The store and the sequential committer

  class WorldState {
    var entries: World

    constructor ()
      ensures entries == map[]
    {
      entries := map[];
    }

    method Get(key: Key) returns (r: Option<VersionedValue>)
      ensures r == if key in entries then Some(entries[key]) else None
    {
      r := if key in entries then Some(entries[key]) else None;
    }

    method Put(key: Key, data: Bytes) returns (version: nat)
      modifies this
      ensures entries == PutEntry(old(entries), key, data)
      ensures version == VersionAt(entries, key) == VersionAt(old(entries), key) + 1
    {
      version := if key in entries then entries[key].version + 1 else 1;
      entries := entries[key := VersionedValue(version, data)];
    }

    /** `validate_rwset`: the first stale read, if any. */
    method ValidateRwset(rw: ReadWriteSet) returns (r: Option<Conflict>)
      ensures r == FirstConflict(rw.readSet, entries)
    {
      for i := 0 to |rw.readSet|
        invariant FirstConflict(rw.readSet[i..], entries) == FirstConflict(rw.readSet, entries)
      {
        var read := rw.readSet[i];
        var vv := Get(read.key);
        var current := match vv case Some(v) => v.version case None => 0;
        assert rw.readSet[i..][1..] == rw.readSet[i + 1..];
        if read.version != current {
          return Some(Conflict(read.key, read.version, current));
        }
      }
      return None;
    }

    method ApplyWrites(writes: seq<KVWrite>)
      modifies this
      ensures entries == PutAll(old(entries), writes)
    {
      for i := 0 to |writes|
        invariant entries == PutAll(old(entries), writes[..i])
      {
        var _ := Put(writes[i].key, writes[i].value);
        assert writes[..i + 1][..i] == writes[..i];
      }
      assert writes[..|writes|] == writes;
    }

    /** Check one transaction and, if no read is stale, apply its writes. */
    method CommitTransaction(rw: ReadWriteSet) returns (outcome: TxOutcome)
      modifies this
      ensures entries == CommitOne(rw, old(entries))
      ensures outcome == OutcomeOf(rw, old(entries))
    {
      var conflict := ValidateRwset(rw);
      match conflict
      case None =>
        ApplyWrites(rw.writeSet);
        outcome := Committed;
      case Some(c) =>
        outcome := MvccConflict(c.key);
    }
  }

  datatype Transaction = Transaction(id: string, state: string)
  datatype EndorsedTransaction = EndorsedTransaction(tx: Transaction, rwset: ReadWriteSet)

  function Sets(txs: seq<EndorsedTransaction>): (r: seq<ReadWriteSet>)
    ensures |r| == |txs| && forall i :: 0 <= i < |txs| ==> r[i] == txs[i].rwset
  {
    seq(|txs|, i requires 0 <= i < |txs| => txs[i].rwset)
  }

  function Label(o: TxOutcome): string {
    if o.Committed? then "committed" else "mvcc_conflict"
  }

  /** The block committed in its own order, from a given world. */
  function Sequential(block: seq<ReadWriteSet>, w: World): Exec {
    Run(block, UpTo(|block|), Exec(w, map[]))
  }

  lemma {:induction false} RunRecords(block: seq<ReadWriteSet>, order: seq<nat>, s: Exec)
    requires InRange(order, |block|)
    ensures Run(block, order, s).outcomes.Keys == s.outcomes.Keys + set k | 0 <= k < |order| :: order[k]
  {
    if order != [] {
      var n := |order| - 1;
      RunRecords(block, order[..n], s);
      assert order == order[..n] + [order[n]];
      assert (set k | 0 <= k < |order| :: order[k])
          == (set k | 0 <= k < n :: order[..n][k]) + {order[n]};
    }
  }

  lemma {:induction false} SequentialRecords(block: seq<ReadWriteSet>, w: World)
    ensures forall i :: 0 <= i < |block| ==> i in Sequential(block, w).outcomes
  {
    RunRecords(block, UpTo(|block|), Exec(w, map[]));
    forall i | 0 <= i < |block| ensures i in Sequential(block, w).outcomes {
      assert UpTo(|block|)[i] == i;
    }
  }

  /** The transactions of a block relabelled with their outcomes. */
  ghost predicate Relabelled(txs: seq<EndorsedTransaction>, outcomes: map<nat, TxOutcome>, results: seq<Transaction>) {
    && |results| <= |txs|
    && forall i :: 0 <= i < |results| ==>
         i in outcomes && results[i] == Transaction(txs[i].tx.id, Label(outcomes[i]))
  }

  lemma {:induction false} RelabelledExtend(txs: seq<EndorsedTransaction>, outcomes: map<nat, TxOutcome>,
                                            results: seq<Transaction>, o: TxOutcome)
    requires Relabelled(txs, outcomes, results) && |results| < |txs|
    ensures Relabelled(txs, outcomes[|results| := o],
                       results + [Transaction(txs[|results|].tx.id, Label(o))])
  {
  }

  /** `commit_block`: check and apply each transaction in block order; conflicts are only marked. */
  method CommitBlock(txs: seq<EndorsedTransaction>, store: WorldState) returns (results: seq<Transaction>)
    modifies store
    ensures store.entries == Sequential(Sets(txs), old(store.entries)).world
    ensures |results| == |txs|
    ensures Relabelled(txs, Sequential(Sets(txs), old(store.entries)).outcomes, results)
  {
    results := [];
    ghost var block := Sets(txs);
    ghost var s := Exec(store.entries, map[]);
    for i := 0 to |txs|
      invariant s == Run(block, UpTo(i), Exec(old(store.entries), map[]))
      invariant store.entries == s.world
      invariant |results| == i && Relabelled(txs, s.outcomes, results)
    {
      assert UpTo(i + 1)[..i] == UpTo(i);
      var outcome := store.CommitTransaction(txs[i].rwset);
      RelabelledExtend(txs, s.outcomes, results, outcome);
      s := Step(block, s, i);
      results := results + [txs[i].tx.(state := Label(outcome))];
    }
  }
}
