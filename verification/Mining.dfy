/**
 * Mining over the block store (src/mining.rs) and the replay check of the forensic engine
 * (src/forensic.rs). From an empty store every `mine_block` succeeds at the next height, links to
 * its parent, and leaves a chain that replays without a gap. The coinbase records of a run are
 * intact, and add up to the reward schedule, exactly when no user transaction carries the id of a
 * coinbase written before it.
 */
module Mining {
  import opened Wrappers
  import opened MiningRewards

  type Hash = seq<nat>

  datatype Tx = Tx(
    id: string, height: nat, timestamp: nat, source: string, recipient: string, amount: nat, state: string)

  datatype Block = Block(
    height: nat, timestamp: nat, parent: Hash, merkleRoot: Hash, txs: seq<string>, proposer: string)

  /** The in-memory store: committed blocks, the latest height and transactions by id. */
  datatype Store = Store(blocks: map<nat, Block>, latest: nat, txs: map<string, Tx>)
  const EMPTY := Store(map[], 0, map[])

  /** SHA-256 of a block's linkage fields and of the joined transaction ids. */
  datatype Hashes = Hashes(block: Block -> Hash, merkle: seq<string> -> Hash)

  datatype Config = Config(base: nat, interval: nat)

  const NO_PARENT: Hash := seq(32, _ => 0)

  datatype Error = ParentMissing | AlreadyCommitted

  // ---------------------------------------------------------------------------------------------
  // Coinbase ids

  function Digits(n: nat): string {
    if n < 10 then [(n as char) + '0'] else Digits(n / 10) + [((n % 10) as char) + '0']
  }

  function CoinbaseId(height: nat): string {
    "coinbase-" + Digits(height)
  }

  function Parse(s: string): int {
    if s == "" then 0 else Parse(s[..|s| - 1]) * 10 + (s[|s| - 1] as int - '0' as int)
  }

  lemma {:induction false} DigitsParse(n: nat)
    ensures Parse(Digits(n)) == n
  {
    if n >= 10 {
      DigitsParse(n / 10);
      var s := Digits(n);
      assert s[..|s| - 1] == Digits(n / 10);
    } else {
      assert Digits(n)[..0] == "";
    }
  }

  /** Every height has a coinbase id of its own. */
  lemma {:induction false} CoinbaseIdInjective(a: nat, b: nat)
    requires CoinbaseId(a) == CoinbaseId(b)
    ensures a == b
  {
    assert CoinbaseId(a)[9..] == Digits(a) && CoinbaseId(b)[9..] == Digits(b);
    DigitsParse(a);
    DigitsParse(b);
  }

  // ---------------------------------------------------------------------------------------------
  // Mining one block

  datatype Request = Request(miner: string, txs: seq<Tx>, now: nat)

  function NextHeight(s: Store): nat {
    if 0 in s.blocks then s.latest + 1 else 0
  }

  function Coinbase(c: Config, r: Request, height: nat): Tx
    requires c.interval > 0
  {
    Tx(CoinbaseId(height), height, r.now, "coinbase", r.miner, Reward(c.base, c.interval, height), "confirmed")
  }

  function Confirmed(tx: Tx, height: nat): Tx {
    tx.(height := height, state := "confirmed")
  }

  /** The transactions are written one after the other; a later one replaces an earlier one of the same id. */
  function Written(stored: map<string, Tx>, txs: seq<Tx>, height: nat): map<string, Tx> {
    if txs == [] then stored
    else
      var last := Confirmed(txs[|txs| - 1], height);
      Written(stored, txs[..|txs| - 1], height)[last.id := last]
  }

  function Ids(r: Request, height: nat): seq<string> {
    [CoinbaseId(height)] + seq(|r.txs|, i requires 0 <= i < |r.txs| => r.txs[i].id)
  }

  function NewBlock(h: Hashes, s: Store, r: Request, height: nat): Block
    requires height > 0 ==> height - 1 in s.blocks
  {
    var parent := if height > 0 then h.block(s.blocks[height - 1]) else NO_PARENT;
    Block(height, r.now, parent, h.merkle(Ids(r, height)), Ids(r, height), r.miner)
  }

  /** `mine_block`. */
  function MineOne(h: Hashes, c: Config, s: Store, r: Request): Result<Store, Error>
    requires c.interval > 0
  {
    var height := NextHeight(s);
    if height > 0 && height - 1 !in s.blocks then Err(ParentMissing)
    else if height in s.blocks then Err(AlreadyCommitted)
    else
      var coinbase := Coinbase(c, r, height);
      Ok(Store(s.blocks[height := NewBlock(h, s, r, height)],
               if height > s.latest then height else s.latest,
               Written(s.txs[coinbase.id := coinbase], r.txs, height)))
  }

  // ---------------------------------------------------------------------------------------------
  // Runs

  /** The store after a run of requests; a failed one changes nothing. */
  function Run(h: Hashes, c: Config, requests: seq<Request>): Store
    requires c.interval > 0
  {
    if requests == [] then EMPTY
    else
      var before := Run(h, c, requests[..|requests| - 1]);
      var after := MineOne(h, c, before, requests[|requests| - 1]);
      if after.Ok? then after.value else before
  }

  ghost predicate BlockAt(h: Hashes, blocks: map<nat, Block>, i: nat) {
    && i in blocks && blocks[i].height == i
    && (i == 0 ==> blocks[i].parent == NO_PARENT)
    && (i > 0 ==> i - 1 in blocks && blocks[i].parent == h.block(blocks[i - 1]))
  }

  /** The store holds exactly the heights below `n`, each linked to the one before it. */
  ghost predicate Mined(h: Hashes, s: Store, n: nat) {
    && (forall i :: i in s.blocks ==> i < n)
    && (forall i: nat :: i < n ==> BlockAt(h, s.blocks, i))
    && s.latest == if n == 0 then 0 else n - 1
  }

  lemma {:induction false} MinedGrows(h: Hashes, blocks: map<nat, Block>, b: Block, n: nat)
    requires forall i: nat :: i < n ==> BlockAt(h, blocks, i)
    requires b.height == n && (n == 0 ==> b.parent == NO_PARENT)
    requires n > 0 ==> n - 1 in blocks && b.parent == h.block(blocks[n - 1])
    ensures var blocks' := blocks[n := b]; forall i: nat :: i < n + 1 ==> BlockAt(h, blocks', i)
  {
    var blocks' := blocks[n := b];
    forall i: nat | i < n + 1 ensures BlockAt(h, blocks', i) {
      if i < n {
        assert BlockAt(h, blocks, i);
      }
    }
  }

  /** On a mined store of `n` blocks mining succeeds at height `n` and keeps the chain linked. */
  lemma {:induction false} MiningSucceeds(h: Hashes, c: Config, s: Store, r: Request, n: nat)
    requires c.interval > 0 && Mined(h, s, n)
    ensures NextHeight(s) == n && MineOne(h, c, s, r).Ok? && Mined(h, MineOne(h, c, s, r).value, n + 1)
  {
    if n > 0 {
      assert BlockAt(h, s.blocks, 0) && BlockAt(h, s.blocks, n - 1);
    }
    MinedGrows(h, s.blocks, NewBlock(h, s, r, n), n);
  }

  /** Every run of `n` requests leaves `n` linked blocks. */
  lemma {:induction false} RunIsMined(h: Hashes, c: Config, requests: seq<Request>)
    requires c.interval > 0
    ensures Mined(h, Run(h, c, requests), |requests|)
  {
    if requests != [] {
      var front := requests[..|requests| - 1];
      RunIsMined(h, c, front);
      MiningSucceeds(h, c, Run(h, c, front), requests[|requests| - 1], |front|);
    }
  }

  // ---------------------------------------------------------------------------------------------
  // The coinbase records

  predicate Names(txs: seq<Tx>, id: string) {
    exists i :: 0 <= i < |txs| && txs[i].id == id
  }

  /** What is stored under an id after writing: the last transaction of that id, if there is one. */
  lemma {:induction false} WrittenAt(stored: map<string, Tx>, txs: seq<Tx>, height: nat, id: string)
    ensures var r := Written(stored, txs, height);
            if Names(txs, id) then
              id in r && exists i :: 0 <= i < |txs| && txs[i].id == id && r[id] == Confirmed(txs[i], height)
            else (id in r <==> id in stored) && (id in stored ==> r[id] == stored[id])
  {
    if txs != [] {
      var front, last := txs[..|txs| - 1], txs[|txs| - 1];
      WrittenAt(stored, front, height, id);
      if last.id != id && Names(txs, id) {
        var i :| 0 <= i < |txs| && txs[i].id == id;
        assert front[i].id == id && Names(front, id);
        var k :| 0 <= k < |front| && front[k].id == id
                 && Written(stored, front, height)[id] == Confirmed(front[k], height);
        assert txs[k] == front[k];
      }
    }
  }

  /** Some transaction mined in block `k` or later carries the coinbase id of height `k`. */
  ghost predicate Clobbered(requests: seq<Request>, k: nat) {
    exists j :: k <= j < |requests| && Names(requests[j].txs, CoinbaseId(k))
  }

  /** No user transaction claims the source of a coinbase. */
  ghost predicate NoneClaimsSource(requests: seq<Request>) {
    forall j, i :: 0 <= j < |requests| && 0 <= i < |requests[j].txs| ==> requests[j].txs[i].source != "coinbase"
  }

  ghost predicate Intact(c: Config, txs: map<string, Tx>, requests: seq<Request>, k: nat)
    requires c.interval > 0 && k < |requests|
  {
    CoinbaseId(k) in txs && txs[CoinbaseId(k)] == Coinbase(c, requests[k], k)
  }

  ghost predicate Replaced(txs: map<string, Tx>, k: nat) {
    CoinbaseId(k) in txs && txs[CoinbaseId(k)].source != "coinbase"
  }

  lemma {:induction false} RecordAfter(h: Hashes, c: Config, requests: seq<Request>, k: nat)
    requires c.interval > 0 && k < |requests|
    ensures var txs := Run(h, c, requests).txs;
            && (!Clobbered(requests, k) ==> Intact(c, txs, requests, k))
            && (Clobbered(requests, k) && NoneClaimsSource(requests) ==> Replaced(txs, k))
  {
    var n := |requests| - 1;
    var front, last := requests[..n], requests[n];
    var id, before := CoinbaseId(k), Run(h, c, front);
    RunIsMined(h, c, front);
    MiningSucceeds(h, c, before, last, n);
    var coinbase := Coinbase(c, last, n);
    WrittenAt(before.txs[coinbase.id := coinbase], last.txs, n, id);
    if k < n {
      if CoinbaseId(k) == CoinbaseId(n) {
        CoinbaseIdInjective(k, n);
      }
      RecordAfter(h, c, front, k);
      ClobberedStep(requests, k);
    } else if Clobbered(requests, k) {
      var j :| k <= j < |requests| && Names(requests[j].txs, CoinbaseId(k));
      assert Names(last.txs, id);
    } else {
      assert !Names(requests[n].txs, id);
    }
  }

  lemma {:induction false} ClobberedStep(requests: seq<Request>, k: nat)
    requires k < |requests| - 1
    ensures var front := requests[..|requests| - 1];
            Clobbered(requests, k) <==> Clobbered(front, k) || Names(requests[|requests| - 1].txs, CoinbaseId(k))
  {
    var front := requests[..|requests| - 1];
    if Clobbered(front, k) {
      var j :| k <= j < |front| && Names(front[j].txs, CoinbaseId(k));
      assert Names(requests[j].txs, CoinbaseId(k));
    }
    if Clobbered(requests, k) {
      var j :| k <= j < |requests| && Names(requests[j].txs, CoinbaseId(k));
      assert j < |front| ==> Names(front[j].txs, CoinbaseId(k));
    }
  }

  /**
   * After any run, the record of the coinbase of height `k` is the one that was written when it was
   * mined, with the scheduled reward, exactly when nothing mined from then on carries its id.
   */
  lemma {:induction false} CoinbaseSurvivesExactly(h: Hashes, c: Config, requests: seq<Request>, k: nat)
    requires c.interval > 0 && k < |requests| && NoneClaimsSource(requests)
    ensures Intact(c, Run(h, c, requests).txs, requests, k) <==> !Clobbered(requests, k)
  {
    RecordAfter(h, c, requests, k);
  }

  /** The amounts recorded under the first `n` coinbase ids. */
  ghost function Recorded(txs: map<string, Tx>, n: nat): nat {
    if n == 0 then 0
    else Recorded(txs, n - 1) + if CoinbaseId(n - 1) in txs then txs[CoinbaseId(n - 1)].amount else 0
  }

  lemma {:induction false} RecordedIsTotal(c: Config, txs: map<string, Tx>, requests: seq<Request>, n: nat)
    requires c.interval > 0 && n <= |requests|
    requires forall k: nat :: k < |requests| ==> Intact(c, txs, requests, k)
    ensures Recorded(txs, n) == Total(c.base, c.interval, n)
  {
    if n > 0 {
      RecordedIsTotal(c, txs, requests, n - 1);
      assert Intact(c, txs, requests, n - 1);
    }
  }

  /** If no coinbase is overwritten, the coinbases on record add up to the reward schedule. */
  lemma {:induction false} MintedIsSchedule(h: Hashes, c: Config, requests: seq<Request>)
    requires c.interval > 0 && forall k: nat :: k < |requests| ==> !Clobbered(requests, k)
    ensures Recorded(Run(h, c, requests).txs, |requests|) == Total(c.base, c.interval, |requests|)
  {
    forall k: nat | k < |requests| ensures Intact(c, Run(h, c, requests).txs, requests, k) {
      RecordAfter(h, c, requests, k);
    }
    RecordedIsTotal(c, Run(h, c, requests).txs, requests, |requests|);
  }

  /** A transaction with the id of its own block's coinbase takes the place of that record. */
  lemma {:induction false} CoinbaseCanBeReplaced(h: Hashes, c: Config, requests: seq<Request>, r: Request, tx: Tx)
    requires c.interval > 0 && r.txs == [tx] && tx.id == CoinbaseId(|requests|)
    ensures var (id, txs) := (CoinbaseId(|requests|), Run(h, c, requests + [r]).txs);
            id in txs && txs[id] == Confirmed(tx, |requests|)
  {
    var n, all := |requests|, requests + [r];
    assert all[..n] == requests;
    RunIsMined(h, c, requests);
    MiningSucceeds(h, c, Run(h, c, requests), r, n);
    assert r.txs[0].id == CoinbaseId(n);
    var coinbase := Coinbase(c, r, n);
    WrittenAt(Run(h, c, requests).txs[coinbase.id := coinbase], r.txs, n, CoinbaseId(n));
  }

  // ---------------------------------------------------------------------------------------------
  // The service object

  class MiningService {
    const h: Hashes
    const config: Config
    var store: Store

    constructor (h: Hashes, config: Config)
      requires config.interval > 0
      ensures this.h == h && this.config == config && store == Run(h, config, [])
    {
      this.h, this.config := h, config;
      store := EMPTY;
    }

    /** Blocks are written once: a committed height is refused. */
    method WriteBlock(b: Block) returns (e: Option<Error>)
      modifies this`store
      ensures e == if b.height in old(store).blocks then Some(AlreadyCommitted) else None
      ensures store == if e.Some? then old(store) else old(store).(
                         blocks := old(store).blocks[b.height := b],
                         latest := if b.height > old(store).latest then b.height else old(store).latest)
    {
      if b.height in store.blocks {
        return Some(AlreadyCommitted);
      }
      var latest := if b.height > store.latest then b.height else store.latest;
      store := store.(blocks := store.blocks[b.height := b], latest := latest);
      e := None;
    }

    method WriteTransaction(tx: Tx)
      modifies this`store
      ensures store == old(store).(txs := old(store).txs[tx.id := tx])
    {
      store := store.(txs := store.txs[tx.id := tx]);
    }

    method WriteTransactions(txs: seq<Tx>, height: nat)
      modifies this`store
      ensures store == old(store).(txs := Written(old(store).txs, txs, height))
    {
      for i := 0 to |txs|
        invariant store == old(store).(txs := Written(old(store).txs, txs[..i], height))
      {
        assert txs[..i + 1][..i] == txs[..i];
        WriteTransaction(txs[i].(height := height, state := "confirmed"));
      }
      assert txs[..|txs|] == txs;
    }

    /** `mine_block`: one step of a run, or the first failed store access and nothing changed. */
    method MineBlock(r: Request) returns (result: Result<nat, Error>)
      requires config.interval > 0
      modifies this`store
      ensures var after := MineOne(h, config, old(store), r);
              if after.Ok? then result == Ok(NextHeight(old(store))) && store == after.value
              else result == Err(after.error) && store == old(store)
    {
      var height := NextHeight(store);
      var coinbase := Tx(CoinbaseId(height), height, r.now, "coinbase", r.miner,
                         Reward(config.base, config.interval, height), "confirmed");
      var parent := NO_PARENT;
      if height > 0 {
        if height - 1 !in store.blocks {
          return Err(ParentMissing);
        }
        parent := h.block(store.blocks[height - 1]);
      }
      var ids := [coinbase.id] + seq(|r.txs|, i requires 0 <= i < |r.txs| => r.txs[i].id);
      var refused := WriteBlock(Block(height, r.now, parent, h.merkle(ids), ids, r.miner));
      if refused.Some? {
        return Err(refused.value);
      }
      WriteTransaction(coinbase);
      WriteTransactions(r.txs, height);
      result := Ok(height);
    }
  }

  // ---------------------------------------------------------------------------------------------
  // Replay

  datatype Mismatch = Mismatch(height: nat, expected: nat)
  datatype Replay = Replay(from: nat, to: nat, blocks: nat, txs: nat, mismatches: seq<Mismatch>, consistent: bool)

  function TxCount(blocks: seq<Block>): nat {
    if blocks == [] then 0 else TxCount(blocks[..|blocks| - 1]) + |blocks[|blocks| - 1].txs|
  }

  predicate Follows(blocks: seq<Block>, i: nat)
    requires 0 < i < |blocks|
  {
    blocks[i].height == blocks[i - 1].height + 1
  }

  function GapAt(blocks: seq<Block>, i: nat): Mismatch
    requires 0 < i < |blocks|
  {
    Mismatch(blocks[i].height, blocks[i - 1].height + 1)
  }

  /** `replay_blocks`: consistent exactly when the heights have no gap; every transaction is counted. */
  method ReplayBlocks(blocks: seq<Block>) returns (r: Replay)
    ensures r.consistent <==> forall i :: 0 < i < |blocks| ==> Follows(blocks, i)
    ensures r.consistent <==> r.mismatches == []
    ensures r.txs == TxCount(blocks) && r.blocks == |blocks|
    ensures blocks != [] ==> r.from == blocks[0].height && r.to == blocks[|blocks| - 1].height
    ensures forall m :: m in r.mismatches ==>
              exists i :: 0 < i < |blocks| && m == GapAt(blocks, i) && !Follows(blocks, i)
  {
    if blocks == [] {
      return Replay(0, 0, 0, 0, [], true);
    }
    var mismatches: seq<Mismatch> := [];
    var txs := 0;
    assert blocks[..1] == [blocks[0]] && blocks[..1][..0] == [];
    for i := 1 to |blocks|
      invariant mismatches == [] <==> forall j :: 0 < j < i ==> Follows(blocks, j)
      invariant txs + |blocks[0].txs| == TxCount(blocks[..i])
      invariant forall m :: m in mismatches ==>
                  exists j :: 0 < j < i && m == GapAt(blocks, j) && !Follows(blocks, j)
    {
      if !Follows(blocks, i) {
        mismatches := mismatches + [GapAt(blocks, i)];
      }
      txs := txs + |blocks[i].txs|;
      assert blocks[..i + 1][..i] == blocks[..i];
    }
    assert blocks[..|blocks|] == blocks;
    txs := txs + |blocks[0].txs|;
    r := Replay(blocks[0].height, blocks[|blocks| - 1].height, |blocks|, txs, mismatches, mismatches == []);
  }

  /** The chain lists the blocks of the store by height. */
  ghost predicate Lists(chain: seq<Block>, blocks: map<nat, Block>) {
    forall i: nat :: i < |chain| ==> i in blocks && chain[i] == blocks[i]
  }

  /** Every mined chain replays consistently, from height zero to the last. */
  lemma {:induction false} MinedReplays(h: Hashes, s: Store, n: nat, chain: seq<Block>)
    requires Mined(h, s, n) && |chain| == n && Lists(chain, s.blocks)
    ensures forall i :: 0 < i < |chain| ==> Follows(chain, i)
    ensures chain != [] ==> chain[0].height == 0 && chain[n - 1].height == n - 1
  {
    forall i: nat | i < |chain| ensures chain[i].height == i {
      assert BlockAt(h, s.blocks, i);
    }
  }
}
