/**
 * The legacy chain object (src/blockchain.rs): appending blocks and adopting a longer chain. A
 * block that `add_block` appends is always valid and linked, so the chain is valid exactly when it
 * was before; and a user transaction never repeats an id confirmed in an earlier block.
 */
module LegacyChain {
  import opened Wrappers
  import opened LegacyBlocks

  datatype Refusal = Empty | TooLarge | TooMany | Coinbase(why: Problem) | Transaction(why: Problem) | TwoCoinbases

  function SizeOf(txs: seq<Tx>): nat {
    if txs == [] then 200
    else
      var tx := txs[|txs| - 1];
      SizeOf(txs[..|txs| - 1]) + |tx.sender| + |tx.recipient| + |tx.signature| + 50
  }

  function TxRefusal(chain: seq<Block>, wallets: Wallets, tx: Tx): Option<Refusal> {
    if tx.sender == "0" then
      var p := CoinbaseProblem(tx);
      if p.Some? then Some(Coinbase(p.value)) else None
    else if tx.sender == "STAKING" then None
    else
      var p := TxProblem(chain, wallets, tx);
      if p.Some? then Some(Transaction(p.value)) else None
  }

  /** The first transaction that is refused decides. */
  function FirstRefusal(chain: seq<Block>, wallets: Wallets, txs: seq<Tx>): Option<Refusal> {
    if txs == [] then None
    else
      var earlier := FirstRefusal(chain, wallets, txs[..|txs| - 1]);
      if earlier.Some? then earlier else TxRefusal(chain, wallets, txs[|txs| - 1])
  }

  function Coinbases(txs: seq<Tx>): nat {
    if txs == [] then 0 else Coinbases(txs[..|txs| - 1]) + if txs[|txs| - 1].sender == "0" then 1 else 0
  }

  function BlockRefusal(chain: seq<Block>, wallets: Wallets, txs: seq<Tx>, maxBytes: nat, maxTxs: nat)
    : Option<Refusal>
  {
    if txs == [] then Some(Empty)
    else if SizeOf(txs) > maxBytes then Some(TooLarge)
    else if |txs| > maxTxs then Some(TooMany)
    else if FirstRefusal(chain, wallets, txs).Some? then FirstRefusal(chain, wallets, txs)
    else if Coinbases(txs) > 1 then Some(TwoCoinbases)
    else None
  }

  /** Whether this is a moment of adjustment, and how long the last interval took. */
  predicate Adjusts(chain: seq<Block>, interval: nat) {
    |chain| >= 2 && interval >= 2 && |chain| % interval == 0
  }

  function Span(chain: seq<Block>, interval: nat): nat
    requires Adjusts(chain, interval)
  {
    Within(chain, interval);
    var first, last := chain[|chain| - interval].timestamp, chain[|chain| - 1].timestamp;
    if last > first then last - first else 0
  }

  lemma {:induction false} Within(chain: seq<Block>, interval: nat)
    requires Adjusts(chain, interval)
    ensures interval <= |chain|
  {
  }

  function Clamp(d: int): (r: nat)
    ensures 1 <= r <= 20
  {
    if d < 1 then 1 else if d > 20 then 20 else d
  }

  /** `adjust_difficulty`, with the time ratio compared exactly. */
  function Adjusted(chain: seq<Block>, difficulty: nat, target: nat, interval: nat): nat {
    if !Adjusts(chain, interval) then difficulty
    else
      var span, expected := Span(chain, interval), target * interval;
      if span > 0 && 10 * expected < 8 * span then Clamp(difficulty + 1)
      else if span > 0 && 10 * expected > 12 * span then Clamp(difficulty - 1)
      else Clamp(difficulty)
  }

  /**
   * A difficulty within 1 to 20 stays there and moves by at most one. It rises exactly when the last
   * interval took more than a quarter longer than expected, and falls exactly when it took less than
   * five sixths of it, unless it is at the end of the range: slow blocks make mining harder.
   */
  lemma {:induction false} AdjustmentDirection(chain: seq<Block>, difficulty: nat, target: nat, interval: nat)
    requires 1 <= difficulty <= 20
    ensures var d := Adjusted(chain, difficulty, target, interval);
            && 1 <= d <= 20 && difficulty - 1 <= d <= difficulty + 1
            && (d > difficulty <==>
                  Adjusts(chain, interval) && difficulty < 20 && 8 * Span(chain, interval) > 10 * (target * interval))
            && (d < difficulty <==>
                  && Adjusts(chain, interval) && difficulty > 1
                  && 0 < 12 * Span(chain, interval) < 10 * (target * interval))
  {
  }

  function Candidate(h: Hashes, chain: seq<Block>, txs: seq<Tx>, difficulty: nat, now: nat): Block
    requires chain != []
  {
    Block(|chain|, now, txs, chain[|chain| - 1].hash, "", 0, difficulty, MerkleRoot(h, txs))
  }

  // ---------------------------------------------------------------------------------------------
  // What appending keeps

  /** Everything after the first block is valid and linked, and the first has index zero. */
  ghost predicate Built(h: Hashes, chain: seq<Block>) {
    && chain != [] && chain[0].index == 0
    && (forall i :: 0 < i < |chain| ==> IsValid(h, chain[i]))
    && (forall i :: 0 < i < |chain| ==> Linked(chain[i - 1], chain[i]))
  }

  /** Every user transaction has an id that no earlier block contains. */
  ghost predicate NoReplay(chain: seq<Block>) {
    forall i, k :: 0 <= i < |chain| && 0 <= k < |chain[i].txs| && !IsSystem(chain[i].txs[k])
      ==> !Confirmed(chain[..i], chain[i].txs[k].id)
  }

  lemma {:induction false} BuiltIndex(h: Hashes, chain: seq<Block>, i: nat)
    requires Built(h, chain) && i < |chain|
    ensures chain[i].index == i
  {
    if i > 0 {
      BuiltIndex(h, chain, i - 1);
      assert Linked(chain[i - 1], chain[i]);
    }
  }

  /** A chain grown by appending is valid exactly when its first block is. */
  lemma {:induction false} BuiltIsValidFromGenesis(h: Hashes, chain: seq<Block>)
    requires Built(h, chain)
    ensures ValidChain(h, chain) <==> IsValid(h, chain[0])
  {
  }

  /** Appending a valid block keeps validity exactly when the chain's length is the next index. */
  lemma {:induction false} AppendIsValidExactly(h: Hashes, chain: seq<Block>, b: Block)
    requires chain != [] && IsValid(h, b) && b.index == |chain| && b.previousHash == chain[|chain| - 1].hash
    ensures ValidChain(h, chain + [b]) <==> ValidChain(h, chain) && chain[0].index == 0
  {
    var longer := chain + [b];
    var n := |chain|;
    if ValidChain(h, longer) {
      assert forall i :: 0 <= i < n ==> IsValid(h, longer[i]) && longer[i] == chain[i];
      assert forall i :: 0 < i < n ==> Linked(longer[i - 1], longer[i]);
      assert ValidChain(h, chain);
      IndicesCountUp(h, chain, n - 1);
      assert Linked(longer[n - 1], longer[n]);
    }
    if ValidChain(h, chain) && chain[0].index == 0 {
      IndicesCountUp(h, chain, n - 1);
      assert Linked(chain[n - 1], b);
    }
  }

  lemma {:induction false} AppendKeepsBuilt(h: Hashes, chain: seq<Block>, b: Block)
    requires Built(h, chain) && IsValid(h, b) && b.index == |chain| && b.previousHash == chain[|chain| - 1].hash
    ensures Built(h, chain + [b])
  {
    BuiltIndex(h, chain, |chain| - 1);
    assert Linked(chain[|chain| - 1], b);
  }

  lemma {:induction false} AcceptedIsFresh(chain: seq<Block>, wallets: Wallets, txs: seq<Tx>, k: nat)
    requires FirstRefusal(chain, wallets, txs).None? && k < |txs| && !IsSystem(txs[k])
    ensures !Confirmed(chain, txs[k].id)
  {
    if k < |txs| - 1 {
      AcceptedIsFresh(chain, wallets, txs[..|txs| - 1], k);
    }
  }

  lemma {:induction false} AppendKeepsNoReplay(chain: seq<Block>, wallets: Wallets, b: Block)
    requires NoReplay(chain) && FirstRefusal(chain, wallets, b.txs).None?
    ensures NoReplay(chain + [b])
  {
    var longer := chain + [b];
    forall i, k | 0 <= i < |longer| && 0 <= k < |longer[i].txs| && !IsSystem(longer[i].txs[k])
      ensures !Confirmed(longer[..i], longer[i].txs[k].id)
    {
      if i < |chain| {
        assert longer[..i] == chain[..i];
      } else {
        assert longer[..i] == chain;
        AcceptedIsFresh(chain, wallets, b.txs, k);
      }
    }
  }

  /** Every block after the first passed against the chain before it, with the wallets known at the time. */
  ghost predicate Checked(chain: seq<Block>, known: seq<Wallets>) {
    |known| == |chain| && forall i :: 0 < i < |chain| ==> PassedAt(chain, known[i], i)
  }

  ghost predicate PassedAt(chain: seq<Block>, wallets: Wallets, i: nat)
    requires i < |chain|
  {
    FirstRefusal(chain[..i], wallets, chain[i].txs).None?
  }

  lemma {:induction false} AppendKeepsChecked(chain: seq<Block>, known: seq<Wallets>, wallets: Wallets, b: Block)
    requires Checked(chain, known) && FirstRefusal(chain, wallets, b.txs).None?
    ensures Checked(chain + [b], known + [wallets])
  {
    var longer, wider := chain + [b], known + [wallets];
    forall i | 0 < i < |longer| ensures PassedAt(longer, wider[i], i) {
      if i < |chain| {
        assert longer[..i] == chain[..i];
        assert PassedAt(chain, known[i], i);
      } else {
        assert longer[..i] == chain;
      }
    }
  }

  lemma {:induction false} CheckedFront(chain: seq<Block>, known: seq<Wallets>, n: nat)
    requires Checked(chain, known) && n <= |chain|
    ensures Checked(chain[..n], known[..n])
  {
    forall i | 0 < i < n ensures PassedAt(chain[..n], known[i], i) {
      assert chain[..n][..i] == chain[..i];
      assert PassedAt(chain, known[i], i);
    }
  }

  // ---------------------------------------------------------------------------------------------
  // Ids on the chain

  /** Two user transactions carry different ids. */
  predicate IdsDiffer(a: Tx, b: Tx) {
    IsSystem(a) || IsSystem(b) || a.id != b.id
  }

  ghost predicate DistinctUserIds(txs: seq<Tx>) {
    forall k, l :: 0 <= k < l < |txs| ==> IdsDiffer(txs[k], txs[l])
  }

  ghost predicate ShareNoId(a: seq<Tx>, b: seq<Tx>) {
    forall k, l :: 0 <= k < |a| && 0 <= l < |b| ==> IdsDiffer(a[k], b[l])
  }

  ghost predicate BlockIdsDistinct(chain: seq<Block>, i: nat)
    requires i < |chain|
  {
    DistinctUserIds(chain[i].txs)
  }

  /** No two user transactions on the chain, in one block or in two, carry the same id. */
  ghost predicate UserIdsOnce(chain: seq<Block>) {
    && (forall i: nat :: i < |chain| ==> BlockIdsDistinct(chain, i))
    && (forall i, j :: 0 <= i < j < |chain| ==> ShareNoId(chain[i].txs, chain[j].txs))
  }

  /** On a chain without replays between blocks, ids occur once exactly when no block repeats one. */
  lemma {:induction false} IdsOccurOnceExactly(chain: seq<Block>)
    requires NoReplay(chain)
    ensures UserIdsOnce(chain) <==> forall i: nat :: i < |chain| ==> BlockIdsDistinct(chain, i)
  {
    forall i, j | 0 <= i < j < |chain| ensures ShareNoId(chain[i].txs, chain[j].txs) {
      forall k, l | 0 <= k < |chain[i].txs| && 0 <= l < |chain[j].txs|
        ensures IdsDiffer(chain[i].txs[k], chain[j].txs[l])
      {
        if !IsSystem(chain[j].txs[l]) {
          assert !Confirmed(chain[..j], chain[j].txs[l].id);
          assert chain[..j][i] == chain[i];
          assert !HasId(chain[..j][i].txs, chain[j].txs[l].id);
        }
      }
    }
  }

  lemma {:induction false} AppendKeepsIdsExactly(chain: seq<Block>, b: Block)
    requires NoReplay(chain) && NoReplay(chain + [b])
    ensures UserIdsOnce(chain) ==> (UserIdsOnce(chain + [b]) <==> DistinctUserIds(b.txs))
  {
    var longer := chain + [b];
    IdsOccurOnceExactly(longer);
    if UserIdsOnce(chain) {
      forall i: nat | i < |chain| ensures BlockIdsDistinct(longer, i) {
        assert BlockIdsDistinct(chain, i);
      }
      assert BlockIdsDistinct(longer, |chain|) <==> DistinctUserIds(b.txs);
    }
  }

  /** What an accepted block keeps of the record of its chain. */
  lemma {:induction false} AppendKeepsRecord(chain: seq<Block>, known: seq<Wallets>, wallets: Wallets, b: Block)
    requires FirstRefusal(chain, wallets, b.txs).None?
    ensures NoReplay(chain) ==> NoReplay(chain + [b])
    ensures Checked(chain, known) ==> Checked(chain + [b], known + [wallets])
    ensures NoReplay(chain) && UserIdsOnce(chain) ==> (UserIdsOnce(chain + [b]) <==> DistinctUserIds(b.txs))
  {
    if NoReplay(chain) {
      AppendKeepsNoReplay(chain, wallets, b);
      AppendKeepsIdsExactly(chain, b);
    }
    if Checked(chain, known) {
      AppendKeepsChecked(chain, known, wallets, b);
    }
  }

  /** A block may repeat an id: a transaction that passes also passes twice. */
  lemma {:induction false} RepeatInBlockPasses(chain: seq<Block>, wallets: Wallets, tx: Tx)
    requires TxRefusal(chain, wallets, tx).None? && !IsSystem(tx)
    ensures FirstRefusal(chain, wallets, [tx, tx]).None? && Coinbases([tx, tx]) == 0
    ensures !DistinctUserIds([tx, tx])
  {
    var txs := [tx, tx];
    assert txs[..1] == [tx] && [tx][..0] == [];
    assert FirstRefusal(chain, wallets, [tx]).None? && Coinbases([tx]) == 0;
    assert !IdsDiffer(txs[0], txs[1]);
  }

  // ---------------------------------------------------------------------------------------------
  // Rewards and forks

  function TotalFees(txs: seq<Tx>): nat {
    if txs == [] then 0 else TotalFees(txs[..|txs| - 1]) + txs[|txs| - 1].fee
  }

  const BURN_ADDRESS := "BURN_ADDRESS_00000000000000000000"

  function CoinbaseTx(id: string, to: string, amount: nat, now: nat): Tx {
    Tx(id, "0", to, amount, 0, "Coinbase - Mining Reward", now, "")
  }

  /** The transactions `mine_block_with_reward` hands to `add_block`. */
  function WithReward(miner: string, txs: seq<Tx>, reward: nat, id1: string, id2: string, now: nat): seq<Tx> {
    var fees := TotalFees(txs);
    var coinbase := CoinbaseTx(id1, miner, reward + fees * 20 / 100, now);
    var burnt := fees * 80 / 100;
    [coinbase] + (if burnt > 0 then [CoinbaseTx(id2, BURN_ADDRESS, burnt, now)] else []) + txs
  }

  lemma {:induction false} CoinbasesAppend(a: seq<Tx>, b: seq<Tx>)
    ensures Coinbases(a + b) == Coinbases(a) + Coinbases(b)
    decreases |b|
  {
    if b == [] {
      assert a + b == a;
    } else {
      assert (a + b)[..|a + b| - 1] == a + b[..|b| - 1];
      CoinbasesAppend(a, b[..|b| - 1]);
    }
  }

  lemma {:induction false} RewardCoinbases(
    miner: string, txs: seq<Tx>, reward: nat, id1: string, id2: string, now: nat)
    ensures Coinbases(WithReward(miner, txs, reward, id1, id2, now))
            == Coinbases(txs) + if TotalFees(txs) >= 2 then 2 else 1
  {
    var fees := TotalFees(txs);
    var coinbase := [CoinbaseTx(id1, miner, reward + fees * 20 / 100, now)];
    var burn := if fees * 80 / 100 > 0 then [CoinbaseTx(id2, BURN_ADDRESS, fees * 80 / 100, now)] else [];
    CoinbasesAppend(coinbase + burn, txs);
    CoinbasesAppend(coinbase, burn);
    assert coinbase[..0] == [] && (burn != [] ==> burn[..0] == []);
  }

  /**
   * The burnt share of the fees travels as a second coinbase, which `add_block` never lets through.
   * A rewarded block that passes every other check is refused for its coinbases exactly when its
   * fees leave something to burn, or it brought a coinbase of its own; otherwise it is accepted.
   */
  lemma {:induction false} BurningFeesIsRefused(
    chain: seq<Block>, wallets: Wallets, miner: string, txs: seq<Tx>, reward: nat,
    id1: string, id2: string, now: nat, maxBytes: nat, maxTxs: nat)
    requires var all := WithReward(miner, txs, reward, id1, id2, now);
             SizeOf(all) <= maxBytes && |all| <= maxTxs && FirstRefusal(chain, wallets, all).None?
    ensures var refusal :=
              BlockRefusal(chain, wallets, WithReward(miner, txs, reward, id1, id2, now), maxBytes, maxTxs);
            refusal == if TotalFees(txs) >= 2 || Coinbases(txs) > 0 then Some(TwoCoinbases) else None
  {
    RewardCoinbases(miner, txs, reward, id1, id2, now);
  }

  ghost predicate AllPass(chain: seq<Block>, wallets: Wallets, txs: seq<Tx>) {
    forall k :: 0 <= k < |txs| && txs[k].sender != "0" ==> TxProblem(chain, wallets, txs[k]).None?
  }

  /** What `resolve_conflict` asks of a chain before adopting it in place of `chain`. */
  ghost predicate Adoptable(h: Hashes, chain: seq<Block>, other: seq<Block>, wallets: Wallets) {
    && |other| > |chain| && ValidChain(h, other)
    && forall i :: 0 <= i < |other| ==> AllPass(chain, wallets, other[i].txs)
  }

  /** A chain that shares a confirmed user transaction with ours is never adopted, however long. */
  lemma {:induction false} SharedHistoryIsNotAdopted(
    h: Hashes, chain: seq<Block>, other: seq<Block>, wallets: Wallets, i: nat, k: nat)
    requires i < |other| && k < |other[i].txs| && !IsSystem(other[i].txs[k])
    requires Confirmed(chain, other[i].txs[k].id)
    ensures !Adoptable(h, chain, other, wallets)
  {
    assert TxProblem(chain, wallets, other[i].txs[k]).Some?;
    assert !AllPass(chain, wallets, other[i].txs);
  }

  /** A block that stands at any place when every header hashes to the empty text. */
  function PlainBlock(h: Hashes, index: nat, txs: seq<Tx>): Block {
    Block(index, 0, txs, "", "", 0, 0, MerkleRoot(h, txs))
  }

  /** A longer chain that repeats a transaction in two blocks is adopted if that transaction passes. */
  lemma {:induction false} RepeatIsAdopted(h: Hashes, chain: seq<Block>, wallets: Wallets, first: Tx, tx: Tx)
    requires forall header :: h.header(header) == ""
    requires |chain| <= 2 && first.sender == "0" && TxProblem(chain, wallets, tx).None? && !IsSystem(tx)
    ensures var other := [PlainBlock(h, 0, [first]), PlainBlock(h, 1, [tx]), PlainBlock(h, 2, [tx])];
            Adoptable(h, chain, other, wallets) && !NoReplay(other)
  {
    var other := [PlainBlock(h, 0, [first]), PlainBlock(h, 1, [tx]), PlainBlock(h, 2, [tx])];
    assert AllPass(chain, wallets, [first]) && AllPass(chain, wallets, [tx]);
    assert HasId(other[..2][1].txs, other[1].txs[0].id);
    assert Confirmed(other[..2], other[2].txs[0].id);
  }

  // ---------------------------------------------------------------------------------------------
  // The chain object

  class Blockchain {
    const h: Hashes
    var chain: seq<Block>
    var difficulty: nat
    var targetBlockTime: nat
    var adjustmentInterval: nat
    var maxTransactions: nat
    var maxBlockBytes: nat
    ghost var known: seq<Wallets>  // the wallets each block was checked with

    constructor (h: Hashes, difficulty: nat, genesisTx: Tx)
      ensures this.h == h && Built(h, chain) && |chain| == 1
      ensures chain[0].txs == [genesisTx] && Checked(chain, known)
      ensures genesisTx.sender == "0" ==> NoReplay(chain)
      ensures ValidChain(h, chain) <==> GenesisWillBeValid(h, genesisTx, difficulty)
    {
      this.h, this.difficulty := h, difficulty;
      targetBlockTime, adjustmentInterval, maxTransactions, maxBlockBytes := 60, 10, 1000, 1_000_000;
      var genesis := CreateGenesis(h, difficulty, genesisTx);
      chain := [genesis];
      known := [Wallets(map[], (_, _) => false)];
    }

    /** Follows `Adjusted`: within 1 to 20 it moves by at most one, and reports whether it moved. */
    method AdjustDifficulty() returns (changed: bool)
      modifies this`difficulty
      ensures difficulty == Adjusted(chain, old(difficulty), targetBlockTime, adjustmentInterval)
      ensures changed <==> difficulty != old(difficulty)
      ensures 1 <= old(difficulty) <= 20 ==>
                1 <= difficulty <= 20 && old(difficulty) - 1 <= difficulty <= old(difficulty) + 1
    {
      if |chain| < 2 || adjustmentInterval == 0 || |chain| % adjustmentInterval != 0 {
        return false;
      }
      var recent := chain[|chain| - adjustmentInterval..];
      if |recent| < 2 {
        return false;
      }
      var first, last := recent[0].timestamp, recent[|recent| - 1].timestamp;
      var span := if last > first then last - first else 0;
      var expected := targetBlockTime * adjustmentInterval;
      var before := difficulty;
      if span > 0 && 10 * expected < 8 * span {
        difficulty := if difficulty + 1 < 255 then difficulty + 1 else 255;
      } else if span > 0 && 10 * expected > 12 * span {
        difficulty := if difficulty > 0 then difficulty - 1 else 0;
      }
      difficulty := Clamp(difficulty);
      changed := before != difficulty;
    }

    method CheckTransactions(txs: seq<Tx>, wallets: Wallets) returns (r: Option<Refusal>, coinbases: nat)
      ensures r == FirstRefusal(chain, wallets, txs)
      ensures r.None? ==> coinbases == Coinbases(txs)
    {
      coinbases := 0;
      for i := 0 to |txs|
        invariant FirstRefusal(chain, wallets, txs[..i]).None? && coinbases == Coinbases(txs[..i])
      {
        var tx := txs[i];
        assert txs[..i + 1][..i] == txs[..i];
        if tx.sender == "0" {
          coinbases := coinbases + 1;
        }
        r := TxRefusal(chain, wallets, tx);
        if r.Some? {
          RefusalStands(chain, wallets, txs, i);
          return;
        }
      }
      assert txs[..|txs|] == txs;
      r := None;
    }

    /**
     * `add_block`: an accepted block is mined and appended. The chain stays as valid as it was, and
     * no user transaction in it repeats an id confirmed before.
     */
    method AddBlock(txs: seq<Tx>, wallets: Wallets, now: nat, ghost enough: nat) returns (r: Result<string, Refusal>)
      requires chain != []
      requires var d := Adjusted(chain, difficulty, targetBlockTime, adjustmentInterval);
               BlockRefusal(chain, wallets, txs, maxBlockBytes, maxTransactions).None? ==>
                 Meets(HashOf(h, Candidate(h, chain, txs, d, now).(nonce := enough)), d)
      modifies this`chain, this`difficulty, this`known
      ensures r.Err? <==> BlockRefusal(old(chain), wallets, txs, maxBlockBytes, maxTransactions).Some?
      ensures r.Err? ==> chain == old(chain) && difficulty == old(difficulty) && known == old(known)
                         && Some(r.error) == BlockRefusal(old(chain), wallets, txs, maxBlockBytes, maxTransactions)
      ensures r.Ok? ==>
                && |chain| == |old(chain)| + 1 && chain[..|old(chain)|] == old(chain)
                && IsValid(h, chain[|old(chain)|]) && chain[|old(chain)|].txs == txs
                && chain[|old(chain)|].hash == r.value
      ensures r.Ok? ==> (ValidChain(h, chain) <==> ValidChain(h, old(chain)) && old(chain)[0].index == 0)
      ensures old(Built(h, chain)) ==> Built(h, chain)
      ensures old(NoReplay(chain)) ==> NoReplay(chain)
      ensures old(Checked(chain, known)) ==> Checked(chain, known)
      ensures r.Ok? && old(UserIdsOnce(chain) && NoReplay(chain)) ==> (UserIdsOnce(chain) <==> DistinctUserIds(txs))
    {
      if txs == [] {
        return Err(Empty);
      }
      if SizeOf(txs) > maxBlockBytes {
        return Err(TooLarge);
      }
      if |txs| > maxTransactions {
        return Err(TooMany);
      }
      var refusal, coinbases := CheckTransactions(txs, wallets);
      if refusal.Some? {
        return Err(refusal.value);
      }
      if coinbases > 1 {
        return Err(TwoCoinbases);
      }
      var _ := AdjustDifficulty();
      var block := Candidate(h, chain, txs, difficulty, now);
      var mined := Mine(h, block, enough);
      ghost var before := chain;
      chain := chain + [mined];
      AppendIsValidExactly(h, before, mined);
      if Built(h, before) {
        AppendKeepsBuilt(h, before, mined);
      }
      AppendKeepsRecord(before, known, wallets, mined);
      known := known + [wallets];
      r := Ok(mined.hash);
    }

    method CheckAll(txs: seq<Tx>, wallets: Wallets) returns (pass: bool)
      ensures pass == AllPass(chain, wallets, txs)
    {
      for k := 0 to |txs|
        invariant forall l :: 0 <= l < k && txs[l].sender != "0" ==> TxProblem(chain, wallets, txs[l]).None?
      {
        if txs[k].sender != "0" {
          var p := ValidateTransaction(chain, wallets, txs[k]);
          if p.Some? {
            return false;
          }
        }
      }
      pass := true;
    }

    /**
     * `resolve_conflict`: adopt a longer valid chain if all its user transactions pass against ours.
     * They are not checked against each other, so replays are kept out exactly when the adopted chain
     * has none; `theirs` are the wallets its blocks were checked with, if they were.
     */
    method ResolveConflict(other: seq<Block>, wallets: Wallets, ghost theirs: seq<Wallets>) returns (adopted: bool)
      modifies this`chain, this`known
      ensures adopted <==> Adoptable(h, old(chain), other, wallets)
      ensures chain == if adopted then other else old(chain)
      ensures known == if adopted then theirs else old(known)
      ensures old(NoReplay(chain)) ==> (NoReplay(chain) <==> !adopted || NoReplay(other))
      ensures old(Checked(chain, known)) ==> (Checked(chain, known) <==> !adopted || Checked(other, theirs))
    {
      if |other| <= |chain| {
        return false;
      }
      var valid := IsValidChainStatic(h, other);
      if !valid {
        return false;
      }
      for i := 0 to |other|
        invariant chain == old(chain) && known == old(known)
        invariant forall j :: 0 <= j < i ==> AllPass(chain, wallets, other[j].txs)
      {
        var pass := CheckAll(other[i].txs, wallets);
        if !pass {
          return false;
        }
      }
      chain, known := other, theirs;
      adopted := true;
    }
  }

  /** Once a transaction is refused, the whole list is, for the same reason. */
  lemma {:induction false} RefusalStands(chain: seq<Block>, wallets: Wallets, txs: seq<Tx>, i: nat)
    requires i < |txs| && FirstRefusal(chain, wallets, txs[..i]).None? && TxRefusal(chain, wallets, txs[i]).Some?
    ensures FirstRefusal(chain, wallets, txs) == TxRefusal(chain, wallets, txs[i])
    decreases |txs|
  {
    var front := txs[..|txs| - 1];
    if i < |txs| - 1 {
      assert front[..i] == txs[..i];
      RefusalStands(chain, wallets, front, i);
    }
  }
}
