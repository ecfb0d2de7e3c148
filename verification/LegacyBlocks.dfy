/**
 * Blocks of the legacy chain and the checks on them (src/blockchain.rs): block validity, the two
 * chain validators, the genesis block, and the checks a transaction must pass to enter a block.
 * SHA-256 over a header, a transaction and a pair of hashes are three unknown functions.
 */
module LegacyBlocks {
  import opened Wrappers
  import Merkle

  const GENESIS_TIMESTAMP := 1_700_000_000
  const GENESIS_NONCE_LIMIT := 10_000_000
  const GENESIS_FALLBACK_NONCE := 12_345
  const MAX_COINBASE_AMOUNT := 1_000_000_000
  const MIN_ADDRESS_LENGTH := 32

  datatype Tx = Tx(
    id: string, sender: string, recipient: string, amount: nat, fee: nat,
    data: string, timestamp: nat, signature: string)

  datatype Header = Header(
    index: nat, timestamp: nat, merkleRoot: string, previousHash: string, nonce: nat, count: nat)

  datatype Block = Block(
    index: nat, timestamp: nat, txs: seq<Tx>, previousHash: string,
    hash: string, nonce: nat, difficulty: nat, merkleRoot: string)

  datatype Hashes = Hashes(header: Header -> string, leaf: Tx -> string, pair: Merkle.Digest)

  /** The hash carries the required number of leading zeros. */
  predicate Meets(hash: string, difficulty: nat) {
    difficulty <= |hash| && forall i :: 0 <= i < difficulty ==> hash[i] == '0'
  }

  function HashOf(h: Hashes, b: Block): string {
    h.header(Header(b.index, b.timestamp, b.merkleRoot, b.previousHash, b.nonce, |b.txs|))
  }

  function Leaves(h: Hashes, txs: seq<Tx>): seq<string> {
    seq(|txs|, i requires 0 <= i < |txs| => h.leaf(txs[i]))
  }

  function MerkleRoot(h: Hashes, txs: seq<Tx>): string {
    if txs == [] then "" else Merkle.Root(h.pair, Leaves(h, txs))
  }

  method CalculateMerkleRoot(h: Hashes, txs: seq<Tx>) returns (root: string)
    ensures root == MerkleRoot(h, txs)
  {
    if txs == [] {
      return "";
    }
    root := Merkle.FoldLevels(h.pair, Leaves(h, txs));
  }

  /** Two valid blocks with one root and one transaction count hold the same transaction hashes. */
  lemma {:induction false} RootFixesTransactions(h: Hashes, a: Block, b: Block)
    requires IsValid(h, a) && IsValid(h, b) && a.merkleRoot == b.merkleRoot && |a.txs| == |b.txs| > 0
    requires Merkle.FixedLength(h.pair) && forall tx :: |h.leaf(tx)| == Merkle.HASH_LENGTH
    requires Merkle.NoCollision(h.pair,
                                Merkle.Hashed(h.pair, Leaves(h, a.txs)) + Merkle.Hashed(h.pair, Leaves(h, b.txs)))
    ensures Leaves(h, a.txs) == Leaves(h, b.txs)
  {
    assert Merkle.AllHashes(Leaves(h, a.txs)) && Merkle.AllHashes(Leaves(h, b.txs));
    Merkle.RootBindsLeaves(h.pair, Leaves(h, a.txs), Leaves(h, b.txs));
  }

  predicate IsValid(h: Hashes, b: Block) {
    && b.hash == HashOf(h, b)
    && Meets(b.hash, b.difficulty)
    && b.merkleRoot == MerkleRoot(h, b.txs)
  }

  predicate Linked(previous: Block, current: Block) {
    current.previousHash == previous.hash && current.index == previous.index + 1
  }

  ghost predicate ValidChain(h: Hashes, chain: seq<Block>) {
    && chain != []
    && (forall i :: 0 <= i < |chain| ==> IsValid(h, chain[i]))
    && (forall i :: 0 < i < |chain| ==> Linked(chain[i - 1], chain[i]))
  }

  method CheckBlock(h: Hashes, b: Block) returns (ok: bool)
    ensures ok == IsValid(h, b)
  {
    var root := CalculateMerkleRoot(h, b.txs);
    ok := b.hash == HashOf(h, b) && Meets(b.hash, b.difficulty) && b.merkleRoot == root;
  }

  /** `is_chain_valid`: its check for repeated indices never refuses a chain the links accept. */
  method IsChainValid(h: Hashes, chain: seq<Block>) returns (ok: bool)
    ensures ok == ValidChain(h, chain)
  {
    if chain == [] {
      return false;
    }
    var first := CheckBlock(h, chain[0]);
    if !first {
      return false;
    }
    var seen := {0};
    for i := 1 to |chain|
      invariant forall k :: 0 <= k < i ==> IsValid(h, chain[k])
      invariant forall k :: 0 < k < i ==> Linked(chain[k - 1], chain[k])
      invariant forall x :: x in seen ==> x <= chain[i - 1].index
    {
      var current := chain[i];
      var valid := CheckBlock(h, current);
      if !(valid && Linked(chain[i - 1], current) && current.index !in seen) {
        return false;
      }
      seen := seen + {current.index};
    }
    ok := true;
  }

  /** `is_valid_chain_static`: accepts exactly the same chains. */
  method IsValidChainStatic(h: Hashes, chain: seq<Block>) returns (ok: bool)
    ensures ok == ValidChain(h, chain)
  {
    if chain == [] {
      return false;
    }
    var first := CheckBlock(h, chain[0]);
    if !first {
      return false;
    }
    for i := 1 to |chain|
      invariant forall k :: 0 <= k < i ==> IsValid(h, chain[k])
      invariant forall k :: 0 < k < i ==> Linked(chain[k - 1], chain[k])
    {
      var valid := CheckBlock(h, chain[i]);
      if !valid || !Linked(chain[i - 1], chain[i]) {
        return false;
      }
    }
    ok := true;
  }

  /** A valid chain's indices count up from its first one. */
  lemma {:induction false} IndicesCountUp(h: Hashes, chain: seq<Block>, i: nat)
    requires ValidChain(h, chain) && i < |chain|
    ensures chain[i].index == chain[0].index + i
  {
    if i > 0 {
      IndicesCountUp(h, chain, i - 1);
      assert Linked(chain[i - 1], chain[i]);
    }
  }

  // ---------------------------------------------------------------------------------------------
  // The nonce searches

  /** `mine_sequential`: the first nonce, from the block's own on, whose hash meets the difficulty. */
  method Mine(h: Hashes, block: Block, ghost enough: nat) returns (mined: Block)
    requires block.nonce <= enough && Meets(HashOf(h, block.(nonce := enough)), block.difficulty)
    ensures block.nonce <= mined.nonce <= enough
    ensures mined == block.(nonce := mined.nonce, hash := HashOf(h, block.(nonce := mined.nonce)))
    ensures Meets(mined.hash, mined.difficulty) && mined.hash == HashOf(h, mined)
    ensures forall n :: block.nonce <= n < mined.nonce ==> !Meets(HashOf(h, block.(nonce := n)), block.difficulty)
  {
    mined := block.(hash := HashOf(h, block));
    while !Meets(mined.hash, mined.difficulty)
      invariant block.nonce <= mined.nonce <= enough
      invariant mined == block.(nonce := mined.nonce, hash := HashOf(h, block.(nonce := mined.nonce)))
      invariant forall n :: block.nonce <= n < mined.nonce ==> !Meets(HashOf(h, block.(nonce := n)), block.difficulty)
      decreases enough - mined.nonce
    {
      assert mined.nonce != enough;
      mined := mined.(nonce := mined.nonce + 1);
      mined := mined.(hash := HashOf(h, mined));
    }
  }

  function GenesisHash(h: Hashes, tx: Tx, nonce: nat): string {
    h.header(Header(0, GENESIS_TIMESTAMP, MerkleRoot(h, [tx]), "0", nonce, 1))
  }

  predicate GenesisMeets(h: Hashes, tx: Tx, difficulty: nat, nonce: nat) {
    Meets(GenesisHash(h, tx, nonce), difficulty)
  }

  /** No nonce below `n` meets the difficulty. */
  ghost predicate NoneMeets(h: Hashes, tx: Tx, difficulty: nat, n: nat) {
    forall k: nat :: k < n ==> !GenesisMeets(h, tx, difficulty, k)
  }

  /** The first nonce that meets the difficulty, within the limit of the search. */
  ghost predicate FirstMeets(h: Hashes, tx: Tx, difficulty: nat, n: nat) {
    n < GENESIS_NONCE_LIMIT && GenesisMeets(h, tx, difficulty, n) && NoneMeets(h, tx, difficulty, n)
  }

  /** When the genesis block will be valid: only if two nonces in a row hash alike, or a hash is empty. */
  ghost predicate GenesisWillBeValid(h: Hashes, tx: Tx, difficulty: nat) {
    if difficulty == 0 then GenesisHash(h, tx, 0) == ""
    else exists n :: FoundTwice(h, tx, difficulty, n)
  }

  /** The search ends at `n`, and the nonce after it, which is stored, hashes to the same. */
  ghost predicate FoundTwice(h: Hashes, tx: Tx, difficulty: nat, n: nat) {
    FirstMeets(h, tx, difficulty, n) && GenesisHash(h, tx, n + 1) == GenesisHash(h, tx, n)
  }

  /**
   * `create_genesis_block`. The search stores the nonce after the one it hashed, and its fallback
   * reuses a nonce it has already rejected.
   */
  method CreateGenesis(h: Hashes, difficulty: nat, tx: Tx) returns (b: Block)
    ensures b == Block(0, GENESIS_TIMESTAMP, [tx], "0", b.hash, b.nonce, difficulty, MerkleRoot(h, [tx]))
    ensures difficulty == 0 ==> b.nonce == 0 && b.hash == ""
    ensures forall n: nat :: difficulty > 0 && FirstMeets(h, tx, difficulty, n) ==>
              b.nonce == n + 1 && b.hash == GenesisHash(h, tx, n)
    ensures difficulty > 0 && NoneMeets(h, tx, difficulty, GENESIS_NONCE_LIMIT) ==>
              b.nonce == GENESIS_FALLBACK_NONCE && b.hash == GenesisHash(h, tx, b.nonce) && !IsValid(h, b)
    ensures IsValid(h, b) <==> GenesisWillBeValid(h, tx, difficulty)
  {
    var root := CalculateMerkleRoot(h, [tx]);
    var nonce, hash := 0, "";
    ghost var fallback := false;
    while !Meets(hash, difficulty)
      invariant 0 <= nonce <= GENESIS_NONCE_LIMIT && !fallback
      invariant hash == if nonce == 0 then "" else GenesisHash(h, tx, nonce - 1)
      invariant nonce > 0 ==> difficulty > 0 && NoneMeets(h, tx, difficulty, nonce - 1)
      decreases GENESIS_NONCE_LIMIT - nonce
    {
      OneMoreRejected(h, tx, difficulty, nonce);
      hash := GenesisHash(h, tx, nonce);
      nonce := nonce + 1;
      if nonce > GENESIS_NONCE_LIMIT {
        nonce := GENESIS_FALLBACK_NONCE;
        hash := GenesisHash(h, tx, nonce);
        fallback := true;
        break;
      }
    }
    b := Block(0, GENESIS_TIMESTAMP, [tx], "0", hash, nonce, difficulty, root);
    if fallback {
      FallbackIsRejected(h, tx, difficulty, b);
    } else if difficulty > 0 {
      FoundDecides(h, tx, difficulty, b);
    }
  }

  lemma {:induction false} OneMoreRejected(h: Hashes, tx: Tx, difficulty: nat, nonce: nat)
    requires nonce > 0 ==> NoneMeets(h, tx, difficulty, nonce - 1) && !GenesisMeets(h, tx, difficulty, nonce - 1)
    ensures NoneMeets(h, tx, difficulty, nonce)
  {
  }

  lemma {:induction false} FirstIsUnique(h: Hashes, tx: Tx, difficulty: nat, m: nat, n: nat)
    requires FirstMeets(h, tx, difficulty, m) && FirstMeets(h, tx, difficulty, n)
    ensures m == n
  {
  }

  lemma {:induction false} FallbackIsRejected(h: Hashes, tx: Tx, difficulty: nat, b: Block)
    requires difficulty > 0 && NoneMeets(h, tx, difficulty, GENESIS_NONCE_LIMIT)
    requires b.nonce == GENESIS_FALLBACK_NONCE && b.hash == GenesisHash(h, tx, b.nonce) && b.difficulty == difficulty
    ensures !IsValid(h, b) && !GenesisWillBeValid(h, tx, difficulty)
    ensures forall n: nat :: !FirstMeets(h, tx, difficulty, n)
  {
    assert !GenesisMeets(h, tx, difficulty, GENESIS_FALLBACK_NONCE);
    forall n: nat ensures !FirstMeets(h, tx, difficulty, n) {
      assert n < GENESIS_NONCE_LIMIT ==> !GenesisMeets(h, tx, difficulty, n);
    }
  }

  lemma {:induction false} FoundDecides(h: Hashes, tx: Tx, difficulty: nat, b: Block)
    requires difficulty > 0 && b.nonce > 0 && FirstMeets(h, tx, difficulty, b.nonce - 1)
    requires b == Block(0, GENESIS_TIMESTAMP, [tx], "0", b.hash, b.nonce, difficulty, MerkleRoot(h, [tx]))
    requires b.hash == GenesisHash(h, tx, b.nonce - 1)
    ensures IsValid(h, b) <==> GenesisWillBeValid(h, tx, difficulty)
    ensures forall n: nat :: FirstMeets(h, tx, difficulty, n) ==> n == b.nonce - 1
    ensures !NoneMeets(h, tx, difficulty, GENESIS_NONCE_LIMIT)
  {
    assert GenesisMeets(h, tx, difficulty, b.nonce - 1);
    forall n: nat | FirstMeets(h, tx, difficulty, n) ensures n == b.nonce - 1 {
      FirstIsUnique(h, tx, difficulty, n, b.nonce - 1);
    }
    assert HashOf(h, b) == GenesisHash(h, tx, b.nonce);
    if IsValid(h, b) {
      assert FoundTwice(h, tx, difficulty, b.nonce - 1);
    }
  }

  // ---------------------------------------------------------------------------------------------
  // Transactions

  /** The wallets known to the node, by address, and the signature check. */
  datatype Wallets = Wallets(keys: map<string, string>, verifies: (string, Tx) -> bool)

  datatype Problem =
    | NotCoinbase | NoRecipient | ZeroAmount | AmountTooLarge | SignedCoinbase | ShortRecipient
    | BadFields | NoWallet | BadSignature | InsufficientBalance | NoFee | DoubleSpend

  function CoinbaseProblem(tx: Tx): Option<Problem> {
    if tx.sender != "0" then Some(NotCoinbase)
    else if tx.recipient == "" then Some(NoRecipient)
    else if tx.amount == 0 then Some(ZeroAmount)
    else if tx.amount > MAX_COINBASE_AMOUNT then Some(AmountTooLarge)
    else if tx.signature != "" then Some(SignedCoinbase)
    else if |tx.recipient| < MIN_ADDRESS_LENGTH then Some(ShortRecipient)
    else None
  }

  /** How one transaction changes the balance of `address`; a spend never takes it below zero. */
  function After(balance: nat, tx: Tx, address: string): nat {
    if tx.sender == "0" && tx.recipient == address then balance + tx.amount
    else if tx.sender == address then
      if balance < tx.amount + tx.fee then 0 else balance - (tx.amount + tx.fee)
    else if tx.recipient == address then balance + tx.amount
    else balance
  }

  function BalanceAfter(balance: nat, txs: seq<Tx>, address: string): nat {
    if txs == [] then balance else After(BalanceAfter(balance, txs[..|txs| - 1], address), txs[|txs| - 1], address)
  }

  function Balance(chain: seq<Block>, address: string): nat {
    if chain == [] then 0
    else BalanceAfter(Balance(chain[..|chain| - 1], address), chain[|chain| - 1].txs, address)
  }

  method CalculateBalance(chain: seq<Block>, address: string) returns (balance: nat)
    ensures balance == Balance(chain, address)
  {
    balance := 0;
    for i := 0 to |chain|
      invariant balance == Balance(chain[..i], address)
    {
      var txs := chain[i].txs;
      ghost var before := balance;
      for k := 0 to |txs|
        invariant balance == BalanceAfter(before, txs[..k], address)
      {
        balance := After(balance, txs[k], address);
        assert txs[..k + 1][..k] == txs[..k];
      }
      assert txs[..|txs|] == txs && chain[..i + 1][..i] == chain[..i];
    }
    assert chain[..|chain|] == chain;
  }

  predicate HasId(txs: seq<Tx>, id: string) {
    exists k :: 0 <= k < |txs| && txs[k].id == id
  }

  predicate Confirmed(chain: seq<Block>, id: string) {
    exists i :: 0 <= i < |chain| && HasId(chain[i].txs, id)
  }

  predicate IsSystem(tx: Tx) {
    tx.sender == "0" || tx.sender == "STAKING"
  }

  function TxProblem(chain: seq<Block>, wallets: Wallets, tx: Tx): Option<Problem> {
    if tx.sender == "" || tx.recipient == "" || tx.amount == 0 then Some(BadFields)
    else if IsSystem(tx) then None
    else if tx.sender !in wallets.keys then Some(NoWallet)
    else if !wallets.verifies(wallets.keys[tx.sender], tx) then Some(BadSignature)
    else if Balance(chain, tx.sender) < tx.amount + tx.fee then Some(InsufficientBalance)
    else if tx.fee == 0 then Some(NoFee)
    else if Confirmed(chain, tx.id) then Some(DoubleSpend)
    else None
  }

  method ValidateTransaction(chain: seq<Block>, wallets: Wallets, tx: Tx) returns (p: Option<Problem>)
    ensures p == TxProblem(chain, wallets, tx)
  {
    if tx.sender == "" || tx.recipient == "" || tx.amount == 0 {
      return Some(BadFields);
    }
    if tx.sender == "STAKING" || tx.sender == "0" {
      return None;
    }
    if tx.sender !in wallets.keys {
      return Some(NoWallet);
    }
    if !wallets.verifies(wallets.keys[tx.sender], tx) {
      return Some(BadSignature);
    }
    var balance := CalculateBalance(chain, tx.sender);
    if balance < tx.amount + tx.fee {
      return Some(InsufficientBalance);
    }
    if tx.fee == 0 {
      return Some(NoFee);
    }
    if Confirmed(chain, tx.id) {
      return Some(DoubleSpend);
    }
    p := None;
  }
}
