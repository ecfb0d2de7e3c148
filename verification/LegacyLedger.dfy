/**
 * Balances of the legacy chain as accounts (`calculate_balance` and `add_block` in
 * src/blockchain.rs). A balance is computed with a subtraction that stops at zero, and a block checks
 * each transaction against the chain before it. So a balance is what came in less what went out
 * exactly when no spend was larger than what was there, and a block sees to that as long as it spends
 * once from each account.
 */
module LegacyLedger {
  import opened Wrappers
  import opened LegacyBlocks
  import opened LegacyChain

  function Credit(tx: Tx, address: string): nat {
    if tx.recipient == address && (tx.sender == "0" || tx.sender != address) then tx.amount else 0
  }

  function Debit(tx: Tx, address: string): nat {
    if tx.sender == address && !(tx.sender == "0" && tx.recipient == address) then tx.amount + tx.fee else 0
  }

  function Credits(txs: seq<Tx>, address: string): nat {
    if txs == [] then 0 else Credits(txs[..|txs| - 1], address) + Credit(txs[|txs| - 1], address)
  }

  function Debits(txs: seq<Tx>, address: string): nat {
    if txs == [] then 0 else Debits(txs[..|txs| - 1], address) + Debit(txs[|txs| - 1], address)
  }

  /** After the first `k` transactions no more has gone out than there was. */
  ghost predicate CoveredAt(balance: nat, txs: seq<Tx>, address: string, k: nat)
    requires k <= |txs|
  {
    Debits(txs[..k], address) <= balance + Credits(txs[..k], address)
  }

  ghost predicate Covered(balance: nat, txs: seq<Tx>, address: string) {
    forall k: nat :: k <= |txs| ==> CoveredAt(balance, txs, address, k)
  }

  lemma {:induction false} CoveredFront(balance: nat, txs: seq<Tx>, address: string)
    requires txs != []
    ensures Covered(balance, txs, address) <==>
              Covered(balance, txs[..|txs| - 1], address) && CoveredAt(balance, txs, address, |txs|)
  {
    var front := txs[..|txs| - 1];
    forall k: nat | k <= |front|
      ensures CoveredAt(balance, front, address, k) <==> CoveredAt(balance, txs, address, k)
    {
      assert front[..k] == txs[..k];
    }
  }

  lemma {:induction false} BalanceAtLeast(balance: nat, txs: seq<Tx>, address: string)
    ensures BalanceAfter(balance, txs, address) + Debits(txs, address) >= balance + Credits(txs, address)
  {
    if txs != [] {
      BalanceAtLeast(balance, txs[..|txs| - 1], address);
    }
  }

  /** The computed balance is the exact one if and only if every spend was covered when it came. */
  lemma {:induction false} BalanceExactly(balance: nat, txs: seq<Tx>, address: string)
    ensures BalanceAfter(balance, txs, address) + Debits(txs, address) == balance + Credits(txs, address)
       <==> Covered(balance, txs, address)
  {
    if txs == [] {
      forall k: nat | k <= |txs| ensures CoveredAt(balance, txs, address, k) {
        assert txs[..k] == [];
      }
    } else {
      var front := txs[..|txs| - 1];
      BalanceExactly(balance, front, address);
      BalanceAtLeast(balance, front, address);
      CoveredFront(balance, txs, address);
      assert txs[..|txs|] == txs;
    }
  }

  function AllTxs(chain: seq<Block>): seq<Tx> {
    if chain == [] then [] else AllTxs(chain[..|chain| - 1]) + chain[|chain| - 1].txs
  }

  lemma {:induction false} BalanceConcat(balance: nat, a: seq<Tx>, b: seq<Tx>, address: string)
    ensures BalanceAfter(balance, a + b, address) == BalanceAfter(BalanceAfter(balance, a, address), b, address)
  {
    if b == [] {
      assert a + b == a;
    } else {
      BalanceConcat(balance, a, b[..|b| - 1], address);
      assert (a + b)[..|a + b| - 1] == a + b[..|b| - 1];
    }
  }

  lemma {:induction false} BalanceOfAll(chain: seq<Block>, address: string)
    ensures Balance(chain, address) == BalanceAfter(0, AllTxs(chain), address)
  {
    if chain != [] {
      BalanceOfAll(chain[..|chain| - 1], address);
      BalanceConcat(0, AllTxs(chain[..|chain| - 1]), chain[|chain| - 1].txs, address);
    }
  }

  /** On any chain: a balance is what came in less what went out exactly when every spend was covered. */
  lemma {:induction false} BalanceIsHistoryExactly(chain: seq<Block>, address: string)
    ensures Balance(chain, address) + Debits(AllTxs(chain), address) == Credits(AllTxs(chain), address)
       <==> Covered(0, AllTxs(chain), address)
  {
    BalanceOfAll(chain, address);
    BalanceExactly(0, AllTxs(chain), address);
  }

  // ---------------------------------------------------------------------------------------------
  // What a block keeps

  ghost predicate SpendsOnce(txs: seq<Tx>, address: string) {
    forall i, j :: 0 <= i < j < |txs| ==> !(txs[i].sender == address && txs[j].sender == address)
  }

  lemma {:induction false} EachIsChecked(chain: seq<Block>, wallets: Wallets, txs: seq<Tx>, i: nat)
    requires FirstRefusal(chain, wallets, txs).None? && i < |txs|
    ensures TxRefusal(chain, wallets, txs[i]).None?
  {
    if i < |txs| - 1 {
      EachIsChecked(chain, wallets, txs[..|txs| - 1], i);
    }
  }

  lemma {:induction false} NoDebit(txs: seq<Tx>, address: string)
    requires forall i :: 0 <= i < |txs| ==> txs[i].sender != address
    ensures Debits(txs, address) == 0
  {
    if txs != [] {
      NoDebit(txs[..|txs| - 1], address);
    }
  }

  lemma {:induction false} OneDebit(txs: seq<Tx>, address: string, limit: nat)
    requires SpendsOnce(txs, address)
    requires forall i :: 0 <= i < |txs| ==> Debit(txs[i], address) <= limit
    ensures Debits(txs, address) <= limit
  {
    if txs != [] {
      var front, last := txs[..|txs| - 1], txs[|txs| - 1];
      if last.sender == address {
        NoDebit(front, address);
      } else {
        OneDebit(front, address, limit);
      }
    }
  }

  /** A block whose transactions pass and that spends once from an account covers that spend. */
  lemma {:induction false} OneSpendIsCovered(chain: seq<Block>, wallets: Wallets, txs: seq<Tx>, address: string)
    requires FirstRefusal(chain, wallets, txs).None? && SpendsOnce(txs, address)
    requires address != "0" && address != "STAKING"
    ensures Covered(Balance(chain, address), txs, address)
  {
    var balance := Balance(chain, address);
    forall i | 0 <= i < |txs| ensures Debit(txs[i], address) <= balance {
      EachIsChecked(chain, wallets, txs, i);
    }
    forall k: nat | k <= |txs| ensures CoveredAt(balance, txs, address, k) {
      OneDebit(txs[..k], address, balance);
    }
  }

  ghost predicate BlockSpendsOnce(chain: seq<Block>, address: string, i: nat)
    requires i < |chain|
  {
    SpendsOnce(chain[i].txs, address)
  }

  /**
   * On a chain grown by `add_block`, the balance of an account that the first block does not spend
   * from, and that spends at most once in every other block, is exact.
   */
  lemma {:induction false} CheckedBalanceIsExact(chain: seq<Block>, known: seq<Wallets>, address: string)
    requires Checked(chain, known) && address != "0" && address != "STAKING"
    requires chain != [] ==> forall k :: 0 <= k < |chain[0].txs| ==> chain[0].txs[k].sender != address
    requires forall i: nat :: 0 < i < |chain| ==> BlockSpendsOnce(chain, address, i)
    ensures Balance(chain, address) + Debits(AllTxs(chain), address) == Credits(AllTxs(chain), address)
  {
    if chain != [] {
      var n := |chain| - 1;
      var front, txs := chain[..n], chain[n].txs;
      CheckedFront(chain, known, n);
      forall i: nat | 0 < i < n ensures BlockSpendsOnce(front, address, i) {
        assert BlockSpendsOnce(chain, address, i);
      }
      CheckedBalanceIsExact(front, known[..n], address);
      LastIsCovered(chain, known, address);
      BalanceExactly(Balance(front, address), txs, address);
      Concat(AllTxs(front), txs, address);
    }
  }

  lemma {:induction false} LastIsCovered(chain: seq<Block>, known: seq<Wallets>, address: string)
    requires chain != [] && Checked(chain, known) && address != "0" && address != "STAKING"
    requires forall k :: 0 <= k < |chain[0].txs| ==> chain[0].txs[k].sender != address
    requires |chain| > 1 ==> BlockSpendsOnce(chain, address, |chain| - 1)
    ensures Covered(Balance(chain[..|chain| - 1], address), chain[|chain| - 1].txs, address)
  {
    var n := |chain| - 1;
    if n == 0 {
      UnspentIsCovered(Balance(chain[..n], address), chain[n].txs, address);
    } else {
      assert PassedAt(chain, known[n], n);
      OneSpendIsCovered(chain[..n], known[n], chain[n].txs, address);
    }
  }

  lemma {:induction false} UnspentIsCovered(balance: nat, txs: seq<Tx>, address: string)
    requires forall k :: 0 <= k < |txs| ==> txs[k].sender != address
    ensures Covered(balance, txs, address)
  {
    forall k: nat | k <= |txs| ensures CoveredAt(balance, txs, address, k) {
      NoDebit(txs[..k], address);
    }
  }

  lemma {:induction false} Concat(a: seq<Tx>, b: seq<Tx>, address: string)
    ensures Credits(a + b, address) == Credits(a, address) + Credits(b, address)
    ensures Debits(a + b, address) == Debits(a, address) + Debits(b, address)
  {
    if b == [] {
      assert a + b == a;
    } else {
      Concat(a, b[..|b| - 1], address);
      assert (a + b)[..|a + b| - 1] == a + b[..|b| - 1];
    }
  }

  function Spend(id: string, sender: string, recipient: string): Tx {
    Tx(id, sender, recipient, 6, 1, "", 0, "")
  }

  /** Two spends of 7 in one block pass on a balance of 10, and the second is not covered. */
  lemma {:induction false} TwoSpendsAreNotCovered(chain: seq<Block>, a: string, b: string)
    requires a != "" && b != "" && a != "0" && a != "STAKING" && a != b && Balance(chain, a) == 10
    requires !Confirmed(chain, "x") && !Confirmed(chain, "y")
    ensures var wallets := Wallets(map[a := ""], (_, _) => true);
            FirstRefusal(chain, wallets, [Spend("x", a, b), Spend("y", a, b)]).None?
    ensures !Covered(10, [Spend("x", a, b), Spend("y", a, b)], a)
    ensures BalanceAfter(10, [Spend("x", a, b), Spend("y", a, b)], a) == 0
  {
    var s, t := Spend("x", a, b), Spend("y", a, b);
    var wallets := Wallets(map[a := ""], (_, _) => true);
    assert TxProblem(chain, wallets, s).None? && TxProblem(chain, wallets, t).None?;
    assert [s, t][..1] == [s] && [s][..0] == [] && [s, t][..2] == [s, t];
    assert FirstRefusal(chain, wallets, [s]).None?;
    assert Debits([s], a) == 7 && Credits([s], a) == 0;
    assert !CoveredAt(10, [s, t], a, 2);
    assert BalanceAfter(10, [s], a) == 3;
  }
}
