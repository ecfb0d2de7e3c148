/**
 * Two rules of the token calls (src/smart_contracts.rs) that hold only on a condition: the cap on
 * tokens per owner, which is checked when a token is minted and not when it is transferred, and that
 * an approval on record is the present owner's, which a transfer by the owner does not see to.
 */
module NftRules {
  import opened Wrappers
  import opened Addresses
  import opened Nft

  ghost predicate WithinCapFor(s: Tokens, owner: Address) {
    |Owned(s, owner)| <= MAX_TOKENS_PER_OWNER
  }

  ghost predicate WithinCap(s: Tokens) {
    forall owner :: WithinCapFor(s, owner)
  }

  lemma {:induction false} SmallerSet(a: set<nat>, b: set<nat>)
    requires a <= b
    ensures |a| <= |b|
  {
    assert b == a + (b - a);
  }

  ghost function Holdings(owners: map<nat, Address>, owner: Address): set<nat> {
    set id | id in owners && owners[id] == owner
  }

  lemma {:induction false} HoldingsAreOwned(s: Tokens, owner: Address)
    ensures Owned(s, owner) == Holdings(s.owners, owner)
  {
  }

  lemma {:induction false} Given(owners: map<nat, Address>, id: nat, to: Address, owner: Address)
    requires id in owners ==> owners[id] != to
    ensures owner == to ==> |Holdings(owners[id := to], owner)| == |Holdings(owners, owner)| + 1
    ensures owner != to ==> |Holdings(owners[id := to], owner)| <= |Holdings(owners, owner)|
  {
    var after := Holdings(owners[id := to], owner);
    if owner == to {
      assert after == Holdings(owners, owner) + {id};
    } else {
      SmallerSet(after, Holdings(owners, owner));
    }
  }

  /** Who owns how many tokens after an accepted transfer. */
  lemma {:induction false} TransferMoves(s: Tokens, op: Op, owner: Address)
    requires ErrorOf(s, op).None? && (op.Transfer? || op.TransferFrom?)
    ensures owner == op.to ==> |Owned(Apply(s, op), owner)| == |Owned(s, owner)| + 1
    ensures owner != op.to ==> |Owned(Apply(s, op), owner)| <= |Owned(s, owner)|
  {
    assert Apply(s, op).owners == s.owners[op.id := op.to];
    HoldingsAreOwned(s, owner);
    HoldingsAreOwned(Apply(s, op), owner);
    Given(s.owners, op.id, op.to, owner);
  }

  lemma {:induction false} MintGives(s: Tokens, op: Op, owner: Address)
    requires ErrorOf(s, op).None? && op.Mint?
    ensures owner == op.to ==> |Owned(Apply(s, op), owner)| == |Owned(s, owner)| + 1
    ensures owner != op.to ==> |Owned(Apply(s, op), owner)| <= |Owned(s, owner)|
  {
    HoldingsAreOwned(s, owner);
    HoldingsAreOwned(Apply(s, op), owner);
    Given(s.owners, op.id, op.to, owner);
  }

  lemma {:induction false} OtherCallsKeepCap(s: Tokens, op: Op, owner: Address)
    requires ErrorOf(s, op).None? && !op.Transfer? && !op.TransferFrom? && WithinCapFor(s, owner)
    requires TokensOf(s, owner) == Owned(s, owner)
    ensures WithinCapFor(Apply(s, op), owner)
  {
    if op.Mint? {
      MintGives(s, op, owner);
    } else {
      assert Apply(s, op).owners.Keys <= s.owners.Keys;
      SmallerSet(Owned(Apply(s, op), owner), Owned(s, owner));
    }
  }

  /** An accepted call keeps every owner within the cap unless it transfers to one who has reached it. */
  lemma {:induction false} CapIsKeptExactly(s: Tokens, op: Op)
    requires Inv(s) && WithinCap(s) && ErrorOf(s, op).None?
    ensures WithinCap(Apply(s, op)) <==>
              !((op.Transfer? || op.TransferFrom?) && |TokensOf(s, op.to)| >= MAX_TOKENS_PER_OWNER)
  {
    var s' := Apply(s, op);
    if op.Transfer? || op.TransferFrom? {
      assert TokensOf(s, op.to) == Owned(s, op.to);
      TransferMoves(s, op, op.to);
      assert WithinCapFor(s', op.to) <==> |Owned(s, op.to)| < MAX_TOKENS_PER_OWNER;
      forall owner | owner != op.to ensures WithinCapFor(s', owner) {
        assert WithinCapFor(s, owner);
        TransferMoves(s, op, owner);
      }
    } else {
      forall owner ensures WithinCapFor(s', owner) {
        assert WithinCapFor(s, owner) && TokensOf(s, owner) == Owned(s, owner);
        OtherCallsKeepCap(s, op, owner);
      }
    }
  }

  lemma {:induction false} RunAgreesFor(ops: seq<Op>, owner: Address)
    ensures TokensOf(Run(ops), owner) == Owned(Run(ops), owner)
  {
    ReachableInv(ops);
  }

  lemma {:induction false} RunExtends(ops: seq<Op>, op: Op)
    ensures Run(ops + [op]) == Step(Run(ops), op)
  {
    assert (ops + [op])[..|ops|] == ops;
  }

  /** The tokens 1 to `n` minted to one owner. */
  ghost predicate Minted(s: Tokens, to: Address, n: nat) {
    |Owned(s, to)| == |s.index| == n && forall id :: id in s.owners ==> id <= n && s.owners[id] == to
  }

  lemma {:induction false} MintNext(s: Tokens, to: Address, n: nat)
    requires Minted(s, to, n) && n < MAX_TOKENS_PER_OWNER && CheckAddress(to).None? && TokensOf(s, to) == Owned(s, to)
    ensures Minted(Step(s, Mint(to, n + 1, "")), to, n + 1)
  {
    var op := Mint(to, n + 1, "");
    assert CheckAll([to]).None?;
    MintGives(s, op, to);
  }

  lemma {:induction false} MintMany(to: Address, n: nat) returns (ops: seq<Op>)
    requires CheckAddress(to).None? && n <= MAX_TOKENS_PER_OWNER
    ensures Minted(Run(ops), to, n)
  {
    if n == 0 {
      assert Owned(Run([]), to) == {};
      return [];
    }
    var front := MintMany(to, n - 1);
    RunAgreesFor(front, to);
    MintNext(Run(front), to, n - 1);
    ops := front + [Mint(to, n, "")];
    RunExtends(front, Mint(to, n, ""));
  }

  lemma {:induction false} OneMoreTransferred(s: Tokens, a: Address, b: Address, n: nat)
    requires Minted(s, a, n) && n == MAX_TOKENS_PER_OWNER && TokensOf(s, b) == Owned(s, b)
    requires CheckAddress(a).None? && CheckAddress(b).None? && a != b
    ensures |Owned(Step(Step(s, Mint(b, n + 1, "")), Transfer(b, a, n + 1, b)), a)| == n + 1
  {
    var mint, move := Mint(b, n + 1, ""), Transfer(b, a, n + 1, b);
    assert Owned(s, b) == {};
    assert CheckAll([b]).None? && CheckAll([b, a, b]).None?;
    var s' := Step(s, mint);
    assert s' == Apply(s, mint) && ErrorOf(s', move).None?;
    assert Owned(s', a) == Owned(s, a);
    TransferMoves(s', move, a);
  }

  /** A run that fills one owner up to the cap and then transfers one more token to it. */
  lemma {:induction false} TransferPassesCap(a: Address, b: Address, n: nat) returns (ops: seq<Op>)
    requires CheckAddress(a).None? && CheckAddress(b).None? && a != b && n == MAX_TOKENS_PER_OWNER
    ensures |Owned(Run(ops), a)| == n + 1
  {
    var full := MintMany(a, n);
    var mint, move := Mint(b, n + 1, ""), Transfer(b, a, n + 1, b);
    RunAgreesFor(full, b);
    OneMoreTransferred(Run(full), a, b, n);
    RunExtends(full, mint);
    RunExtends(full + [mint], move);
    ops := full + [mint] + [move];
  }

  // ---------------------------------------------------------------------------------------------
  // Approvals

  /** The token belongs to `owner` and `to` is approved for it. */
  ghost predicate OnRecord(s: Tokens, id: nat, owner: Address, to: Address) {
    id in s.approvals && id in s.owners && s.approvals[id] == to && s.owners[id] == owner
  }

  ghost predicate Gave(s: Tokens, op: Op, owner: Address, to: Address, id: nat) {
    op == Approve(owner, to, id) && ErrorOf(s, op).None?
  }

  /** An accepted transfer by the owner of a token that has an approval on record. */
  predicate LeavesApproval(s: Tokens, op: Op) {
    ErrorOf(s, op).None? && op.Transfer? && op.caller == op.from && op.id in s.approvals
  }

  /** Every other step leaves only approvals that it was given or that stood before, with their owner. */
  lemma {:induction false} ApprovalStep(s: Tokens, op: Op, id: nat, owner: Address, to: Address)
    requires LiveOnly(s) && OnRecord(Step(s, op), id, owner, to) && !LeavesApproval(s, op)
    ensures OnRecord(s, id, owner, to) || Gave(s, op, owner, to, id)
  {
  }

  /** Such a transfer leaves the approval with a token that now belongs to another. */
  lemma {:induction false} ApprovalIsLeft(s: Tokens, op: Op)
    requires LeavesApproval(s, op)
    ensures OnRecord(Step(s, op), op.id, op.to, s.approvals[op.id]) && op.id in s.owners && s.owners[op.id] != op.to
  {
  }

  /** The state after the first `n` calls. */
  function At(ops: seq<Op>, n: nat): Tokens
    requires n <= |ops|
  {
    if n == 0 then NO_TOKENS else Step(At(ops, n - 1), ops[n - 1])
  }

  lemma {:induction false} AtIsRun(ops: seq<Op>, n: nat)
    requires n <= |ops|
    ensures At(ops, n) == Run(ops[..n])
  {
    if n > 0 {
      AtIsRun(ops, n - 1);
      assert ops[..n] == ops[..n - 1] + [ops[n - 1]];
      RunExtends(ops[..n - 1], ops[n - 1]);
    }
  }

  lemma {:induction false} AtIsLive(ops: seq<Op>, n: nat)
    requires n <= |ops|
    ensures LiveOnly(At(ops, n))
  {
    AtIsRun(ops, n);
    ReachableInv(ops[..n]);
  }

  /** Call `k` gave the approval, and it has stood with its owner up to call `n`. */
  ghost predicate Stood(ops: seq<Op>, n: nat, id: nat, owner: Address, to: Address, k: nat)
    requires n <= |ops|
  {
    && k < n && Gave(At(ops, k), ops[k], owner, to, id)
    && forall j :: k < j <= n ==> OnRecord(At(ops, j), id, owner, to)
  }

  /** The approval for a token was given by its present owner and has stood since. */
  ghost predicate ApprovalStands(ops: seq<Op>, n: nat, id: nat)
    requires n <= |ops|
  {
    var s := At(ops, n);
    id in s.approvals ==> id in s.owners && exists k: nat :: Stood(ops, n, id, s.owners[id], s.approvals[id], k)
  }

  /** So it is for every approval on record after `n` calls. */
  ghost predicate ApprovalsStand(ops: seq<Op>, n: nat)
    requires n <= |ops|
  {
    forall id :: ApprovalStands(ops, n, id)
  }

  /** What stood before the call, or was given by it, stands after it. */
  lemma {:induction false} StandsOneMore(ops: seq<Op>, n: nat, id: nat, owner: Address, to: Address) returns (k: nat)
    requires n < |ops| && ApprovalStands(ops, n, id)
    requires OnRecord(At(ops, n), id, owner, to) || Gave(At(ops, n), ops[n], owner, to, id)
    requires OnRecord(At(ops, n + 1), id, owner, to)
    ensures Stood(ops, n + 1, id, owner, to, k)
  {
    if Gave(At(ops, n), ops[n], owner, to, id) {
      k := n;
    } else {
      k :| Stood(ops, n, id, owner, to, k);
    }
  }

  lemma {:induction false} StepStands(ops: seq<Op>, n: nat, id: nat)
    requires n < |ops| && ApprovalStands(ops, n, id) && !LeavesApproval(At(ops, n), ops[n])
    ensures ApprovalStands(ops, n + 1, id)
  {
    AtIsLive(ops, n);
    AtIsLive(ops, n + 1);
    var s := At(ops, n + 1);
    if id in s.approvals {
      ApprovalStep(At(ops, n), ops[n], id, s.owners[id], s.approvals[id]);
      var k := StandsOneMore(ops, n, id, s.owners[id], s.approvals[id]);
    }
  }

  /** A call that gives nothing cannot make stand what was not on record before it. */
  lemma {:induction false} NotStood(ops: seq<Op>, n: nat, id: nat, owner: Address, to: Address, k: nat)
    requires n < |ops| && !ops[n].Approve? && !OnRecord(At(ops, n), id, owner, to)
    ensures !Stood(ops, n + 1, id, owner, to, k)
  {
  }

  /** The `i`-th call leaves an approval. */
  ghost predicate Leaves(ops: seq<Op>, i: nat)
    requires i < |ops|
  {
    LeavesApproval(At(ops, i), ops[i])
  }

  lemma {:induction false} LeftDoesNotStand(ops: seq<Op>, n: nat)
    requires n < |ops| && Leaves(ops, n)
    ensures !ApprovalsStand(ops, n + 1)
  {
    var (id, to, s) := (ops[n].id, ops[n].to, At(ops, n));
    ApprovalIsLeft(s, ops[n]);
    var (spender, m) := (s.approvals[id], n + 1);
    assert OnRecord(At(ops, m), id, to, spender);
    forall k: nat ensures !Stood(ops, m, id, to, spender, k) {
      NotStood(ops, n, id, to, spender, k);
    }
    assert !ApprovalStands(ops, m, id);
  }

  lemma {:induction false} ApprovalsStandUpTo(ops: seq<Op>, n: nat)
    requires n <= |ops| && forall i: nat :: i < n ==> !Leaves(ops, i)
    ensures ApprovalsStand(ops, n)
  {
    if n > 0 {
      ApprovalsStandUpTo(ops, n - 1);
      assert !Leaves(ops, n - 1);
      forall id ensures ApprovalStands(ops, n, id) {
        assert ApprovalStands(ops, n - 1, id);
        StepStands(ops, n - 1, id);
      }
    }
  }

  /**
   * After every call of a run each approval on record was given by the present owner and has stood
   * since, if and only if no owner transfers a token that has an approval on record.
   */
  lemma {:induction false} ApprovalsStandExactly(ops: seq<Op>)
    ensures (forall n: nat :: n <= |ops| ==> ApprovalsStand(ops, n))
       <==> forall i: nat :: i < |ops| ==> !Leaves(ops, i)
  {
    if forall i: nat :: i < |ops| ==> !Leaves(ops, i) {
      forall n: nat | n <= |ops| ensures ApprovalsStand(ops, n) {
        ApprovalsStandUpTo(ops, n);
      }
    } else {
      var i: nat :| i < |ops| && Leaves(ops, i);
      LeftDoesNotStand(ops, i);
    }
  }

  // A run in which an approval outlives the ownership of the one who gave it.

  /** Token 1 and nothing else, owned by `owner`, with `approvals`. */
  ghost predicate Holds(s: Tokens, owner: Address, approvals: map<nat, Address>) {
    s.owners == map[1 := owner] && s.approvals == approvals
  }

  lemma {:induction false} FirstMint(a: Address)
    requires CheckAddress(a).None?
    ensures Holds(Step(NO_TOKENS, Mint(a, 1, "")), a, map[])
  {
    assert CheckAll([a]).None?;
  }

  lemma {:induction false} ThenApprove(s: Tokens, a: Address, c: Address)
    requires CheckAddress(a).None? && CheckAddress(c).None? && a != c && Holds(s, a, map[])
    ensures Holds(Step(s, Approve(a, c, 1)), a, map[1 := c])
  {
    assert CheckAll([a, c]).None?;
  }

  lemma {:induction false} ThenTransfer(s: Tokens, a: Address, b: Address, c: Address)
    requires CheckAddress(a).None? && CheckAddress(b).None? && a != b && Holds(s, a, map[1 := c])
    ensures Holds(Step(s, Transfer(a, b, 1, a)), b, map[1 := c]) && LeavesApproval(s, Transfer(a, b, 1, a))
  {
    assert CheckAll([a, b, a]).None?;
  }

  lemma {:induction false} ThenTransferFrom(s: Tokens, b: Address, c: Address)
    requires CheckAddress(b).None? && CheckAddress(c).None? && b != c && Holds(s, b, map[1 := c])
    ensures Holds(Step(s, TransferFrom(b, c, 1, c)), c, map[])
  {
    assert CheckAll([b, c, c]).None?;
  }

  /** The approval that the first owner gave still moves the token of the second. */
  lemma {:induction false} ApprovalOutlivesOwner(a: Address, b: Address, c: Address)
    requires CheckAddress(a).None? && CheckAddress(b).None? && CheckAddress(c).None? && a != b && b != c && a != c
    ensures var ops := [Mint(a, 1, ""), Approve(a, c, 1), Transfer(a, b, 1, a), TransferFrom(b, c, 1, c)];
            && Holds(At(ops, 3), b, map[1 := c]) && !ApprovalsStand(ops, 3)
            && Holds(At(ops, 4), c, map[])
  {
    var ops := [Mint(a, 1, ""), Approve(a, c, 1), Transfer(a, b, 1, a), TransferFrom(b, c, 1, c)];
    FirstMint(a);
    assert At(ops, 1) == Step(At(ops, 0), ops[0]) && At(ops, 0) == NO_TOKENS;
    ThenApprove(At(ops, 1), a, c);
    assert At(ops, 2) == Step(At(ops, 1), ops[1]);
    ThenTransfer(At(ops, 2), a, b, c);
    assert At(ops, 3) == Step(At(ops, 2), ops[2]);
    ThenTransferFrom(At(ops, 3), b, c);
    assert At(ops, 4) == Step(At(ops, 3), ops[3]);
    LeftDoesNotStand(ops, 2);
  }
}
