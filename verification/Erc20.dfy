/**
 * The fungible half of a smart contract: balances, allowances and the supply cap
 * (`transfer`, `transfer_from`, `approve`, `mint`, `burn` in src/smart_contracts.rs).
 *
 * Over any sequence of calls, refused ones included, the state is a function of the calls that
 * succeeded: a balance is what its account received minus what it gave, the supply is what was
 * minted minus what was burned and never passes the cap, and an allowance is the last approval
 * minus what was spent under it since.
 */
module Erc20 {
  import opened Wrappers
  import opened Words
  import opened MapSums
  import opened Addresses

  const MAX_AMOUNT := 1_000_000_000_000

  datatype Fungible = Fungible(balances: map<Address, U64>, allowances: map<Address, map<Address, U64>>)

  datatype Op =
    | Transfer(from: Address, to: Address, amount: U64)
    | TransferFrom(from: Address, to: Address, amount: U64, spender: Address)
    | Approve(owner: Address, spender: Address, amount: U64)
    | Mint(to: Address, amount: U64)
    | Burn(from: Address, amount: U64)

  datatype Error =
    | BadAddress(why: AddressError) | ZeroAmount | AmountTooLarge | SelfTransfer | SelfApproval
    | InsufficientBalance | InsufficientAllowance | BalanceOverflow | SupplyOverflow | CapExceeded

  const EMPTY := Fungible(map[], map[])

  function Balance(s: Fungible, a: Address): U64 {
    if a in s.balances then s.balances[a] else 0
  }

  function Allowance(s: Fungible, owner: Address, spender: Address): U64 {
    if owner in s.allowances && spender in s.allowances[owner] then s.allowances[owner][spender] else 0
  }

  function Units(): U64 -> nat { (x: U64) => x }

  ghost function Supply(s: Fungible): nat {
    SumBy(s.balances, Units())
  }

  function AmountError(amount: U64): Option<Error> {
    if amount == 0 then Some(ZeroAmount) else if amount > MAX_AMOUNT then Some(AmountTooLarge) else None
  }

  function Move(s: Fungible, from: Address, to: Address, amount: U64): Fungible
    requires amount <= Balance(s, from) && Balance(s, to) + amount <= U64_MAX
  {
    s.(balances := s.balances[from := Balance(s, from) - amount][to := Balance(s, to) + amount])
  }

  /** Why a transfer is refused, in the order of the checks. */
  function TransferError(s: Fungible, from: Address, to: Address, amount: U64): (r: Option<Error>)
    ensures r.None? ==> from != to && 0 < amount <= Balance(s, from) && Balance(s, to) + amount <= U64_MAX
  {
    if AmountError(amount).Some? then AmountError(amount)
    else if from == to then Some(SelfTransfer)
    else if Balance(s, from) < amount then Some(InsufficientBalance)
    else if Balance(s, to) + amount > U64_MAX then Some(BalanceOverflow)
    else None
  }

  /** `transfer_from` checks the allowance between the self-transfer check and the balances. */
  function TransferFromError(s: Fungible, from: Address, to: Address, amount: U64, spender: Address): (r: Option<Error>)
    ensures r.None? <==> TransferError(s, from, to, amount).None? && amount <= Allowance(s, from, spender)
  {
    if AmountError(amount).Some? then AmountError(amount)
    else if from == to then Some(SelfTransfer)
    else if Allowance(s, from, spender) < amount then Some(InsufficientAllowance)
    else TransferError(s, from, to, amount)
  }

  function SetAllowance(s: Fungible, owner: Address, spender: Address, amount: U64): (r: Fungible)
    ensures r.balances == s.balances
    ensures forall o, p :: Allowance(r, o, p) == if o == owner && p == spender then amount else Allowance(s, o, p)
  {
    var granted := if owner in s.allowances then s.allowances[owner] else map[];
    s.(allowances := s.allowances[owner := granted[spender := amount]])
  }

  /** Why minting is refused; `supply` is the sum of all balances. */
  function MintError(s: Fungible, cap: Option<U64>, supply: nat, to: Address, amount: U64): Option<Error> {
    if AmountError(amount).Some? then AmountError(amount)
    else if cap.Some? && supply + amount > U64_MAX then Some(SupplyOverflow)
    else if cap.Some? && supply + amount > cap.value then Some(CapExceeded)
    else if Balance(s, to) + amount > U64_MAX then Some(BalanceOverflow)
    else None
  }

  function AddressesOf(op: Op): seq<Address> {
    match op
    case Transfer(from, to, _) => [from, to]
    case TransferFrom(from, to, _, spender) => [from, to, spender]
    case Approve(owner, spender, _) => [owner, spender]
    case Mint(to, _) => [to]
    case Burn(from, _) => [from]
  }

  ghost function ErrorOf(s: Fungible, cap: Option<U64>, op: Op): Option<Error> {
    var bad := CheckAll(AddressesOf(op));
    if bad.Some? then Some(BadAddress(bad.value))
    else
      match op
      case Transfer(from, to, amount) => TransferError(s, from, to, amount)
      case TransferFrom(from, to, amount, spender) => TransferFromError(s, from, to, amount, spender)
      case Approve(owner, spender, amount) =>
        if owner == spender then Some(SelfApproval) else if amount > MAX_AMOUNT then Some(AmountTooLarge) else None
      case Mint(to, amount) => MintError(s, cap, Supply(s), to, amount)
      case Burn(from, amount) =>
        if AmountError(amount).Some? then AmountError(amount)
        else if Balance(s, from) < amount then Some(InsufficientBalance) else None
  }

  ghost function Apply(s: Fungible, cap: Option<U64>, op: Op): Fungible
    requires ErrorOf(s, cap, op).None?
  {
    match op
    case Transfer(from, to, amount) => Move(s, from, to, amount)
    case TransferFrom(from, to, amount, spender) =>
      SetAllowance(Move(s, from, to, amount), from, spender, Allowance(s, from, spender) - amount)
    case Approve(owner, spender, amount) => SetAllowance(s, owner, spender, amount)
    case Mint(to, amount) => s.(balances := s.balances[to := Balance(s, to) + amount])
    case Burn(from, amount) => s.(balances := s.balances[from := Balance(s, from) - amount])
  }

  // ---------------------------------------------------------------------------------------------
  // Runs

  /** One call; a refused one changes nothing. */
  ghost function Step(s: Fungible, cap: Option<U64>, op: Op): Fungible {
    if ErrorOf(s, cap, op).None? then Apply(s, cap, op) else s
  }

  /** The state after some calls on a new contract. */
  ghost function Run(cap: Option<U64>, ops: seq<Op>): Fungible {
    if ops == [] then EMPTY else Step(Run(cap, ops[..|ops| - 1]), cap, ops[|ops| - 1])
  }

  /** The calls that succeeded. */
  ghost function Log(cap: Option<U64>, ops: seq<Op>): seq<Op> {
    if ops == [] then []
    else
      var before := Log(cap, ops[..|ops| - 1]);
      if ErrorOf(Run(cap, ops[..|ops| - 1]), cap, ops[|ops| - 1]).None? then before + [ops[|ops| - 1]] else before
  }

  function Credit(op: Op, a: Address): nat {
    match op
    case Transfer(_, to, amount) => if to == a then amount else 0
    case TransferFrom(_, to, amount, _) => if to == a then amount else 0
    case Mint(to, amount) => if to == a then amount else 0
    case _ => 0
  }

  function Debit(op: Op, a: Address): nat {
    match op
    case Transfer(from, _, amount) => if from == a then amount else 0
    case TransferFrom(from, _, amount, _) => if from == a then amount else 0
    case Burn(from, amount) => if from == a then amount else 0
    case _ => 0
  }

  function Received(log: seq<Op>, a: Address): nat {
    if log == [] then 0 else Received(log[..|log| - 1], a) + Credit(log[|log| - 1], a)
  }

  function Given(log: seq<Op>, a: Address): nat {
    if log == [] then 0 else Given(log[..|log| - 1], a) + Debit(log[|log| - 1], a)
  }

  function Minted(log: seq<Op>): nat {
    if log == [] then 0
    else Minted(log[..|log| - 1]) + if log[|log| - 1].Mint? then log[|log| - 1].amount else 0
  }

  function Burned(log: seq<Op>): nat {
    if log == [] then 0
    else Burned(log[..|log| - 1]) + if log[|log| - 1].Burn? then log[|log| - 1].amount else 0
  }

  /** The amount of the last approval of `spender` by `owner`; 0 if there was none. */
  function Granted(log: seq<Op>, owner: Address, spender: Address): nat {
    if log == [] then 0
    else
      var last := log[|log| - 1];
      if last.Approve? && last.owner == owner && last.spender == spender then last.amount
      else Granted(log[..|log| - 1], owner, spender)
  }

  /** What `spender` moved out of `owner`'s account since that approval. */
  function SpentSince(log: seq<Op>, owner: Address, spender: Address): nat {
    if log == [] then 0
    else
      var last := log[|log| - 1];
      if last.Approve? && last.owner == owner && last.spender == spender then 0
      else SpentSince(log[..|log| - 1], owner, spender)
           + if last.TransferFrom? && last.from == owner && last.spender == spender then last.amount else 0
  }

  lemma {:induction false} SupplyAfter(s: Fungible, cap: Option<U64>, op: Op)
    requires ErrorOf(s, cap, op).None?
    ensures Supply(Apply(s, cap, op)) + (if op.Burn? then op.amount else 0)
         == Supply(s) + (if op.Mint? then op.amount else 0)
  {
    match op
    case Transfer(from, to, amount) => MoveKeepsSupply(s, from, to, amount);
    case TransferFrom(from, to, amount, spender) => MoveKeepsSupply(s, from, to, amount);
    case Approve(_, _, _) =>
    case Mint(to, amount) => SumUpdate<Address, U64>(s.balances, Units(), to, Balance(s, to) + amount);
    case Burn(from, amount) => SumUpdate<Address, U64>(s.balances, Units(), from, Balance(s, from) - amount);
  }

  lemma {:induction false} MoveKeepsSupply(s: Fungible, from: Address, to: Address, amount: U64)
    requires from != to && amount <= Balance(s, from) && Balance(s, to) + amount <= U64_MAX
    ensures Supply(Move(s, from, to, amount)) == Supply(s)
  {
    SumUpdate<Address, U64>(s.balances, Units(), from, Balance(s, from) - amount);
    SumUpdate<Address, U64>(s.balances[from := Balance(s, from) - amount], Units(), to, Balance(s, to) + amount);
  }

  lemma {:induction false} BalanceAfter(s: Fungible, cap: Option<U64>, op: Op, a: Address)
    requires ErrorOf(s, cap, op).None?
    ensures Balance(Apply(s, cap, op), a) + Debit(op, a) == Balance(s, a) + Credit(op, a)
  {
  }

  lemma {:induction false} AllowanceAfter(s: Fungible, cap: Option<U64>, op: Op, owner: Address, spender: Address)
    requires ErrorOf(s, cap, op).None?
    ensures Allowance(Apply(s, cap, op), owner, spender) ==
      if op.Approve? && op.owner == owner && op.spender == spender then op.amount
      else Allowance(s, owner, spender)
           - if op.TransferFrom? && op.from == owner && op.spender == spender then op.amount else 0
  {
    if op.Transfer? || op.Mint? || op.Burn? {
      assert Apply(s, cap, op).allowances == s.allowances;
    }
  }

  lemma {:induction false} LogExtends(cap: Option<U64>, ops: seq<Op>)
    requires ops != []
    ensures var front := ops[..|ops| - 1];
            if ErrorOf(Run(cap, front), cap, ops[|ops| - 1]).None?
            then Log(cap, ops)[..|Log(cap, ops)| - 1] == Log(cap, front)
                 && Log(cap, ops)[|Log(cap, ops)| - 1] == ops[|ops| - 1]
                 && Log(cap, ops) != []
            else Log(cap, ops) == Log(cap, front)
  {
  }

  /** Supply is minted minus burned, and with a cap it never passes it, so its sum never overflows. */
  lemma {:induction false} SupplyIsHistory(cap: Option<U64>, ops: seq<Op>)
    ensures Supply(Run(cap, ops)) + Burned(Log(cap, ops)) == Minted(Log(cap, ops))
    ensures cap.Some? ==> Supply(Run(cap, ops)) <= cap.value
  {
    if ops != [] {
      var front := ops[..|ops| - 1];
      SupplyIsHistory(cap, front);
      LogExtends(cap, ops);
      CapHolds(Run(cap, front), cap, ops[|ops| - 1]);
      if ErrorOf(Run(cap, front), cap, ops[|ops| - 1]).None? {
        SupplyAfter(Run(cap, front), cap, ops[|ops| - 1]);
      }
    }
  }

  /** No single call takes the supply past the cap. */
  lemma {:induction false} CapHolds(s: Fungible, cap: Option<U64>, op: Op)
    requires cap.Some? ==> Supply(s) <= cap.value
    ensures cap.Some? ==> Supply(Step(s, cap, op)) <= cap.value
  {
    if ErrorOf(s, cap, op).None? {
      SupplyAfter(s, cap, op);
    }
  }

  /** A balance is what the account received minus what it gave. */
  lemma {:induction false} BalanceIsHistory(cap: Option<U64>, ops: seq<Op>, a: Address)
    ensures Balance(Run(cap, ops), a) + Given(Log(cap, ops), a) == Received(Log(cap, ops), a)
  {
    if ops != [] {
      var front := ops[..|ops| - 1];
      BalanceIsHistory(cap, front, a);
      LogExtends(cap, ops);
      if ErrorOf(Run(cap, front), cap, ops[|ops| - 1]).None? {
        BalanceAfter(Run(cap, front), cap, ops[|ops| - 1], a);
      }
    }
  }

  /** An allowance is the last approval minus everything spent under it since. */
  lemma {:induction false} AllowanceIsHistory(cap: Option<U64>, ops: seq<Op>, owner: Address, spender: Address)
    ensures Allowance(Run(cap, ops), owner, spender) + SpentSince(Log(cap, ops), owner, spender)
         == Granted(Log(cap, ops), owner, spender)
  {
    if ops != [] {
      var front := ops[..|ops| - 1];
      AllowanceIsHistory(cap, front, owner, spender);
      LogExtends(cap, ops);
      if ErrorOf(Run(cap, front), cap, ops[|ops| - 1]).None? {
        AllowanceAfter(Run(cap, front), cap, ops[|ops| - 1], owner, spender);
      }
    }
  }

  /**
   * With a cap, no balance can overflow in any run, and neither can the supply as long as the cap
   * leaves room for one more largest amount.
   */
  lemma {:induction false} NoOverflowUnderCap(cap: Option<U64>, ops: seq<Op>, op: Op)
    requires cap.Some?
    ensures ErrorOf(Run(cap, ops), cap, op) != Some(BalanceOverflow)
    ensures cap.value + MAX_AMOUNT <= U64_MAX ==> ErrorOf(Run(cap, ops), cap, op) != Some(SupplyOverflow)
  {
    var s := Run(cap, ops);
    SupplyIsHistory(cap, ops);
    if op.Transfer? || op.TransferFrom? {
      if op.from != op.to && op.amount <= Balance(s, op.from) {
        PairBelowSupply(s, op.from, op.to);
      }
    } else if op.Mint? && op.to in s.balances {
      EntryBelowSum<Address, U64>(s.balances, Units(), op.to);
    }
  }

  /** A run that mints `target` to one address. */
  lemma {:induction false} MintUpTo(cap: U64, to: Address, target: nat) returns (ops: seq<Op>)
    requires target <= cap && CheckAddress(to).None?
    ensures Supply(Run(Some(cap), ops)) == Balance(Run(Some(cap), ops), to) == target
  {
    if target == 0 {
      return [];
    }
    var part := if target < MAX_AMOUNT then target else MAX_AMOUNT;
    var front := MintUpTo(cap, to, target - part);
    var s, op := Run(Some(cap), front), Mint(to, part);
    ops := front + [op];
    assert ops[..|ops| - 1] == front;
    assert CheckAll([to]).None?;
    SupplyAfter(s, Some(cap), op);
    BalanceAfter(s, Some(cap), op, to);
  }

  /** The supply check overflows in some run if and only if the cap leaves less room than that. */
  lemma {:induction false} SupplyOverflowsExactly(cap: U64, to: Address)
    requires CheckAddress(to).None?
    ensures (exists ops, op :: ErrorOf(Run(Some(cap), ops), Some(cap), op) == Some(SupplyOverflow))
       <==> cap + MAX_AMOUNT > U64_MAX
  {
    if cap + MAX_AMOUNT > U64_MAX {
      var ops := MintUpTo(cap, to, cap);
      assert CheckAll([to]).None?;
      assert ErrorOf(Run(Some(cap), ops), Some(cap), Mint(to, MAX_AMOUNT)) == Some(SupplyOverflow);
    } else {
      forall ops, op ensures ErrorOf(Run(Some(cap), ops), Some(cap), op) != Some(SupplyOverflow) {
        NoOverflowUnderCap(Some(cap), ops, op);
      }
    }
  }

  lemma {:induction false} PairBelowSupply(s: Fungible, a: Address, b: Address)
    requires a != b
    ensures Balance(s, a) + Balance(s, b) <= Supply(s)
  {
    if a in s.balances {
      SumRemove<Address, U64>(s.balances, Units(), a);
      if b in s.balances {
        SumRemove<Address, U64>(s.balances - {a}, Units(), b);
      }
    } else if b in s.balances {
      SumRemove<Address, U64>(s.balances, Units(), b);
    }
  }
}
