/**
 * The contract object (src/smart_contracts.rs): `execute` dispatches a function call to the
 * fungible or the non-fungible half and updates the maps of the state in place.
 */
module SmartContract {
  import opened Wrappers
  import opened Words
  import opened MapSums
  import opened Addresses
  import opened Sorting
  import Erc20
  import Nft

  datatype ContractFunction =
    | Transfer(to: Address, amount: U64)
    | TransferFrom(from: Address, to: Address, amount: U64)
    | Approve(spender: Address, amount: U64)
    | Mint(to: Address, amount: U64)
    | Burn(from: Address, amount: U64)
    | MintNFT(to: Address, id: nat, uri: string)
    | TransferNFT(from: Address, to: Address, id: nat)
    | ApproveNFT(to: Address, id: nat)
    | TransferFromNFT(from: Address, to: Address, id: nat)
    | BurnNFT(owner: Address, id: nat)
    | SetNFTMetadata(id: nat, meta: Nft.Metadata)
    | Custom(name: string)

  datatype Error =
    | CallerRequired
    | WrongContractType
    | FungibleError(fungible: Erc20.Error)
    | TokenError(token: Nft.Error)

  /** A function call with its caller put where the operation needs it. */
  datatype Call = OnFungible(fop: Erc20.Op) | OnToken(top: Nft.Op) | OnCustom

  function CallOf(f: ContractFunction, caller: Option<Address>): Option<Call> {
    match f
    case Transfer(to, amount) =>
      if caller.None? then None else Some(OnFungible(Erc20.Transfer(caller.value, to, amount)))
    case TransferFrom(from, to, amount) =>
      if caller.None? then None else Some(OnFungible(Erc20.TransferFrom(from, to, amount, caller.value)))
    case Approve(spender, amount) =>
      if caller.None? then None else Some(OnFungible(Erc20.Approve(caller.value, spender, amount)))
    case Mint(to, amount) => Some(OnFungible(Erc20.Mint(to, amount)))
    case Burn(from, amount) => Some(OnFungible(Erc20.Burn(from, amount)))
    case MintNFT(to, id, uri) => Some(OnToken(Nft.Mint(to, id, uri)))
    case TransferNFT(from, to, id) =>
      if caller.None? then None else Some(OnToken(Nft.Transfer(from, to, id, caller.value)))
    case ApproveNFT(to, id) =>
      if caller.None? then None else Some(OnToken(Nft.Approve(caller.value, to, id)))
    case TransferFromNFT(from, to, id) =>
      if caller.None? then None else Some(OnToken(Nft.TransferFrom(from, to, id, caller.value)))
    case BurnNFT(owner, id) =>
      if caller.None? then None else Some(OnToken(Nft.Burn(owner, id, caller.value)))
    case SetNFTMetadata(id, meta) => Some(OnToken(Nft.SetMetadata(id, meta)))
    case Custom(_) => Some(OnCustom)
  }

  /** The state and the answer after one resolved call; `None` stands for a missing caller. */
  ghost function OutcomeOf(s: Erc20.Fungible, t: Nft.Tokens, contractType: string, cap: Option<U64>,
                           call: Option<Call>): (Erc20.Fungible, Nft.Tokens, Result<(), Error>)
  {
    match call
    case None => (s, t, Err(CallerRequired))
    case Some(OnFungible(op)) =>
      var e := Erc20.ErrorOf(s, cap, op);
      (Erc20.Step(s, cap, op), t, if e.Some? then Err(FungibleError(e.value)) else Ok(()))
    case Some(OnToken(op)) =>
      if contractType != "nft" then (s, t, Err(WrongContractType))
      else
        var e := Nft.ErrorOf(t, op);
        (s, Nft.Step(t, op), if e.Some? then Err(TokenError(e.value)) else Ok(()))
    case Some(OnCustom) => (s, t, Ok(()))
  }

  ghost function Outcome(s: Erc20.Fungible, t: Nft.Tokens, contractType: string, cap: Option<U64>, f: ContractFunction,
                         caller: Option<Address>): (Erc20.Fungible, Nft.Tokens, Result<(), Error>)
  {
    OutcomeOf(s, t, contractType, cap, CallOf(f, caller))
  }

  /** The invariant of every reachable contract. */
  ghost predicate Good(s: Erc20.Fungible, t: Nft.Tokens, cap: Option<U64>) {
    Nft.Inv(t) && (cap.Some? ==> Erc20.Supply(s) <= cap.value)
  }

  lemma {:induction false} TokenStepKeepsInv(t: Nft.Tokens, op: Nft.Op)
    requires Nft.Inv(t)
    ensures Nft.Inv(Nft.Step(t, op))
  {
    if Nft.ErrorOf(t, op).None? {
      Nft.CallKeepsInv(t, op);
    }
  }

  lemma {:induction false} CallKeepsGood(
    s: Erc20.Fungible, t: Nft.Tokens, contractType: string, cap: Option<U64>, call: Option<Call>)
    requires Good(s, t, cap)
    ensures var outcome := OutcomeOf(s, t, contractType, cap, call); Good(outcome.0, outcome.1, cap)
  {
    if call.Some? && call.value.OnFungible? {
      Erc20.CapHolds(s, cap, call.value.fop);
    } else if call.Some? && call.value.OnToken? {
      TokenStepKeepsInv(t, call.value.top);
    }
  }

  /** The two halves of the state after a run of calls on a new contract. */
  ghost function After(contractType: string, cap: Option<U64>, calls: seq<Option<Call>>): (Erc20.Fungible, Nft.Tokens) {
    if calls == [] then (Erc20.EMPTY, Nft.NO_TOKENS)
    else
      var before := After(contractType, cap, calls[..|calls| - 1]);
      var outcome := OutcomeOf(before.0, before.1, contractType, cap, calls[|calls| - 1]);
      (outcome.0, outcome.1)
  }

  function FungibleOps(calls: seq<Option<Call>>): seq<Erc20.Op> {
    if calls == [] then []
    else
      var last := calls[|calls| - 1];
      FungibleOps(calls[..|calls| - 1]) + if last.Some? && last.value.OnFungible? then [last.value.fop] else []
  }

  function TokenOps(contractType: string, calls: seq<Option<Call>>): seq<Nft.Op> {
    if calls == [] then []
    else
      var last := calls[|calls| - 1];
      TokenOps(contractType, calls[..|calls| - 1])
      + if contractType == "nft" && last.Some? && last.value.OnToken? then [last.value.top] else []
  }

  lemma {:induction false} FungibleExtends(cap: Option<U64>, ops: seq<Erc20.Op>, op: Erc20.Op)
    ensures Erc20.Run(cap, ops + [op]) == Erc20.Step(Erc20.Run(cap, ops), cap, op)
  {
    assert (ops + [op])[..|ops|] == ops;
  }

  lemma {:induction false} TokensExtend(ops: seq<Nft.Op>, op: Nft.Op)
    ensures Nft.Run(ops + [op]) == Nft.Step(Nft.Run(ops), op)
  {
    assert (ops + [op])[..|ops|] == ops;
  }

  lemma {:induction false} FungibleHalf(contractType: string, cap: Option<U64>, calls: seq<Option<Call>>)
    ensures After(contractType, cap, calls).0 == Erc20.Run(cap, FungibleOps(calls))
  {
    if calls != [] {
      var front, last := calls[..|calls| - 1], calls[|calls| - 1];
      FungibleHalf(contractType, cap, front);
      if last.Some? && last.value.OnFungible? {
        FungibleExtends(cap, FungibleOps(front), last.value.fop);
      } else {
        assert FungibleOps(calls) == FungibleOps(front);
      }
    }
  }

  lemma {:induction false} TokenHalf(contractType: string, cap: Option<U64>, calls: seq<Option<Call>>)
    ensures After(contractType, cap, calls).1 == Nft.Run(TokenOps(contractType, calls))
  {
    if calls != [] {
      var front, last := calls[..|calls| - 1], calls[|calls| - 1];
      TokenHalf(contractType, cap, front);
      if contractType == "nft" && last.Some? && last.value.OnToken? {
        TokensExtend(TokenOps(contractType, front), last.value.top);
      } else {
        assert TokenOps(contractType, calls) == TokenOps(contractType, front);
      }
    }
  }

  /**
   * A run of `execute` is a run of the fungible operations beside a run of the token operations:
   * neither half disturbs the other, so what is proved of their runs holds of contract runs.
   */
  lemma {:induction false} RunsAreIndependent(contractType: string, cap: Option<U64>, calls: seq<Option<Call>>)
    ensures After(contractType, cap, calls)
            == (Erc20.Run(cap, FungibleOps(calls)), Nft.Run(TokenOps(contractType, calls)))
  {
    FungibleHalf(contractType, cap, calls);
    TokenHalf(contractType, cap, calls);
  }

  class Contract {
    const contractType: string
    const cap: Option<U64>
    var balances: map<Address, U64>
    var allowances: map<Address, map<Address, U64>>
    var tokenOwners: map<nat, Address>
    var tokenUris: map<nat, string>
    var tokenApprovals: map<nat, Address>
    var nftBalances: map<Address, nat>
    var nftMetadata: map<nat, Nft.Metadata>
    var ownerToTokens: map<Address, set<nat>>
    var tokenIndex: seq<nat>
    var updateSequence: nat

    ghost function Fungible(): Erc20.Fungible
      reads this
    {
      Erc20.Fungible(balances, allowances)
    }

    ghost function Tokens(): Nft.Tokens
      reads this
    {
      Nft.Tokens(tokenOwners, tokenUris, tokenApprovals, nftBalances, nftMetadata, ownerToTokens, tokenIndex)
    }

    ghost predicate Valid()
      reads this
    {
      Good(Fungible(), Tokens(), cap)
    }

    constructor (contractType: string, cap: Option<U64>)
      ensures Valid() && Fungible() == Erc20.EMPTY && Tokens() == Nft.NO_TOKENS && updateSequence == 0
      ensures this.contractType == contractType && this.cap == cap
    {
      this.contractType, this.cap := contractType, cap;
      balances, allowances := map[], map[];
      tokenOwners, tokenUris, tokenApprovals, nftBalances := map[], map[], map[], map[];
      nftMetadata, ownerToTokens, tokenIndex := map[], map[], [];
      updateSequence := 0;
      new;
      Nft.ReachableInv([]);
    }

    /** Sum of all balances, visiting them in any order; under a cap it never leaves 64 bits. */
    method CurrentSupply() returns (total: nat)
      ensures total == Erc20.Supply(Fungible())
    {
      total := 0;
      var rest := balances;
      while rest != map[]
        invariant total + SumBy(rest, Erc20.Units()) == SumBy(balances, Erc20.Units())
        decreases |rest|
      {
        var a :| a in rest;
        SumRemove<Address, U64>(rest, Erc20.Units(), a);
        total := total + rest[a];
        rest := rest - {a};
      }
    }

    /** Debit one balance and credit another. */
    method MoveBalance(from: Address, to: Address, amount: U64)
      requires amount <= Erc20.Balance(Fungible(), from) && Erc20.Balance(Fungible(), to) + amount <= U64_MAX
      modifies this`balances
      ensures Fungible() == Erc20.Move(old(Fungible()), from, to, amount)
    {
      var fromBalance := if from in balances then balances[from] else 0;
      var toBalance := if to in balances then balances[to] else 0;
      balances := balances[from := fromBalance - amount];
      balances := balances[to := toBalance + amount];
    }

    method CallFungible(op: Erc20.Op) returns (r: Option<Erc20.Error>)
      modifies this`balances, this`allowances
      ensures r == Erc20.ErrorOf(old(Fungible()), cap, op)
      ensures Fungible() == if r.None? then Erc20.Apply(old(Fungible()), cap, op) else old(Fungible())
    {
      var bad := CheckAll(Erc20.AddressesOf(op));
      if bad.Some? {
        return Some(Erc20.BadAddress(bad.value));
      }
      var state := Erc20.Fungible(balances, allowances);
      match op
      case Transfer(from, to, amount) =>
        r := Erc20.TransferError(state, from, to, amount);
        if r.None? {
          MoveBalance(from, to, amount);
        }
      case TransferFrom(from, to, amount, spender) =>
        r := Erc20.TransferFromError(state, from, to, amount, spender);
        if r.None? {
          MoveBalance(from, to, amount);
          var left := allowances[from][spender] - amount;
          allowances := allowances[from := allowances[from][spender := left]];
        }
      case Approve(owner, spender, amount) =>
        if owner == spender {
          return Some(Erc20.SelfApproval);
        }
        if amount > Erc20.MAX_AMOUNT {
          return Some(Erc20.AmountTooLarge);
        }
        var granted := if owner in allowances then allowances[owner] else map[];
        allowances := allowances[owner := granted[spender := amount]];
        r := None;
      case Mint(to, amount) =>
        var supply := CurrentSupply();
        r := Erc20.MintError(state, cap, supply, to, amount);
        if r.None? {
          balances := balances[to := (if to in balances then balances[to] else 0) + amount];
        }
      case Burn(from, amount) =>
        r := Erc20.AmountError(amount);
        if r.None? {
          if from !in balances || balances[from] < amount {
            return Some(Erc20.InsufficientBalance);
          }
          balances := balances[from := balances[from] - amount];
        }
    }

    /** Take a token out of the reverse index; an owner left with nothing is dropped. */
    method Unlist(owner: Address, id: nat)
      modifies this`ownerToTokens
      ensures ownerToTokens == Nft.Unlist(old(ownerToTokens), owner, id)
    {
      if owner in ownerToTokens {
        ownerToTokens := ownerToTokens[owner := ownerToTokens[owner] - {id}];
        if ownerToTokens[owner] == {} {
          ownerToTokens := ownerToTokens - {owner};
        }
      }
    }

    method List(owner: Address, id: nat)
      modifies this`ownerToTokens
      ensures ownerToTokens == Nft.List(old(ownerToTokens), owner, id)
    {
      ownerToTokens := ownerToTokens[owner := (if owner in ownerToTokens then ownerToTokens[owner] else {}) + {id}];
    }

    method CountDown(owner: Address)
      modifies this`nftBalances
      ensures nftBalances == Nft.Decrement(old(nftBalances), owner)
    {
      var count := if owner in nftBalances then nftBalances[owner] else 0;
      if count > 0 {
        nftBalances := nftBalances[owner := count - 1];
      }
    }

    method CountUp(owner: Address)
      modifies this`nftBalances
      ensures nftBalances == Nft.Increment(old(nftBalances), owner)
    {
      var count := if owner in nftBalances then nftBalances[owner] else 0;
      nftBalances := nftBalances[owner := count + 1];
    }

    /** Hand a token over: owner map, counters and reverse index. */
    method MoveToken(from: Address, to: Address, id: nat)
      modifies this`tokenOwners, this`nftBalances, this`ownerToTokens
      ensures Tokens() == Nft.MoveToken(old(Tokens()), from, to, id)
    {
      tokenOwners := tokenOwners[id := to];
      CountDown(from);
      CountUp(to);
      Unlist(from, id);
      List(to, id);
    }

    method MintToken(to: Address, id: nat, uri: string)
      modifies this`tokenOwners, this`tokenUris, this`nftBalances, this`ownerToTokens, this`tokenIndex
      ensures Tokens() == Nft.Apply(old(Tokens()), Nft.Mint(to, id, uri))
    {
      tokenOwners := tokenOwners[id := to];
      if uri != "" {
        tokenUris := tokenUris[id := uri];
      }
      CountUp(to);
      List(to, id);
      tokenIndex := tokenIndex + [id];
    }

    /** Remove the first occurrence from the enumeration list. */
    method RemoveFromIndex(id: nat)
      modifies this`tokenIndex
      ensures tokenIndex == Nft.RemoveFirst(old(tokenIndex), id)
    {
      var pos := 0;
      while pos < |tokenIndex| && tokenIndex[pos] != id
        invariant pos <= |tokenIndex|
        invariant Nft.RemoveFirst(tokenIndex, id) == tokenIndex[..pos] + Nft.RemoveFirst(tokenIndex[pos..], id)
      {
        assert tokenIndex[pos..][1..] == tokenIndex[pos + 1..];
        pos := pos + 1;
      }
      if pos < |tokenIndex| {
        assert tokenIndex[pos..][1..] == tokenIndex[pos + 1..];
        tokenIndex := tokenIndex[..pos] + tokenIndex[pos + 1..];
      }
    }

    method BurnToken(owner: Address, id: nat, ghost caller: Address)
      modifies this`tokenOwners, this`tokenUris, this`tokenApprovals, this`nftMetadata, this`nftBalances,
               this`ownerToTokens, this`tokenIndex
      ensures Tokens() == Nft.Apply(old(Tokens()), Nft.Burn(owner, id, caller))
    {
      tokenOwners := tokenOwners - {id};
      tokenUris := tokenUris - {id};
      tokenApprovals := tokenApprovals - {id};
      nftMetadata := nftMetadata - {id};
      CountDown(owner);
      Unlist(owner, id);
      RemoveFromIndex(id);
    }

    method CallToken(op: Nft.Op) returns (r: Option<Nft.Error>)
      modifies this`tokenOwners, this`tokenUris, this`tokenApprovals, this`nftMetadata, this`nftBalances,
               this`ownerToTokens, this`tokenIndex
      ensures r == Nft.ErrorOf(old(Tokens()), op)
      ensures Tokens() == if r.None? then Nft.Apply(old(Tokens()), op) else old(Tokens())
    {
      r := Nft.ErrorOf(Nft.Tokens(tokenOwners, tokenUris, tokenApprovals, nftBalances, nftMetadata, ownerToTokens,
                                  tokenIndex), op);
      if r.Some? {
        return;
      }
      match op
      case Mint(to, id, uri) => MintToken(to, id, uri);
      case Transfer(from, to, id, caller) =>
        if caller != from {
          tokenApprovals := tokenApprovals - {id};
        }
        MoveToken(from, to, id);
      case Approve(_, to, id) => tokenApprovals := tokenApprovals[id := to];
      case TransferFrom(from, to, id, _) =>
        tokenApprovals := tokenApprovals - {id};
        MoveToken(from, to, id);
      case Burn(owner, id, caller) => BurnToken(owner, id, caller);
      case SetMetadata(id, meta) => nftMetadata := nftMetadata[id := meta];
    }

    method ExecuteFungible(op: Erc20.Op) returns (r: Result<(), Error>)
      modifies this`balances, this`allowances, this`updateSequence
      ensures updateSequence == old(updateSequence) + if r.Ok? then 1 else 0
      ensures Fungible() == Erc20.Step(old(Fungible()), cap, op)
      ensures var e := Erc20.ErrorOf(old(Fungible()), cap, op);
              r == if e.Some? then Err(FungibleError(e.value)) else Ok(())
    {
      var e := CallFungible(op);
      if e.Some? {
        return Err(FungibleError(e.value));
      }
      updateSequence := updateSequence + 1;
      return Ok(());
    }

    method ExecuteToken(op: Nft.Op) returns (r: Result<(), Error>)
      modifies this`tokenOwners, this`tokenUris, this`tokenApprovals, this`nftMetadata, this`nftBalances,
               this`ownerToTokens, this`tokenIndex, this`updateSequence
      ensures updateSequence == old(updateSequence) + if r.Ok? then 1 else 0
      ensures Tokens() == Nft.Step(old(Tokens()), op)
      ensures var e := Nft.ErrorOf(old(Tokens()), op);
              r == if e.Some? then Err(TokenError(e.value)) else Ok(())
    {
      var e := CallToken(op);
      if e.Some? {
        return Err(TokenError(e.value));
      }
      updateSequence := updateSequence + 1;
      return Ok(());
    }

    /**
     * `execute`: a call without a caller it needs, a token call on another kind of contract and a
     * refused operation change nothing; an accepted one takes exactly its operation's step and
     * advances the sequence number. The invariant is kept in every case.
     */
    method Execute(f: ContractFunction, caller: Option<Address>) returns (r: Result<(), Error>)
      modifies this
      ensures old(Valid()) ==> Valid()
      ensures updateSequence == old(updateSequence) + if r.Ok? then 1 else 0
      ensures (Fungible(), Tokens(), r) == Outcome(old(Fungible()), old(Tokens()), contractType, cap, f, caller)
    {
      var call := CallOf(f, caller);
      if old(Valid()) {
        CallKeepsGood(Fungible(), Tokens(), contractType, cap, call);
      }
      r := Dispatch(call);
    }

    method Dispatch(call: Option<Call>) returns (r: Result<(), Error>)
      modifies this
      ensures updateSequence == old(updateSequence) + if r.Ok? then 1 else 0
      ensures (Fungible(), Tokens(), r) == OutcomeOf(old(Fungible()), old(Tokens()), contractType, cap, call)
    {
      if call.None? {
        return Err(CallerRequired);
      }
      match call.value
      case OnFungible(op) => r := ExecuteFungible(op);
      case OnToken(op) =>
        if contractType != "nft" {
          return Err(WrongContractType);
        }
        r := ExecuteToken(op);
      case OnCustom =>
        updateSequence := updateSequence + 1;
        return Ok(());
    }

    /** `tokens_of_owner`: the owner's tokens, each once, in ascending order. */
    method TokensOfOwner(owner: Address) returns (tokens: seq<int>)
      requires Valid()
      ensures Ascending(tokens)
      ensures multiset(tokens) == multiset(Nft.Owned(Tokens(), owner))
    {
      assert Nft.TokensOf(Tokens(), owner) == Nft.Owned(Tokens(), owner);
      var rest: set<int> := if owner in ownerToTokens then ownerToTokens[owner] else {};
      var listed: seq<int> := [];
      while rest != {}
        invariant multiset(listed) + multiset(rest) == multiset(Nft.Owned(Tokens(), owner))
      {
        var id :| id in rest;
        listed := listed + [id];
        rest := rest - {id};
      }
      tokens := Sort(listed);
    }

    /** Every owned token is in the enumeration list. */
    method OwnersAreIndexed() returns (ok: bool)
      ensures ok <==> Nft.OwnersIndexed(tokenOwners, tokenIndex)
    {
      var rest := tokenOwners.Keys;
      while rest != {}
        invariant rest <= tokenOwners.Keys
        invariant forall id :: id in tokenOwners && id !in rest ==> id in tokenIndex
      {
        var id :| id in rest;
        if id !in tokenIndex {
          return false;
        }
        rest := rest - {id};
      }
      return true;
    }

    method IndexIsOwned() returns (ok: bool)
      ensures ok <==> Nft.IndexOwned(tokenIndex, tokenOwners)
    {
      for i := 0 to |tokenIndex|
        invariant forall k :: 0 <= k < i ==> tokenIndex[k] in tokenOwners
      {
        if tokenIndex[i] !in tokenOwners {
          return false;
        }
      }
      return true;
    }

    method CountersMatch() returns (ok: bool)
      ensures ok <==> Nft.CountersMatch(nftBalances, ownerToTokens)
    {
      var rest := nftBalances.Keys;
      while rest != {}
        invariant rest <= nftBalances.Keys
        invariant forall o :: o in nftBalances && o !in rest ==> nftBalances[o] == |Nft.Entry(ownerToTokens, o)|
      {
        var o :| o in rest;
        var count := if o in ownerToTokens then |ownerToTokens[o]| else 0;
        if nftBalances[o] != count {
          return false;
        }
        rest := rest - {o};
      }
      return true;
    }

    /** Every token listed under an owner is owned by that owner. */
    method EntriesMatch() returns (ok: bool)
      ensures ok <==> Nft.EntriesMatch(ownerToTokens, tokenOwners)
    {
      var rest := ownerToTokens.Keys;
      while rest != {}
        invariant rest <= ownerToTokens.Keys
        invariant forall o, id :: o in ownerToTokens && o !in rest && id in ownerToTokens[o] ==>
                    id in tokenOwners && tokenOwners[id] == o
      {
        var o :| o in rest;
        var ids := ownerToTokens[o];
        while ids != {}
          invariant ids <= ownerToTokens[o]
          invariant forall id :: id in ownerToTokens[o] && id !in ids ==> id in tokenOwners && tokenOwners[id] == o
        {
          var id :| id in ids;
          if id !in tokenOwners || tokenOwners[id] != o {
            return false;
          }
          ids := ids - {id};
        }
        rest := rest - {o};
      }
      return true;
    }

    /** `verify_nft_integrity`: the five checks in turn; they always pass on a valid contract. */
    method VerifyNftIntegrity() returns (ok: bool)
      ensures ok <==> Nft.Checks(Tokens())
      ensures Valid() ==> ok
    {
      if Valid() {
        Nft.ChecksExactly(Tokens());
      }
      ok := OwnersAreIndexed();
      if ok {
        ok := IndexIsOwned();
      }
      if ok {
        ok := CountersMatch();
      }
      if ok {
        ok := EntriesMatch();
      }
      ok := ok && |tokenOwners| == |tokenIndex|;
    }
  }
}
