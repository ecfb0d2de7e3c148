/**
 * The non-fungible half of a smart contract (`mint_nft` to `burn_nft` and `verify_nft_integrity`
 * in src/smart_contracts.rs): who owns a token is kept four times, as an owner map, a reverse
 * index, a counter per owner and an enumeration list, and every call must keep them in agreement.
 */
module Nft {
  import opened Wrappers
  import opened MapSums
  import opened Addresses

  const MAX_TOKEN_ID := 1_000_000_000
  const MAX_TOKENS_PER_CONTRACT := 10_000_000
  const MAX_TOKENS_PER_OWNER := 1_000_000
  const MAX_TOKEN_URI_LENGTH := 2048
  const MAX_NAME_LENGTH := 256
  const MAX_DESCRIPTION_LENGTH := 2048
  const MAX_URL_LENGTH := 512
  const MAX_ATTRIBUTES := 50
  const MAX_TRAIT_TYPE_LENGTH := 64
  const MAX_ATTRIBUTE_VALUE_LENGTH := 256

  datatype Attribute = Attribute(traitType: string, value: string)
  datatype Metadata =
    Metadata(name: string, description: string, image: string, externalUrl: string, attributes: seq<Attribute>)

  datatype Tokens = Tokens(
    owners: map<nat, Address>,
    uris: map<nat, string>,
    approvals: map<nat, Address>,
    counts: map<Address, nat>,
    metadata: map<nat, Metadata>,
    ownerTokens: map<Address, set<nat>>,
    index: seq<nat>)

  const NO_TOKENS := Tokens(map[], map[], map[], map[], map[], map[], [])

  datatype Op =
    | Mint(to: Address, id: nat, uri: string)
    | Transfer(from: Address, to: Address, id: nat, caller: Address)
    | Approve(owner: Address, to: Address, id: nat)
    | TransferFrom(from: Address, to: Address, id: nat, spender: Address)
    | Burn(owner: Address, id: nat, caller: Address)
    | SetMetadata(id: nat, meta: Metadata)

  datatype Error =
    | BadAddress(why: AddressError) | ReservedId | IdTooLarge | AlreadyExists | ContractFull | OwnerFull | UriTooLong
    | SelfTransfer | SelfApproval | NoSuchToken | NotOwner | NotApproved | MetadataTooLong

  function TokensOf(s: Tokens, owner: Address): set<nat> {
    Entry(s.ownerTokens, owner)
  }

  function Entry(m: map<Address, set<nat>>, owner: Address): set<nat> {
    if owner in m then m[owner] else {}
  }

  function CountOf(s: Tokens, owner: Address): nat {
    if owner in s.counts then s.counts[owner] else 0
  }

  // ---------------------------------------------------------------------------------------------
  // Calls

  function IdError(id: nat): Option<Error> {
    if id == 0 then Some(ReservedId) else if id > MAX_TOKEN_ID then Some(IdTooLarge) else None
  }

  predicate MetadataFits(m: Metadata) {
    && |m.name| <= MAX_NAME_LENGTH && |m.description| <= MAX_DESCRIPTION_LENGTH
    && |m.image| <= MAX_URL_LENGTH && |m.externalUrl| <= MAX_URL_LENGTH && |m.attributes| <= MAX_ATTRIBUTES
    && forall i :: 0 <= i < |m.attributes| ==>
         |m.attributes[i].traitType| <= MAX_TRAIT_TYPE_LENGTH && |m.attributes[i].value| <= MAX_ATTRIBUTE_VALUE_LENGTH
  }

  function AddressesOf(op: Op): seq<Address> {
    match op
    case Mint(to, _, _) => [to]
    case Transfer(from, to, _, caller) => [from, to, caller]
    case Approve(owner, to, _) => [owner, to]
    case TransferFrom(from, to, _, spender) => [from, to, spender]
    case Burn(owner, _, caller) => [owner, caller]
    case SetMetadata(_, _) => []
  }

  function OwnershipError(s: Tokens, id: nat, owner: Address): (r: Option<Error>)
    ensures r.None? <==> id in s.owners && s.owners[id] == owner
  {
    if id !in s.owners then Some(NoSuchToken) else if s.owners[id] != owner then Some(NotOwner) else None
  }

  function ErrorOf(s: Tokens, op: Op): Option<Error> {
    var bad := CheckAll(AddressesOf(op));
    if bad.Some? then Some(BadAddress(bad.value))
    else
      match op
      case Mint(to, id, uri) =>
        if IdError(id).Some? then IdError(id)
        else if id in s.owners then Some(AlreadyExists)
        else if |s.index| >= MAX_TOKENS_PER_CONTRACT then Some(ContractFull)
        else if |TokensOf(s, to)| >= MAX_TOKENS_PER_OWNER then Some(OwnerFull)
        else if |uri| > MAX_TOKEN_URI_LENGTH then Some(UriTooLong)
        else None
      case Transfer(from, to, id, caller) =>
        if from == to then Some(SelfTransfer)
        else if OwnershipError(s, id, from).Some? then OwnershipError(s, id, from)
        else if caller != from && !(id in s.approvals && s.approvals[id] == caller) then Some(NotApproved)
        else None
      case Approve(owner, to, id) =>
        if owner == to then Some(SelfApproval) else OwnershipError(s, id, owner)
      case TransferFrom(from, to, id, spender) =>
        if from == to then Some(SelfTransfer)
        else if OwnershipError(s, id, from).Some? then OwnershipError(s, id, from)
        else if !(id in s.approvals && s.approvals[id] == spender) then Some(NotApproved)
        else None
      case Burn(owner, id, caller) =>
        if OwnershipError(s, id, owner).Some? then OwnershipError(s, id, owner)
        else if caller != owner then Some(NotOwner)
        else None
      case SetMetadata(id, meta) =>
        if IdError(id).Some? then IdError(id)
        else if id !in s.owners then Some(NoSuchToken)
        else if !MetadataFits(meta) then Some(MetadataTooLong)
        else None
  }

  /** The reverse index with a token taken from an owner; an owner left with nothing is dropped. */
  function Unlist(m: map<Address, set<nat>>, owner: Address, id: nat): map<Address, set<nat>> {
    if owner !in m then m
    else if m[owner] - {id} == {} then m - {owner}
    else m[owner := m[owner] - {id}]
  }

  function List(m: map<Address, set<nat>>, owner: Address, id: nat): map<Address, set<nat>> {
    m[owner := (if owner in m then m[owner] else {}) + {id}]
  }

  function Decrement(m: map<Address, nat>, owner: Address): map<Address, nat> {
    if owner in m && m[owner] > 0 then m[owner := m[owner] - 1] else m
  }

  function Increment(m: map<Address, nat>, owner: Address): map<Address, nat> {
    m[owner := (if owner in m then m[owner] else 0) + 1]
  }

  function RemoveFirst(s: seq<nat>, x: nat): seq<nat> {
    if s == [] then [] else if s[0] == x then s[1..] else [s[0]] + RemoveFirst(s[1..], x)
  }

  function MoveToken(s: Tokens, from: Address, to: Address, id: nat): Tokens {
    s.(owners := s.owners[id := to],
       counts := Increment(Decrement(s.counts, from), to),
       ownerTokens := List(Unlist(s.ownerTokens, from, id), to, id))
  }

  function Apply(s: Tokens, op: Op): Tokens {
    match op
    case Mint(to, id, uri) =>
      s.(owners := s.owners[id := to],
         uris := if uri == "" then s.uris else s.uris[id := uri],
         counts := Increment(s.counts, to),
         ownerTokens := List(s.ownerTokens, to, id),
         index := s.index + [id])
    case Transfer(from, to, id, caller) =>
      MoveToken(if caller == from then s else s.(approvals := s.approvals - {id}), from, to, id)
    case Approve(_, to, id) => s.(approvals := s.approvals[id := to])
    case TransferFrom(from, to, id, _) => MoveToken(s.(approvals := s.approvals - {id}), from, to, id)
    case Burn(owner, id, _) =>
      s.(owners := s.owners - {id},
         uris := s.uris - {id},
         approvals := s.approvals - {id},
         metadata := s.metadata - {id},
         counts := Decrement(s.counts, owner),
         ownerTokens := Unlist(s.ownerTokens, owner, id),
         index := RemoveFirst(s.index, id))
    case SetMetadata(id, meta) => s.(metadata := s.metadata[id := meta])
  }

  // ---------------------------------------------------------------------------------------------
  // Agreement of the four structures

  ghost function Owned(s: Tokens, owner: Address): set<nat> {
    set id | id in s.owners && s.owners[id] == owner
  }

  ghost predicate Distinct(s: seq<nat>) {
    forall i, j :: 0 <= i < j < |s| ==> s[i] != s[j]
  }

  ghost predicate Indexed(s: Tokens) {
    Distinct(s.index) && forall id :: id in s.index <==> id in s.owners
  }

  /** The enumeration list, the reverse index and the counters all say what the owner map says. */
  ghost predicate Agree(s: Tokens) {
    && Indexed(s)
    && (forall o :: TokensOf(s, o) == Owned(s, o))
    && (forall o :: CountOf(s, o) == |Owned(s, o)|)
  }

  function Same(): nat -> nat { (x: nat) => x }

  ghost predicate NoEmptyEntry(m: map<Address, set<nat>>) {
    forall o :: o in m ==> m[o] != {}
  }

  ghost predicate GoodEntries(owners: map<nat, Address>) {
    forall id :: id in owners ==> 0 < id <= MAX_TOKEN_ID && CheckAddress(owners[id]).None?
  }

  ghost predicate LiveOnly(s: Tokens) {
    s.uris.Keys <= s.owners.Keys && s.approvals.Keys <= s.owners.Keys && s.metadata.Keys <= s.owners.Keys
  }

  /** No empty entry in the reverse index; counters that add up; side tables on live tokens only. */
  ghost predicate Tidy(s: Tokens) {
    NoEmptyEntry(s.ownerTokens) && GoodEntries(s.owners) && LiveOnly(s) && SumBy(s.counts, Same()) == |s.owners|
  }

  ghost predicate Inv(s: Tokens) {
    Agree(s) && Tidy(s)
  }

  lemma {:induction false} RemoveFirstContents(s: seq<nat>, x: nat)
    requires Distinct(s)
    ensures Distinct(RemoveFirst(s, x))
    ensures forall y :: y in RemoveFirst(s, x) <==> y in s && y != x
  {
    if s != [] {
      RemoveFirstContents(s[1..], x);
      assert s == [s[0]] + s[1..];
      assert s[0] !in s[1..];
    }
  }

  /** The reverse index and the counter of one owner say what the owner map says. */
  ghost predicate AgreeFor(s: Tokens, o: Address) {
    TokensOf(s, o) == Owned(s, o) && CountOf(s, o) == |Owned(s, o)|
  }

  lemma {:induction false} AgreeForAll(s: Tokens)
    ensures Agree(s) <==> Indexed(s) && forall o :: AgreeFor(s, o)
  {
    if Indexed(s) && forall o :: AgreeFor(s, o) {
      assert forall o :: AgreeFor(s, o) ==> TokensOf(s, o) == Owned(s, o) && CountOf(s, o) == |Owned(s, o)|;
    }
  }

  /** A token that an owner gains. */
  lemma {:induction false} GainAgrees(s: Tokens, s': Tokens, o: Address, id: nat)
    requires AgreeFor(s, o) && id !in Owned(s, o)
    requires TokensOf(s', o) == TokensOf(s, o) + {id} && CountOf(s', o) == CountOf(s, o) + 1
    requires Owned(s', o) == Owned(s, o) + {id}
    ensures AgreeFor(s', o)
  {
  }

  /** A token that an owner loses. */
  lemma {:induction false} LossAgrees(s: Tokens, s': Tokens, o: Address, id: nat)
    requires AgreeFor(s, o) && id in Owned(s, o)
    requires TokensOf(s', o) == TokensOf(s, o) - {id}
    requires CountOf(s', o) == if CountOf(s, o) > 0 then CountOf(s, o) - 1 else 0
    requires Owned(s', o) == Owned(s, o) - {id}
    ensures AgreeFor(s', o)
  {
    assert Owned(s, o) != {};
  }

  lemma {:induction false} MintAgrees(s: Tokens, to: Address, id: nat, uri: string)
    requires Agree(s) && id !in s.owners
    ensures Agree(Apply(s, Mint(to, id, uri)))
  {
    var s' := Apply(s, Mint(to, id, uri));
    AgreeForAll(s);
    forall o ensures AgreeFor(s', o) {
      assert AgreeFor(s, o);
      if o == to {
        assert Owned(s', o) == Owned(s, o) + {id};
        GainAgrees(s, s', o, id);
      } else {
        assert Owned(s', o) == Owned(s, o);
      }
    }
    assert Indexed(s');
    AgreeForAll(s');
  }

  lemma {:induction false} UnlistEntry(m: map<Address, set<nat>>, owner: Address, id: nat, o: Address)
    ensures Entry(Unlist(m, owner, id), o) == if o == owner then Entry(m, o) - {id} else Entry(m, o)
  {
  }

  lemma {:induction false} MoveEntries(s: Tokens, from: Address, to: Address, id: nat, o: Address)
    requires from != to
    ensures TokensOf(MoveToken(s, from, to, id), o) ==
      if o == from then TokensOf(s, o) - {id} else if o == to then TokensOf(s, o) + {id} else TokensOf(s, o)
  {
    UnlistEntry(s.ownerTokens, from, id, o);
  }

  lemma {:induction false} MoveOwned(s: Tokens, from: Address, to: Address, id: nat, o: Address)
    requires from != to && id in s.owners && s.owners[id] == from
    ensures Owned(MoveToken(s, from, to, id), o) ==
      if o == from then Owned(s, o) - {id} else if o == to then Owned(s, o) + {id} else Owned(s, o)
  {
  }

  lemma {:induction false} MoveAgreesFor(s: Tokens, from: Address, to: Address, id: nat, o: Address)
    requires AgreeFor(s, o) && from != to && id in s.owners && s.owners[id] == from
    ensures AgreeFor(MoveToken(s, from, to, id), o)
  {
    var s' := MoveToken(s, from, to, id);
    MoveEntries(s, from, to, id, o);
    MoveOwned(s, from, to, id, o);
    if o == from {
      LossAgrees(s, s', o, id);
    } else if o == to {
      GainAgrees(s, s', o, id);
    }
  }

  lemma {:induction false} MoveAgrees(s: Tokens, from: Address, to: Address, id: nat)
    requires Agree(s) && from != to && id in s.owners && s.owners[id] == from
    ensures Agree(MoveToken(s, from, to, id))
  {
    AgreeForAll(s);
    forall o ensures AgreeFor(MoveToken(s, from, to, id), o) {
      assert AgreeFor(s, o);
      MoveAgreesFor(s, from, to, id, o);
    }
    assert Indexed(MoveToken(s, from, to, id));
    AgreeForAll(MoveToken(s, from, to, id));
  }

  lemma {:induction false} BurnAgreesFor(s: Tokens, owner: Address, id: nat, caller: Address, o: Address)
    requires AgreeFor(s, o) && id in s.owners && s.owners[id] == owner
    ensures AgreeFor(Apply(s, Burn(owner, id, caller)), o)
  {
    var s' := Apply(s, Burn(owner, id, caller));
    if o == owner {
      assert Owned(s', o) == Owned(s, o) - {id};
      LossAgrees(s, s', o, id);
    } else {
      assert Owned(s', o) == Owned(s, o);
    }
  }

  lemma {:induction false} BurnAgrees(s: Tokens, owner: Address, id: nat, caller: Address)
    requires Agree(s) && id in s.owners && s.owners[id] == owner
    ensures Agree(Apply(s, Burn(owner, id, caller)))
  {
    var s' := Apply(s, Burn(owner, id, caller));
    AgreeForAll(s);
    forall o ensures AgreeFor(s', o) {
      assert AgreeFor(s, o);
      BurnAgreesFor(s, owner, id, caller, o);
    }
    RemoveFirstContents(s.index, id);
    assert Indexed(s');
    AgreeForAll(s');
  }

  lemma {:induction false} SameOwnersAgree(s: Tokens, s': Tokens)
    requires Agree(s)
    requires s'.owners == s.owners && s'.counts == s.counts && s'.ownerTokens == s.ownerTokens && s'.index == s.index
    ensures Agree(s')
  {
    assert forall o :: Owned(s', o) == Owned(s, o);
    assert forall o :: TokensOf(s', o) == TokensOf(s, o);
    assert forall o :: CountOf(s', o) == CountOf(s, o);
  }

  lemma {:induction false} IncrementSum(m: map<Address, nat>, o: Address)
    ensures SumBy(Increment(m, o), Same()) == SumBy(m, Same()) + 1
  {
    SumUpdate<Address, nat>(m, Same(), o, (if o in m then m[o] else 0) + 1);
  }

  lemma {:induction false} DecrementSum(m: map<Address, nat>, o: Address)
    requires o in m && m[o] > 0
    ensures SumBy(Decrement(m, o), Same()) == SumBy(m, Same()) - 1
  {
    SumUpdate<Address, nat>(m, Same(), o, m[o] - 1);
  }

  lemma {:induction false} OwnerIsCounted(s: Tokens, id: nat)
    requires Agree(s) && id in s.owners
    ensures s.owners[id] in s.counts && s.counts[s.owners[id]] > 0
  {
    var o := s.owners[id];
    assert CountOf(s, o) == |Owned(s, o)|;
    assert id in Owned(s, o);
    assert |Owned(s, o)| > 0 by { assert Owned(s, o) != {}; }
  }

  lemma {:induction false} MoveStaysTidy(s: Tokens, from: Address, to: Address, id: nat)
    requires Tidy(s) && id in s.owners && CheckAddress(to).None?
    requires from in s.counts && s.counts[from] > 0
    ensures Tidy(MoveToken(s, from, to, id))
  {
    DecrementSum(s.counts, from);
    IncrementSum(Decrement(s.counts, from), to);
    UnlistLeavesNoEmpty(s.ownerTokens, from, id);
    ListLeavesNoEmpty(Unlist(s.ownerTokens, from, id), to, id);
    GoodEntryAdded(s.owners, id, to);
    assert MoveToken(s, from, to, id).owners.Keys == s.owners.Keys;
    assert |MoveToken(s, from, to, id).owners.Keys| == |s.owners.Keys|;
  }

  lemma {:induction false} MintStaysTidy(s: Tokens, to: Address, id: nat, uri: string)
    requires Tidy(s) && id !in s.owners && CheckAddress(to).None? && 0 < id <= MAX_TOKEN_ID
    ensures Tidy(Apply(s, Mint(to, id, uri)))
  {
    IncrementSum(s.counts, to);
    OneMoreOwned(s.owners, id, to);
    ListLeavesNoEmpty(s.ownerTokens, to, id);
    GoodEntryAdded(s.owners, id, to);
    MintIsLive(s, to, id, uri);
  }

  lemma {:induction false} OneMoreOwned(owners: map<nat, Address>, id: nat, to: Address)
    requires id !in owners
    ensures |owners[id := to]| == |owners| + 1
  {
    assert owners[id := to].Keys == owners.Keys + {id};
  }

  lemma {:induction false} MintIsLive(s: Tokens, to: Address, id: nat, uri: string)
    requires LiveOnly(s)
    ensures LiveOnly(Apply(s, Mint(to, id, uri)))
  {
  }

  lemma {:induction false} ListLeavesNoEmpty(m: map<Address, set<nat>>, owner: Address, id: nat)
    requires NoEmptyEntry(m)
    ensures NoEmptyEntry(List(m, owner, id))
  {
    assert id in List(m, owner, id)[owner];
  }

  lemma {:induction false} GoodEntryAdded(owners: map<nat, Address>, id: nat, to: Address)
    requires GoodEntries(owners) && CheckAddress(to).None? && 0 < id <= MAX_TOKEN_ID
    ensures GoodEntries(owners[id := to])
  {
  }

  lemma {:induction false} UnlistLeavesNoEmpty(m: map<Address, set<nat>>, owner: Address, id: nat)
    requires NoEmptyEntry(m)
    ensures NoEmptyEntry(Unlist(m, owner, id))
  {
  }

  lemma {:induction false} BurnIsLive(s: Tokens, owner: Address, id: nat, caller: Address)
    requires LiveOnly(s)
    ensures LiveOnly(Apply(s, Burn(owner, id, caller)))
  {
  }

  lemma {:induction false} BurnStaysTidy(s: Tokens, owner: Address, id: nat, caller: Address)
    requires Tidy(s) && id in s.owners
    requires owner in s.counts && s.counts[owner] > 0
    ensures Tidy(Apply(s, Burn(owner, id, caller)))
  {
    DecrementSum(s.counts, owner);
    var s' := Apply(s, Burn(owner, id, caller));
    assert |s'.owners| == |s.owners| - 1 by {
      assert s'.owners.Keys == s.owners.Keys - {id};
    }
    UnlistLeavesNoEmpty(s.ownerTokens, owner, id);
    BurnIsLive(s, owner, id, caller);
    assert GoodEntries(s'.owners);
  }

  lemma {:induction false} MoveKeepsInv(s: Tokens, from: Address, to: Address, id: nat)
    requires Inv(s) && from != to && id in s.owners && s.owners[id] == from && CheckAddress(to).None?
    ensures Inv(MoveToken(s, from, to, id))
  {
    MoveAgrees(s, from, to, id);
    OwnerIsCounted(s, id);
    MoveStaysTidy(s, from, to, id);
  }

  lemma {:induction false} OtherKeepsInv(s: Tokens, s': Tokens)
    requires Inv(s)
    requires s'.owners == s.owners && s'.counts == s.counts && s'.ownerTokens == s.ownerTokens && s'.index == s.index
    requires s'.uris.Keys <= s.owners.Keys && s'.approvals.Keys <= s.owners.Keys && s'.metadata.Keys <= s.owners.Keys
    ensures Inv(s')
  {
    SameOwnersAgree(s, s');
  }

  /** Every accepted call keeps the four structures in agreement and the side tables on live tokens. */
  lemma {:induction false} CallKeepsInv(s: Tokens, op: Op)
    requires Inv(s) && ErrorOf(s, op).None?
    ensures Inv(Apply(s, op))
  {
    match op
    case Mint(to, id, uri) =>
      assert CheckAddress([to][0]).None?;
      MintAgrees(s, to, id, uri);
      MintStaysTidy(s, to, id, uri);
    case Transfer(from, to, id, caller) =>
      assert CheckAddress([from, to, caller][1]).None?;
      var s1 := if caller == from then s else s.(approvals := s.approvals - {id});
      OtherKeepsInv(s, s1);
      MoveKeepsInv(s1, from, to, id);
    case Approve(_, to, id) => OtherKeepsInv(s, Apply(s, op));
    case TransferFrom(from, to, id, spender) =>
      assert CheckAddress([from, to, spender][1]).None?;
      var s1 := s.(approvals := s.approvals - {id});
      OtherKeepsInv(s, s1);
      MoveKeepsInv(s1, from, to, id);
    case Burn(owner, id, caller) =>
      BurnAgrees(s, owner, id, caller);
      OwnerIsCounted(s, id);
      BurnStaysTidy(s, owner, id, caller);
    case SetMetadata(id, meta) => OtherKeepsInv(s, Apply(s, op));
  }

  /** The state after some calls on a new contract; a refused call changes nothing. */
  function Step(s: Tokens, op: Op): Tokens {
    if ErrorOf(s, op).None? then Apply(s, op) else s
  }

  function Run(ops: seq<Op>): Tokens {
    if ops == [] then NO_TOKENS else Step(Run(ops[..|ops| - 1]), ops[|ops| - 1])
  }

  lemma {:induction false} ReachableInv(ops: seq<Op>)
    ensures Inv(Run(ops))
  {
    if ops == [] {
      assert forall o :: Owned(NO_TOKENS, o) == {};
    } else {
      ReachableInv(ops[..|ops| - 1]);
      var before := Run(ops[..|ops| - 1]);
      if ErrorOf(before, ops[|ops| - 1]).None? {
        CallKeepsInv(before, ops[|ops| - 1]);
      }
    }
  }

  // ---------------------------------------------------------------------------------------------
  // The integrity check

  /** The five checks of `verify_nft_integrity`. */
  predicate Checks(s: Tokens) {
    && OwnersIndexed(s.owners, s.index)
    && IndexOwned(s.index, s.owners)
    && CountersMatch(s.counts, s.ownerTokens)
    && EntriesMatch(s.ownerTokens, s.owners)
    && |s.owners| == |s.index|
  }

  predicate OwnersIndexed(owners: map<nat, Address>, index: seq<nat>) {
    forall id :: id in owners ==> id in index
  }

  predicate IndexOwned(index: seq<nat>, owners: map<nat, Address>) {
    forall i :: 0 <= i < |index| ==> index[i] in owners
  }

  predicate CountersMatch(counts: map<Address, nat>, ownerTokens: map<Address, set<nat>>) {
    forall o :: o in counts ==> counts[o] == |Entry(ownerTokens, o)|
  }

  predicate EntriesMatch(ownerTokens: map<Address, set<nat>>, owners: map<nat, Address>) {
    forall o, id :: o in ownerTokens && id in ownerTokens[o] ==> id in owners && owners[id] == o
  }

  /** What the checks do not look at: owned tokens missing from the reverse index, and owners without a counter. */
  predicate Listed(s: Tokens) {
    && (forall id :: id in s.owners ==> id in TokensOf(s, s.owners[id]))
    && (forall o :: o in s.ownerTokens && s.ownerTokens[o] != {} ==> o in s.counts)
  }

  ghost function Elements(s: seq<nat>): set<nat> {
    set i | 0 <= i < |s| :: s[i]
  }

  lemma {:induction false} DistinctExtends(front: seq<nat>, last: nat)
    ensures Distinct(front + [last]) <==> Distinct(front) && last !in Elements(front)
  {
    var s := front + [last];
    if Distinct(s) {
      assert forall i :: 0 <= i < |front| ==> s[i] == front[i] && s[i] != s[|front|];
    }
  }

  lemma {:induction false} DistinctByCount(s: seq<nat>)
    ensures |Elements(s)| <= |s|
    ensures |Elements(s)| == |s| <==> Distinct(s)
  {
    if s != [] {
      var front, last := s[..|s| - 1], s[|s| - 1];
      DistinctByCount(front);
      assert Elements(s) == Elements(front) + {last};
      DistinctExtends(front, last);
      assert s == front + [last];
    }
  }

  lemma {:induction false} IndexedByCount(s: Tokens)
    requires forall id :: id in s.index <==> id in s.owners
    ensures Distinct(s.index) <==> |s.owners| == |s.index|
  {
    DistinctByCount(s.index);
    assert Elements(s.index) == s.owners.Keys;
  }

  lemma {:induction false} CountersAgree(s: Tokens)
    requires forall o :: AgreeFor(s, o)
    ensures CountersMatch(s.counts, s.ownerTokens)
  {
    forall o | o in s.counts ensures s.counts[o] == |Entry(s.ownerTokens, o)| {
      assert AgreeFor(s, o);
    }
  }

  lemma {:induction false} EntriesAgree(s: Tokens)
    requires forall o :: AgreeFor(s, o)
    ensures EntriesMatch(s.ownerTokens, s.owners)
  {
    forall o, id | o in s.ownerTokens && id in s.ownerTokens[o] ensures id in s.owners && s.owners[id] == o {
      assert AgreeFor(s, o) && id in TokensOf(s, o);
    }
  }

  lemma {:induction false} ListingAgrees(s: Tokens)
    requires forall o :: AgreeFor(s, o)
    ensures Listed(s)
  {
    forall id | id in s.owners ensures id in TokensOf(s, s.owners[id]) {
      assert AgreeFor(s, s.owners[id]) && id in Owned(s, s.owners[id]);
    }
    forall o | o in s.ownerTokens && s.ownerTokens[o] != {} ensures o in s.counts {
      assert AgreeFor(s, o);
    }
  }

  lemma {:induction false} AgreementPasses(s: Tokens)
    requires Agree(s)
    ensures Checks(s) && Listed(s)
  {
    IndexedByCount(s);
    assert forall o :: AgreeFor(s, o);
    CountersAgree(s);
    EntriesAgree(s);
    ListingAgrees(s);
  }

  lemma {:induction false} PassingAgreesFor(s: Tokens, o: Address)
    requires CountersMatch(s.counts, s.ownerTokens) && EntriesMatch(s.ownerTokens, s.owners) && Listed(s)
    ensures AgreeFor(s, o)
  {
    forall id ensures id in TokensOf(s, o) <==> id in Owned(s, o) {
    }
    assert TokensOf(s, o) == Owned(s, o);
  }

  lemma {:induction false} PassingAgrees(s: Tokens)
    requires Checks(s) && Listed(s)
    ensures Agree(s)
  {
    IndexedByCount(s);
    forall o ensures AgreeFor(s, o) {
      PassingAgreesFor(s, o);
    }
    assert forall o :: AgreeFor(s, o) ==> TokensOf(s, o) == Owned(s, o) && CountOf(s, o) == |Owned(s, o)|;
  }

  /** The checks, with what they leave out, are exactly the agreement of the structures. */
  lemma {:induction false} ChecksExactly(s: Tokens)
    ensures Agree(s) <==> Checks(s) && Listed(s)
  {
    if Agree(s) {
      AgreementPasses(s);
    }
    if Checks(s) && Listed(s) {
      PassingAgrees(s);
    }
  }

  /** The check passes in every reachable state. */
  lemma {:induction false} ReachablePassesChecks(ops: seq<Op>)
    ensures Checks(Run(ops))
  {
    ReachableInv(ops);
    ChecksExactly(Run(ops));
  }

  /** A corrupted state that passes the check: a token that its owner's entry does not list. */
  lemma {:induction false} ChecksAreIncomplete(owner: Address)
    ensures var s := NO_TOKENS.(owners := map[7 := owner], index := [7]);
            Checks(s) && !Agree(s)
  {
    var s := NO_TOKENS.(owners := map[7 := owner], index := [7]);
    assert 7 in Owned(s, owner);
    assert TokensOf(s, owner) != Owned(s, owner);
  }
}
