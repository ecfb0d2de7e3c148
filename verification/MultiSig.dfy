/**
 * Multi-signature contracts (src/multisig_contracts.rs). The results are about whole runs: the
 * threshold stays reachable, an operation executes at most once on enough signatures of people who
 * were members when they signed, and every id ever issued is accounted for.
 */
module MultiSig {
  import opened Wrappers

  datatype Signature = Signature(signedAt: nat, hash: string)
  datatype Pending = Pending(action: string, created: nat, timeout: nat,
    signatures: map<string, Signature>, executed: bool)

  datatype Contract = Contract(
    owner: string, members: seq<string>, threshold: nat, pending: map<nat, Pending>,
    nextId: nat, timeout: nat, executed: nat)

  datatype Op =
    | Propose(caller: string, action: string, block: nat)
    | Sign(id: nat, signer: string, hash: string, block: nat)
    | Execute(id: nat, block: nat)
    | Revoke(id: nat, signer: string)
    | AddMember(caller: string, member: string)
    | RemoveMember(caller: string, member: string)
    | ChangeThreshold(caller: string, threshold: nat)
    | Cleanup(block: nat)

  datatype Error =
    | NoMembers | BadThreshold | NotOwner | NotMember | NotFound | AlreadyExecuted | Expired
    | AlreadySigned | NotEnough | NotSigned | MemberExists | CannotRemoveOwner | MemberNotFound

  function New(owner: string, members: seq<string>, threshold: nat, timeout: nat): Result<Contract, Error> {
    if members == [] then Err(NoMembers)
    else if threshold == 0 || threshold > |members| then Err(BadThreshold)
    else Ok(Contract(owner, members, threshold, map[], 1, timeout, 0))
  }

  predicate IsExpired(p: Pending, block: nat) {
    block > p.created + p.timeout
  }

  predicate IsApproved(p: Pending, threshold: nat) {
    |p.signatures| >= threshold
  }

  function Refusal(c: Contract, op: Op): Option<Error> {
    match op
    case Propose(caller, _, _) => if caller != c.owner then Some(NotOwner) else None
    case Sign(id, signer, _, block) =>
      if signer !in c.members then Some(NotMember)
      else if id !in c.pending then Some(NotFound)
      else if c.pending[id].executed then Some(AlreadyExecuted)
      else if IsExpired(c.pending[id], block) then Some(Expired)
      else if signer in c.pending[id].signatures then Some(AlreadySigned)
      else None
    case Execute(id, block) =>
      if id !in c.pending then Some(NotFound)
      else if c.pending[id].executed then Some(AlreadyExecuted)
      else if IsExpired(c.pending[id], block) then Some(Expired)
      else if !IsApproved(c.pending[id], c.threshold) then Some(NotEnough)
      else None
    case Revoke(id, signer) =>
      if id !in c.pending then Some(NotFound)
      else if c.pending[id].executed then Some(AlreadyExecuted)
      else if signer !in c.pending[id].signatures then Some(NotSigned)
      else None
    case AddMember(caller, member) =>
      if caller != c.owner then Some(NotOwner)
      else if member in c.members then Some(MemberExists)
      else None
    case RemoveMember(caller, member) =>
      if caller != c.owner then Some(NotOwner)
      else if member == c.owner then Some(CannotRemoveOwner)
      else if member !in c.members then Some(MemberNotFound)
      else None
    case ChangeThreshold(caller, threshold) =>
      if caller != c.owner then Some(NotOwner)
      else if threshold == 0 || threshold > |c.members| then Some(BadThreshold)
      else None
    case Cleanup(_) => None
  }

  function Position(members: seq<string>, member: string): (i: nat)
    requires member in members
    ensures i < |members| && members[i] == member && member !in members[..i]
  {
    if members[0] == member then 0
    else
      var rest := members[1..];
      var k := Position(rest, member);
      assert members[..k + 1] == [members[0]] + rest[..k];
      k + 1
  }

  function Without(members: seq<string>, member: string): (r: seq<string>)
    requires member in members
    ensures |r| == |members| - 1
    ensures forall m :: m in members && m != member ==> m in r
    ensures forall m :: m in r ==> m in members
  {
    var i := Position(members, member);
    var r := members[..i] + members[i + 1..];
    assert members == members[..i] + [members[i]] + members[i + 1..];
    r
  }

  predicate Stale(p: Pending, block: nat) {
    IsExpired(p, block) && !p.executed
  }

  function StaleIds(pending: map<nat, Pending>, block: nat): set<nat> {
    set id | id in pending && Stale(pending[id], block)
  }

  function Effect(c: Contract, op: Op): Contract
    requires Refusal(c, op).None?
  {
    match op
    case Propose(_, action, block) =>
      c.(pending := c.pending[c.nextId := Pending(action, block, c.timeout, map[], false)], nextId := c.nextId + 1)
    case Sign(id, signer, hash, block) =>
      var p := c.pending[id];
      c.(pending := c.pending[id := p.(signatures := p.signatures[signer := Signature(block, hash)])])
    case Execute(id, _) => c.(pending := c.pending[id := c.pending[id].(executed := true)], executed := c.executed + 1)
    case Revoke(id, signer) =>
      var p := c.pending[id];
      c.(pending := c.pending[id := p.(signatures := p.signatures - {signer})])
    case AddMember(_, member) => c.(members := c.members + [member])
    case RemoveMember(_, member) =>
      var left := Without(c.members, member);
      c.(members := left, threshold := if c.threshold > |left| then |left| else c.threshold)
    case ChangeThreshold(_, threshold) => c.(threshold := threshold)
    case Cleanup(block) => c.(pending := c.pending - StaleIds(c.pending, block))
  }

  function Step(c: Contract, op: Op): Contract {
    if Refusal(c, op).None? then Effect(c, op) else c
  }

  /** The contract after the first `n` operations of a run. */
  function At(init: Contract, ops: seq<Op>, n: nat): Contract
    requires n <= |ops|
  {
    if n == 0 then init else Step(At(init, ops, n - 1), ops[n - 1])
  }

  ghost predicate IsNew(c: Contract) {
    c.pending == map[] && c.nextId == 1 && c.executed == 0 && 1 <= c.threshold <= |c.members|
  }

  // ---------------------------------------------------------------------------------------------
  // The threshold

  ghost predicate Reachable(c: Contract) {
    1 <= c.threshold <= |c.members|
  }

  lemma {:induction false} OwnerStays(init: Contract, ops: seq<Op>, n: nat)
    requires n <= |ops| && IsNew(init) && init.owner in init.members
    ensures var c := At(init, ops, n); c.owner == init.owner && c.owner in c.members && Reachable(c)
  {
    if n > 0 {
      OwnerStays(init, ops, n - 1);
    }
  }

  /** The owner can remove every member that is not the owner, one after the other. */
  lemma {:induction false} RemoveAll(c: Contract) returns (ops: seq<Op>)
    requires c.owner !in c.members
    ensures var last := At(c, ops, |ops|); last.members == [] && (c.members != [] ==> last.threshold == 0)
    ensures c.members == [] ==> ops == []
    decreases |c.members|
  {
    if c.members == [] {
      ops := [];
    } else {
      var op := RemoveMember(c.owner, c.members[0]);
      var c' := Step(c, op);
      var rest := RemoveAll(c');
      ops := [op] + rest;
      AtPrepend(c, op, rest, |rest|);
    }
  }

  lemma {:induction false} AtPrepend(c: Contract, op: Op, rest: seq<Op>, n: nat)
    requires n <= |rest|
    ensures At(c, [op] + rest, n + 1) == At(Step(c, op), rest, n)
  {
    var ops := [op] + rest;
    if n == 0 {
      assert At(c, ops, 0) == c;
    } else {
      AtPrepend(c, op, rest, n - 1);
    }
  }

  ghost predicate AlwaysReachable(init: Contract) {
    forall ops: seq<Op>, n: nat :: n <= |ops| ==> Reachable(At(init, ops, n))
  }

  /** Between one and the number of members in every state of every run, exactly when the owner is a member. */
  lemma {:induction false} ThresholdStaysReachable(init: Contract)
    requires IsNew(init)
    ensures AlwaysReachable(init) <==> init.owner in init.members
  {
    if init.owner in init.members {
      forall ops: seq<Op>, n: nat | n <= |ops| ensures Reachable(At(init, ops, n)) {
        OwnerStays(init, ops, n);
      }
    } else {
      var ops := RemoveAll(init);
      assert !Reachable(At(init, ops, |ops|));
    }
  }

  // ---------------------------------------------------------------------------------------------
  // Execution

  ghost predicate IdsIssued(c: Contract) {
    forall id :: id in c.pending ==> 1 <= id < c.nextId
  }

  lemma {:induction false} IdsStayIssued(init: Contract, ops: seq<Op>, n: nat)
    requires n <= |ops| && IdsIssued(init) && init.nextId >= 1
    ensures IdsIssued(At(init, ops, n)) && At(init, ops, n).nextId >= 1
  {
    if n > 0 {
      IdsStayIssued(init, ops, n - 1);
    }
  }

  ghost predicate ExecutedBy(c: Contract, op: Op, id: nat) {
    && op.Execute? && op.id == id && id in c.pending && !c.pending[id].executed
    && !IsExpired(c.pending[id], op.block) && |c.pending[id].signatures| >= c.threshold
  }

  lemma {:induction false} ExecutedStep(c: Contract, op: Op, id: nat)
    requires IdsIssued(c) && id in Step(c, op).pending && Step(c, op).pending[id].executed
    ensures id in c.pending && Step(c, op).pending[id] == c.pending[id].(executed := true)
    ensures c.pending[id].executed || ExecutedBy(c, op, id)
  {
  }

  lemma {:induction false} FinalStep(c: Contract, op: Op, id: nat)
    requires IdsIssued(c) && id in c.pending && c.pending[id].executed
    ensures id in Step(c, op).pending && Step(c, op).pending[id] == c.pending[id] && !ExecutedBy(c, op, id)
  {
  }

  /** An executed operation is kept unchanged from then on and is never executed again. */
  lemma {:induction false} ExecutedIsFinal(init: Contract, ops: seq<Op>, n: nat, m: nat, id: nat)
    requires n <= m <= |ops| && IsNew(init)
    requires id in At(init, ops, n).pending && At(init, ops, n).pending[id].executed
    ensures id in At(init, ops, m).pending && At(init, ops, m).pending[id] == At(init, ops, n).pending[id]
    ensures m < |ops| ==> !ExecutedBy(At(init, ops, m), ops[m], id)
  {
    if n < m {
      ExecutedIsFinal(init, ops, n, m - 1, id);
      IdsStayIssued(init, ops, m - 1);
      FinalStep(At(init, ops, m - 1), ops[m - 1], id);
    }
  }

  /** An executed operation was executed by one step, with the signatures it still has, enough at that moment. */
  lemma {:induction false} ExecutedWasApproved(init: Contract, ops: seq<Op>, n: nat, id: nat) returns (e: nat)
    requires n <= |ops| && IsNew(init)
    requires id in At(init, ops, n).pending && At(init, ops, n).pending[id].executed
    ensures e < n && ExecutedBy(At(init, ops, e), ops[e], id)
    ensures At(init, ops, e).pending[id].signatures == At(init, ops, n).pending[id].signatures
  {
    var c := At(init, ops, n - 1);
    IdsStayIssued(init, ops, n - 1);
    ExecutedStep(c, ops[n - 1], id);
    if c.pending[id].executed {
      e := ExecutedWasApproved(init, ops, n - 1, id);
    } else {
      e := n - 1;
    }
  }

  ghost predicate OnRecord(c: Contract, id: nat, signer: string, s: Signature) {
    id in c.pending && signer in c.pending[id].signatures && c.pending[id].signatures[signer] == s
  }

  /** The step is accepted and gives exactly this signature. */
  ghost predicate SignedBy(c: Contract, op: Op, id: nat, signer: string, s: Signature) {
    && op.Sign? && op.id == id && op.signer == signer && Refusal(c, op).None?
    && signer in c.members && s == Signature(op.block, op.hash)
  }

  lemma {:induction false} SignatureStep(c: Contract, op: Op, id: nat, signer: string, s: Signature)
    requires IdsIssued(c) && OnRecord(Step(c, op), id, signer, s)
    ensures OnRecord(c, id, signer, s) || SignedBy(c, op, id, signer, s)
  {
  }

  /** Every signature on record was given by an accepted step of someone who was a member at that moment. */
  lemma {:induction false} SignersWereMembers(init: Contract, ops: seq<Op>, n: nat, id: nat, signer: string,
                                              s: Signature)
    returns (k: nat)
    requires n <= |ops| && IsNew(init)
    requires OnRecord(At(init, ops, n), id, signer, s)
    ensures k < n && SignedBy(At(init, ops, k), ops[k], id, signer, s)
  {
    var c := At(init, ops, n - 1);
    IdsStayIssued(init, ops, n - 1);
    SignatureStep(c, ops[n - 1], id, signer, s);
    if OnRecord(c, id, signer, s) {
      k := SignersWereMembers(init, ops, n - 1, id, signer, s);
    } else {
      k := n - 1;
    }
  }

  // ---------------------------------------------------------------------------------------------
  // Signers who have left

  ghost function Signers(c: Contract, id: nat): set<string>
    requires id in c.pending
  {
    c.pending[id].signatures.Keys
  }

  /** The signers of an operation that are members, and those that are not any more. */
  ghost function Present(c: Contract, id: nat): set<string>
    requires id in c.pending
  {
    set signer | signer in Signers(c, id) && signer in c.members
  }

  ghost function Departed(c: Contract, id: nat): set<string>
    requires id in c.pending
  {
    set signer | signer in Signers(c, id) && signer !in c.members
  }

  /** An accepted execution has enough present signers exactly when no more have left than it could spare. */
  lemma {:induction false} MembersSufficeExactly(c: Contract, op: Op)
    requires op.Execute? && Refusal(c, op).None?
    ensures |Present(c, op.id)| >= c.threshold <==>
              |Departed(c, op.id)| <= |c.pending[op.id].signatures| - c.threshold
  {
    assert Signers(c, op.id) == Present(c, op.id) + Departed(c, op.id);
    assert |Signers(c, op.id)| == |Present(c, op.id)| + |Departed(c, op.id)|;
    assert |c.pending[op.id].signatures| == |c.pending[op.id].signatures.Keys|;
  }

  ghost predicate Removes(c: Contract, op: Op, member: string) {
    op.RemoveMember? && op.member == member && Refusal(c, op).None?
  }

  lemma {:induction false} LeavesByRemoval(c: Contract, op: Op, member: string)
    requires member in c.members && member !in Step(c, op).members
    ensures Removes(c, op, member)
  {
  }

  lemma {:induction false} RemovedBetween(init: Contract, ops: seq<Op>, k: nat, n: nat, member: string) returns (r: nat)
    requires k <= n <= |ops| && member in At(init, ops, k).members && member !in At(init, ops, n).members
    ensures k <= r < n && Removes(At(init, ops, r), ops[r], member)
  {
    if member in At(init, ops, n - 1).members {
      LeavesByRemoval(At(init, ops, n - 1), ops[n - 1], member);
      r := n - 1;
    } else {
      r := RemovedBetween(init, ops, k, n - 1, member);
    }
  }

  /** In every run a departed signer was removed by an accepted step after it had signed. */
  lemma {:induction false} DepartedWereRemoved(init: Contract, ops: seq<Op>, n: nat, id: nat, signer: string)
    returns (k: nat, r: nat)
    requires n <= |ops| && IsNew(init) && id in At(init, ops, n).pending && signer in Departed(At(init, ops, n), id)
    ensures k <= r < n && Removes(At(init, ops, r), ops[r], signer)
    ensures SignedBy(At(init, ops, k), ops[k], id, signer, At(init, ops, n).pending[id].signatures[signer])
  {
    k := SignersWereMembers(init, ops, n, id, signer, At(init, ops, n).pending[id].signatures[signer]);
    r := RemovedBetween(init, ops, k, n, signer);
  }

  /** A contract of three with one operation, signed by some of them. */
  ghost predicate Signed(c: Contract, owner: string, members: seq<string>, signers: set<string>) {
    && c.owner == owner && c.members == members && c.threshold == 2 && 1 in c.pending
    && !c.pending[1].executed && c.pending[1].created == 0 && c.pending[1].signatures.Keys == signers
  }

  lemma {:induction false} ThenSign(c: Contract, owner: string, members: seq<string>, signers: set<string>,
                                    signer: string)
    requires Signed(c, owner, members, signers) && signer in members && signer !in signers
    ensures Signed(Step(c, Sign(1, signer, "", 0)), owner, members, signers + {signer})
  {
  }

  lemma {:induction false} ThenRemove(c: Contract, owner: string, a: string, b: string)
    requires Signed(c, owner, [owner, a, b], {a, b}) && owner != a && owner != b && a != b
    ensures Signed(Step(c, RemoveMember(owner, a)), owner, [owner, b], {a, b})
  {
    var members := [owner, a, b];
    assert members[1] == a && a in members;
    assert Position(members, a) == 1;
    assert members[..1] + members[2..] == [owner, b];
  }

  lemma {:induction false} ThenExecute(c: Contract, owner: string, a: string, b: string)
    requires Signed(c, owner, [owner, b], {a, b}) && owner != a && a != b
    ensures Refusal(c, Execute(1, 0)).None? && Present(c, 1) == {b} && |Present(c, 1)| < c.threshold
  {
    assert |c.pending[1].signatures| == |c.pending[1].signatures.Keys|;
  }

  /** A run that executes on two signatures of which one is of a member that has left. */
  lemma {:induction false} DepartedSignerCounts(owner: string, a: string, b: string)
    requires owner != a && owner != b && a != b
    ensures var init := Contract(owner, [owner, a, b], 2, map[], 1, 0, 0);
            var ops := [Propose(owner, "", 0), Sign(1, a, "", 0), Sign(1, b, "", 0), RemoveMember(owner, a),
                        Execute(1, 0)];
            && IsNew(init) && Refusal(At(init, ops, 4), ops[4]).None? && 1 in At(init, ops, 4).pending
            && |Present(At(init, ops, 4), 1)| < At(init, ops, 4).threshold
  {
    var init := Contract(owner, [owner, a, b], 2, map[], 1, 0, 0);
    var ops := [Propose(owner, "", 0), Sign(1, a, "", 0), Sign(1, b, "", 0), RemoveMember(owner, a), Execute(1, 0)];
    assert At(init, ops, 0) == init && At(init, ops, 1) == Step(init, ops[0]);
    assert Signed(At(init, ops, 1), owner, [owner, a, b], {});
    ThenSign(At(init, ops, 1), owner, [owner, a, b], {}, a);
    assert At(init, ops, 2) == Step(At(init, ops, 1), ops[1]) && {} + {a} == {a};
    ThenSign(At(init, ops, 2), owner, [owner, a, b], {a}, b);
    assert At(init, ops, 3) == Step(At(init, ops, 2), ops[2]) && {a} + {b} == {a, b};
    ThenRemove(At(init, ops, 3), owner, a, b);
    assert At(init, ops, 4) == Step(At(init, ops, 3), ops[3]);
    ThenExecute(At(init, ops, 4), owner, a, b);
  }

  // ---------------------------------------------------------------------------------------------
  // Accounting

  function Removed(c: Contract, op: Op): nat {
    if op.Cleanup? then |StaleIds(c.pending, op.block)| else 0
  }

  function RemovedSoFar(init: Contract, ops: seq<Op>, n: nat): nat
    requires n <= |ops|
  {
    if n == 0 then 0 else RemovedSoFar(init, ops, n - 1) + Removed(At(init, ops, n - 1), ops[n - 1])
  }

  ghost function ExecutedIds(pending: map<nat, Pending>): set<nat> {
    set id | id in pending && pending[id].executed
  }

  lemma {:induction false} CleanupSplits(pending: map<nat, Pending>, block: nat)
    ensures |pending - StaleIds(pending, block)| + |StaleIds(pending, block)| == |pending|
  {
    var stale, kept := StaleIds(pending, block), pending - StaleIds(pending, block);
    assert pending.Keys == kept.Keys + stale;
    assert |kept| == |kept.Keys| && |pending| == |pending.Keys|;
  }

  lemma {:induction false} UpdateSize(pending: map<nat, Pending>, id: nat, p: Pending)
    ensures |pending[id := p]| == |pending| + if id in pending then 0 else 1
  {
    assert pending[id := p].Keys == pending.Keys + {id};
    assert |pending| == |pending.Keys| && |pending[id := p]| == |pending[id := p].Keys|;
  }

  lemma {:induction false} SizeStep(c: Contract, op: Op)
    requires IdsIssued(c)
    ensures |Step(c, op).pending| + Removed(c, op) + c.nextId == |c.pending| + Step(c, op).nextId
  {
    if Refusal(c, op).None? {
      if op.Cleanup? {
        CleanupSplits(c.pending, op.block);
      } else if op.Propose? {
        UpdateSize(c.pending, c.nextId, Step(c, op).pending[c.nextId]);
      } else if op.Sign? || op.Execute? || op.Revoke? {
        UpdateSize(c.pending, op.id, Step(c, op).pending[op.id]);
      }
    }
  }

  /** Ids issued are the entries kept and the entries cleaned up. */
  lemma {:induction false} IdsAreAccounted(init: Contract, ops: seq<Op>, n: nat)
    requires n <= |ops| && IsNew(init)
    ensures At(init, ops, n).nextId - 1 == |At(init, ops, n).pending| + RemovedSoFar(init, ops, n)
  {
    if n > 0 {
      IdsAreAccounted(init, ops, n - 1);
      IdsStayIssued(init, ops, n - 1);
      SizeStep(At(init, ops, n - 1), ops[n - 1]);
    }
  }

  lemma {:induction false} ExecutedAfter(pending: map<nat, Pending>, id: nat, p: Pending)
    requires id !in pending || !pending[id].executed
    ensures |ExecutedIds(pending[id := p])| == |ExecutedIds(pending)| + if p.executed then 1 else 0
  {
    if p.executed {
      assert ExecutedIds(pending[id := p]) == ExecutedIds(pending) + {id};
    } else {
      assert ExecutedIds(pending[id := p]) == ExecutedIds(pending);
    }
  }

  lemma {:induction false} CountStep(c: Contract, op: Op)
    requires IdsIssued(c) && c.executed == |ExecutedIds(c.pending)|
    ensures Step(c, op).executed == |ExecutedIds(Step(c, op).pending)|
  {
    if Refusal(c, op).None? {
      if op.Cleanup? {
        assert ExecutedIds(c.pending - StaleIds(c.pending, op.block)) == ExecutedIds(c.pending);
      } else if op.Propose? {
        ExecutedAfter(c.pending, c.nextId, Step(c, op).pending[c.nextId]);
      } else if op.Sign? || op.Execute? || op.Revoke? {
        ExecutedAfter(c.pending, op.id, Step(c, op).pending[op.id]);
      }
    }
  }

  /** The execution counter is the number of executed entries: none is ever lost or counted twice. */
  lemma {:induction false} ExecutedIsCounted(init: Contract, ops: seq<Op>, n: nat)
    requires n <= |ops| && IsNew(init)
    ensures At(init, ops, n).executed == |ExecutedIds(At(init, ops, n).pending)|
  {
    if n == 0 {
      assert ExecutedIds(init.pending) == {};
    } else {
      ExecutedIsCounted(init, ops, n - 1);
      IdsStayIssued(init, ops, n - 1);
      CountStep(At(init, ops, n - 1), ops[n - 1]);
    }
  }

  lemma {:induction false} DropOneMore(pending: map<nat, Pending>, stale: set<nat>, left: set<nat>, id: nat)
    requires id in left && left <= stale
    ensures pending - (stale - left) - {id} == pending - (stale - (left - {id}))
  {
  }

  // ---------------------------------------------------------------------------------------------
  // The contract object

  class MultiSigContract {
    const owner: string
    const timeout: nat
    var members: seq<string>
    var threshold: nat
    var pending: map<nat, Pending>
    var nextId: nat
    var executed: nat

    ghost function View(): Contract
      reads this
    {
      Contract(owner, members, threshold, pending, nextId, timeout, executed)
    }

    /** `new` checks its arguments first; this builds the contract once they are accepted. */
    constructor (owner: string, members: seq<string>, threshold: nat, timeout: nat)
      requires New(owner, members, threshold, timeout).Ok?
      ensures Ok(View()) == New(owner, members, threshold, timeout) && IsNew(View())
    {
      this.owner, this.members, this.threshold, this.timeout := owner, members, threshold, timeout;
      pending, nextId, executed := map[], 1, 0;
    }

    method ProposeOperation(caller: string, action: string, block: nat) returns (r: Result<nat, Error>)
      modifies this
      ensures r == if caller != owner then Err(NotOwner) else Ok(old(nextId))
      ensures View() == Step(old(View()), Propose(caller, action, block))
    {
      if caller != owner {
        return Err(NotOwner);
      }
      var id := nextId;
      pending := pending[id := Pending(action, block, timeout, map[], false)];
      nextId := nextId + 1;
      r := Ok(id);
    }

    method SignOperation(id: nat, signer: string, hash: string, block: nat) returns (e: Option<Error>)
      modifies this
      ensures e == Refusal(old(View()), Sign(id, signer, hash, block))
      ensures View() == Step(old(View()), Sign(id, signer, hash, block))
    {
      if signer !in members {
        return Some(NotMember);
      }
      if id !in pending {
        return Some(NotFound);
      }
      var p := pending[id];
      if p.executed {
        return Some(AlreadyExecuted);
      }
      if IsExpired(p, block) {
        return Some(Expired);
      }
      if signer in p.signatures {
        return Some(AlreadySigned);
      }
      pending := pending[id := p.(signatures := p.signatures[signer := Signature(block, hash)])];
      e := None;
    }

    method ExecuteOperation(id: nat, block: nat) returns (e: Option<Error>)
      modifies this
      ensures e == Refusal(old(View()), Execute(id, block)) && View() == Step(old(View()), Execute(id, block))
    {
      if id !in pending {
        return Some(NotFound);
      }
      var p := pending[id];
      if p.executed {
        return Some(AlreadyExecuted);
      }
      if IsExpired(p, block) {
        return Some(Expired);
      }
      if !IsApproved(p, threshold) {
        return Some(NotEnough);
      }
      pending := pending[id := p.(executed := true)];
      executed := executed + 1;
      e := None;
    }

    method RevokeSignature(id: nat, signer: string) returns (e: Option<Error>)
      modifies this
      ensures e == Refusal(old(View()), Revoke(id, signer)) && View() == Step(old(View()), Revoke(id, signer))
    {
      if id !in pending {
        return Some(NotFound);
      }
      var p := pending[id];
      if p.executed {
        return Some(AlreadyExecuted);
      }
      if signer !in p.signatures {
        return Some(NotSigned);
      }
      pending := pending[id := p.(signatures := p.signatures - {signer})];
      e := None;
    }

    method InsertMember(caller: string, member: string) returns (e: Option<Error>)
      modifies this
      ensures e == Refusal(old(View()), AddMember(caller, member))
              && View() == Step(old(View()), AddMember(caller, member))
    {
      if caller != owner {
        return Some(NotOwner);
      }
      if member in members {
        return Some(MemberExists);
      }
      members := members + [member];
      e := None;
    }

    /** The first occurrence goes, and the threshold follows the member count down. */
    method DropMember(caller: string, member: string) returns (e: Option<Error>)
      modifies this
      ensures e == Refusal(old(View()), RemoveMember(caller, member))
      ensures View() == Step(old(View()), RemoveMember(caller, member))
    {
      if caller != owner {
        return Some(NotOwner);
      }
      if member == owner {
        return Some(CannotRemoveOwner);
      }
      if member !in members {
        return Some(MemberNotFound);
      }
      members := Without(members, member);
      if threshold > |members| {
        threshold := |members|;
      }
      e := None;
    }

    method SetThreshold(caller: string, value: nat) returns (e: Option<Error>)
      modifies this
      ensures e == Refusal(old(View()), ChangeThreshold(caller, value))
              && View() == Step(old(View()), ChangeThreshold(caller, value))
    {
      if caller != owner {
        return Some(NotOwner);
      }
      if value == 0 || value > |members| {
        return Some(BadThreshold);
      }
      threshold := value;
      e := None;
    }

    /** `cleanup_expired`: collect the stale ids, then drop them one by one and count them. */
    method CleanupExpired(block: nat) returns (removed: nat)
      modifies this`pending
      ensures removed == Removed(old(View()), Cleanup(block))
      ensures View() == Step(old(View()), Cleanup(block))
    {
      var stale := StaleIds(pending, block);
      var left := stale;
      removed := 0;
      while left != {}
        invariant left <= stale && removed + |left| == |stale|
        invariant pending == old(pending) - (stale - left)
        decreases |left|
      {
        var id :| id in left;
        DropOneMore(old(pending), stale, left, id);
        pending := pending - {id};
        left := left - {id};
        removed := removed + 1;
      }
      assert stale - left == stale;
    }
  }
}
