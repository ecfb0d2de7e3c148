/**
 * Token-weighted governance (src/governance_contracts.rs): proposals are created, activated, voted
 * on, finalized and executed. The main results speak about whole runs: how an executed proposal
 * got there, that its tallies have not moved since the vote was closed, and when the tallies are a
 * true recount of the recorded votes.
 */
module Governance {
  import opened Wrappers
  import opened MapSums

  datatype Status = Pending | Active | Succeeded | Failed | Executed | Cancelled
  datatype VoteType = For | Against | Abstain

  datatype Proposal = Proposal(
    proposer: string, action: string, status: Status,
    votesFor: nat, votesAgainst: nat, votesAbstain: nat, totalVoters: nat,
    created: nat, votingPeriod: nat, timelock: nat, executedAt: Option<nat>, voters: map<string, VoteType>)

  datatype Config = Config(quorum: nat, votingPeriod: nat, timelock: nat, minBalance: nat, threshold: nat)

  datatype Contract = Contract(
    owner: string, config: Config, proposals: map<nat, Proposal>, nextId: nat, holders: nat, executed: nat)

  datatype Op =
    | Create(proposer: string, action: string, block: nat, balance: nat)
    | Activate(id: nat)
    | Vote(id: nat, voter: string, choice: VoteType, power: nat, block: nat)
    | Finalize(id: nat, block: nat)
    | Execute(id: nat, block: nat)
    | Cancel(id: nat, caller: string)
    | UpdateConfig(caller: string, config: Config)
    | UpdateHolders(holders: nat)

  datatype Error =
    | LowBalance | BelowThreshold | NotFound | NotPending | VotingClosed | NoPower | NotActive
    | VotingOpen | AlreadyExecuted | NotExecutable | NotOwner | BadQuorum

  function New(owner: string, config: Config): Contract {
    Contract(owner, config, map[], 1, 0, 0)
  }

  predicate VotingActive(p: Proposal, block: nat) {
    p.status == Active && block < p.created + p.votingPeriod
  }

  predicate CanExecute(p: Proposal, block: nat) {
    p.status == Succeeded && block >= p.created + p.votingPeriod + p.timelock
  }

  /** Majority and quorum, with the quorum share compared exactly. */
  predicate HasPassed(p: Proposal, quorum: nat) {
    var total := p.votesFor + p.votesAgainst + p.votesAbstain;
    total > 0 && 100 * total >= p.totalVoters * quorum && p.votesFor > p.votesAgainst
  }

  // ---------------------------------------------------------------------------------------------
  // One operation

  function Refusal(c: Contract, op: Op): Option<Error> {
    match op
    case Create(proposer, _, _, balance) =>
      if balance < c.config.minBalance then Some(LowBalance)
      else if proposer != c.owner && c.holders > 0 && balance < c.holders * c.config.threshold / 100
      then Some(BelowThreshold)
      else None
    case Activate(id) =>
      if id !in c.proposals then Some(NotFound)
      else if c.proposals[id].status != Pending then Some(NotPending)
      else None
    case Vote(id, _, _, power, block) =>
      if id !in c.proposals then Some(NotFound)
      else if !VotingActive(c.proposals[id], block) then Some(VotingClosed)
      else if power == 0 then Some(NoPower)
      else None
    case Finalize(id, block) =>
      if id !in c.proposals then Some(NotFound)
      else if c.proposals[id].status != Active then Some(NotActive)
      else if block < c.proposals[id].created + c.proposals[id].votingPeriod then Some(VotingOpen)
      else None
    case Execute(id, block) =>
      if id !in c.proposals then Some(NotFound)
      else if c.proposals[id].status == Executed then Some(AlreadyExecuted)
      else if !CanExecute(c.proposals[id], block) then Some(NotExecutable)
      else None
    case Cancel(id, caller) =>
      if caller != c.owner then Some(NotOwner)
      else if id !in c.proposals then Some(NotFound)
      else if c.proposals[id].status == Executed then Some(AlreadyExecuted)
      else None
    case UpdateConfig(caller, config) =>
      if caller != c.owner then Some(NotOwner)
      else if config.quorum > 100 then Some(BadQuorum)
      else None
    case UpdateHolders(_) => None
  }

  function Less(a: nat, b: nat): nat {
    if a < b then 0 else a - b
  }

  /** Take `power` out of the tally of an earlier choice, never below zero. */
  function Withdrawn(p: Proposal, choice: VoteType, power: nat): Proposal {
    match choice
    case For => p.(votesFor := Less(p.votesFor, power))
    case Against => p.(votesAgainst := Less(p.votesAgainst, power))
    case Abstain => p.(votesAbstain := Less(p.votesAbstain, power))
  }

  function Added(p: Proposal, choice: VoteType, power: nat): Proposal {
    match choice
    case For => p.(votesFor := p.votesFor + power)
    case Against => p.(votesAgainst := p.votesAgainst + power)
    case Abstain => p.(votesAbstain := p.votesAbstain + power)
  }

  function Voted(p: Proposal, voter: string, choice: VoteType, power: nat): Proposal {
    var before := if voter in p.voters then Withdrawn(p, p.voters[voter], power) else p;
    Added(before, choice, power).(voters := p.voters[voter := choice])
  }

  function NewProposal(c: Contract, proposer: string, action: string, block: nat): Proposal {
    Proposal(proposer, action, Pending, 0, 0, 0, c.holders, block, c.config.votingPeriod, c.config.timelock,
             None, map[])
  }

  function Effect(c: Contract, op: Op): Contract
    requires Refusal(c, op).None?
  {
    match op
    case Create(proposer, action, block, _) =>
      c.(proposals := c.proposals[c.nextId := NewProposal(c, proposer, action, block)], nextId := c.nextId + 1)
    case Activate(id) => c.(proposals := c.proposals[id := c.proposals[id].(status := Active)])
    case Vote(id, voter, choice, power, _) =>
      c.(proposals := c.proposals[id := Voted(c.proposals[id], voter, choice, power)])
    case Finalize(id, _) =>
      var outcome := if HasPassed(c.proposals[id], c.config.quorum) then Succeeded else Failed;
      c.(proposals := c.proposals[id := c.proposals[id].(status := outcome)])
    case Execute(id, block) =>
      c.(proposals := c.proposals[id := c.proposals[id].(status := Executed, executedAt := Some(block))],
         executed := c.executed + 1)
    case Cancel(id, _) => c.(proposals := c.proposals[id := c.proposals[id].(status := Cancelled)])
    case UpdateConfig(_, config) => c.(config := config)
    case UpdateHolders(holders) => c.(holders := holders)
  }

  function Step(c: Contract, op: Op): Contract {
    if Refusal(c, op).None? then Effect(c, op) else c
  }

  /** The contract after the first `n` operations of a run. */
  function At(init: Contract, ops: seq<Op>, n: nat): Contract
    requires n <= |ops|
  {
    if n == 0 then init else Step(At(init, ops, n - 1), ops[n - 1])
  }

  // ---------------------------------------------------------------------------------------------
  // How a proposal comes to be executed

  ghost predicate IdsIssued(c: Contract) {
    forall id :: id in c.proposals ==> id < c.nextId
  }

  lemma {:induction false} IdsStayIssued(init: Contract, ops: seq<Op>, n: nat)
    requires n <= |ops| && IdsIssued(init)
    ensures IdsIssued(At(init, ops, n))
  {
    if n > 0 {
      IdsStayIssued(init, ops, n - 1);
    }
  }

  /** Everything about a proposal except its status and execution time. */
  ghost predicate SameBallot(a: Proposal, b: Proposal) {
    a == b.(status := a.status, executedAt := a.executedAt)
  }

  predicate Closed(p: Proposal) {
    p.status == Succeeded || p.status == Executed
  }

  /**
   * Reaching or keeping a closed status: either the proposal was closed already, with the same
   * ballot, or this very step finalized it on a majority and a quorum after the voting period.
   */
  lemma {:induction false} ClosedStep(c: Contract, op: Op, id: nat)
    requires IdsIssued(c) && id in Step(c, op).proposals && Closed(Step(c, op).proposals[id])
    ensures id in c.proposals && SameBallot(Step(c, op).proposals[id], c.proposals[id])
    ensures Closed(c.proposals[id]) || FinalizedBy(c, op, id)
  {
  }

  /** `op` closes the vote on `id` with a pass, in state `c`. */
  ghost predicate FinalizedBy(c: Contract, op: Op, id: nat) {
    && op.Finalize? && op.id == id && id in c.proposals && c.proposals[id].status == Active
    && op.block >= c.proposals[id].created + c.proposals[id].votingPeriod
    && HasPassed(c.proposals[id], c.config.quorum)
  }

  ghost predicate Unmoved(init: Contract, ops: seq<Op>, id: nat, f: nat, m: nat)
    requires f <= |ops| && m <= |ops|
  {
    var a, b := At(init, ops, f), At(init, ops, m);
    id in a.proposals && id in b.proposals && SameBallot(b.proposals[id], a.proposals[id])
  }

  /**
   * A proposal that has succeeded or been executed was active until one step of the run closed the
   * vote with a pass, and its tallies and voters have not changed at any point since.
   */
  lemma {:induction false} ClosedWasPassed(init: Contract, ops: seq<Op>, n: nat, id: nat) returns (f: nat)
    requires n <= |ops| && IdsIssued(init) && init.proposals == map[]
    requires id in At(init, ops, n).proposals && Closed(At(init, ops, n).proposals[id])
    ensures f < n && FinalizedBy(At(init, ops, f), ops[f], id)
    ensures forall m :: f <= m <= n ==> Unmoved(init, ops, id, f, m)
  {
    var c := At(init, ops, n - 1);
    IdsStayIssued(init, ops, n - 1);
    ClosedStep(c, ops[n - 1], id);
    if Closed(c.proposals[id]) {
      f := ClosedWasPassed(init, ops, n - 1, id);
      assert Unmoved(init, ops, id, f, n - 1);
    } else {
      f := n - 1;
    }
  }

  /** `op` executes `id` in state `c`, after the time lock. */
  ghost predicate ExecutedBy(c: Contract, op: Op, id: nat) {
    && op.Execute? && op.id == id && id in c.proposals && c.proposals[id].status == Succeeded
    && op.block >= c.proposals[id].created + c.proposals[id].votingPeriod + c.proposals[id].timelock
  }

  lemma {:induction false} ExecutedStep(c: Contract, op: Op, id: nat)
    requires IdsIssued(c) && id in Step(c, op).proposals && Step(c, op).proposals[id].status == Executed
    ensures id in c.proposals
    ensures c.proposals[id].status == Executed || ExecutedBy(c, op, id)
  {
  }

  /** An executed proposal was executed by one step, after the time lock, from the status Succeeded. */
  lemma {:induction false} ExecutedWasSucceeded(init: Contract, ops: seq<Op>, n: nat, id: nat) returns (e: nat)
    requires n <= |ops| && IdsIssued(init) && init.proposals == map[]
    requires id in At(init, ops, n).proposals && At(init, ops, n).proposals[id].status == Executed
    ensures e < n && ExecutedBy(At(init, ops, e), ops[e], id)
  {
    var c := At(init, ops, n - 1);
    IdsStayIssued(init, ops, n - 1);
    ExecutedStep(c, ops[n - 1], id);
    if c.proposals[id].status == Executed {
      e := ExecutedWasSucceeded(init, ops, n - 1, id);
    } else {
      e := n - 1;
    }
  }

  /** The whole story of an executed proposal: passed at step `f`, executed at a later step `e`. */
  lemma {:induction false} ExecutedProposalHistory(init: Contract, ops: seq<Op>, n: nat, id: nat)
    returns (f: nat, e: nat)
    requires n <= |ops| && IdsIssued(init) && init.proposals == map[]
    requires id in At(init, ops, n).proposals && At(init, ops, n).proposals[id].status == Executed
    ensures f < e < n && FinalizedBy(At(init, ops, f), ops[f], id) && ExecutedBy(At(init, ops, e), ops[e], id)
    ensures forall m :: f <= m <= n ==> Unmoved(init, ops, id, f, m)
  {
    e := ExecutedWasSucceeded(init, ops, n, id);
    f := ClosedWasPassed(init, ops, n, id);
    if f >= e {
      ClosedStays(init, ops, e, f, id);
    }
  }

  /** Once executed, or once closed and not cancelled, nothing reopens a proposal. */
  lemma {:induction false} ClosedStays(init: Contract, ops: seq<Op>, n: nat, m: nat, id: nat)
    requires n <= m <= |ops| && IdsIssued(init)
    requires id in At(init, ops, n).proposals
             && At(init, ops, n).proposals[id].status in {Succeeded, Executed, Cancelled}
    ensures id in At(init, ops, m).proposals
            && At(init, ops, m).proposals[id].status in {Succeeded, Executed, Cancelled}
  {
    if n < m {
      ClosedStays(init, ops, n, m - 1, id);
      IdsStayIssued(init, ops, m - 1);
      TerminalStep(At(init, ops, m - 1), ops[m - 1], id);
    }
  }

  lemma {:induction false} TerminalStep(c: Contract, op: Op, id: nat)
    requires IdsIssued(c) && id in c.proposals && c.proposals[id].status in {Succeeded, Executed, Cancelled}
    ensures id in Step(c, op).proposals && Step(c, op).proposals[id].status in {Succeeded, Executed, Cancelled}
    ensures c.proposals[id].status == Executed ==> Step(c, op).proposals[id] == c.proposals[id]
  {
  }

  /** Executed is terminal: the proposal never changes again. */
  lemma {:induction false} ExecutedIsFinal(init: Contract, ops: seq<Op>, n: nat, m: nat, id: nat)
    requires n <= m <= |ops| && IdsIssued(init)
    requires id in At(init, ops, n).proposals && At(init, ops, n).proposals[id].status == Executed
    ensures id in At(init, ops, m).proposals && At(init, ops, m).proposals[id] == At(init, ops, n).proposals[id]
  {
    if n < m {
      ExecutedIsFinal(init, ops, n, m - 1, id);
      IdsStayIssued(init, ops, m - 1);
      TerminalStep(At(init, ops, m - 1), ops[m - 1], id);
    }
  }

  // ---------------------------------------------------------------------------------------------
  // Tallies and recounts

  datatype Ballot = Ballot(choice: VoteType, power: nat)

  /** Every recorded voter with the power given to that voter. */
  ghost function Ballots(voters: map<string, VoteType>, powers: string -> nat): map<string, Ballot> {
    map v | v in voters :: Ballot(voters[v], powers(v))
  }

  function Share(choice: VoteType): Ballot -> nat {
    (b: Ballot) => if b.choice == choice then b.power else 0
  }

  ghost function Recount(p: Proposal, powers: string -> nat, choice: VoteType): nat {
    SumBy(Ballots(p.voters, powers), Share(choice))
  }

  function Tally(p: Proposal, choice: VoteType): nat {
    match choice
    case For => p.votesFor
    case Against => p.votesAgainst
    case Abstain => p.votesAbstain
  }

  ghost predicate Counted(p: Proposal, powers: string -> nat, choice: VoteType) {
    Tally(p, choice) == Recount(p, powers, choice)
  }

  /** What a vote does to a tally: it takes the power out of the earlier choice and adds it to the new. */
  lemma {:induction false} TallyAfter(p: Proposal, voter: string, choice: VoteType, power: nat, of: VoteType)
    ensures Tally(Voted(p, voter, choice, power), of)
            == (if voter in p.voters && p.voters[voter] == of then Less(Tally(p, of), power) else Tally(p, of))
               + (if choice == of then power else 0)
  {
  }

  function OldShare(p: Proposal, voter: string, power: nat, of: VoteType): nat {
    if voter in p.voters && p.voters[voter] == of then power else 0
  }

  /** What the recount does when one voter's choice, and perhaps power, changes. */
  lemma {:induction false} RecountAfter(
    p: Proposal, voter: string, choice: VoteType, powers: string -> nat, powers': string -> nat, of: VoteType)
    requires forall v :: v != voter ==> powers'(v) == powers(v)
    ensures Recount(Voted(p, voter, choice, powers'(voter)), powers', of) + OldShare(p, voter, powers(voter), of)
            == Recount(p, powers, of) + (if choice == of then powers'(voter) else 0)
    ensures OldShare(p, voter, powers(voter), of) <= Recount(p, powers, of)
  {
    var ballots := Ballots(p.voters, powers);
    var ballot := Ballot(choice, powers'(voter));
    assert Ballots(p.voters[voter := choice], powers') == ballots[voter := ballot];
    SumUpdate(ballots, Share(of), voter, ballot);
    if voter in p.voters {
      EntryBelowSum(ballots, Share(of), voter);
    }
  }

  /** One vote, with the power this voter always has, keeps every tally equal to its recount. */
  lemma {:induction false} VoteKeepsCount(p: Proposal, voter: string, choice: VoteType, powers: string -> nat,
                                          of: VoteType)
    requires Counted(p, powers, of)
    ensures Counted(Voted(p, voter, choice, powers(voter)), powers, of)
  {
    TallyAfter(p, voter, choice, powers(voter), of);
    RecountAfter(p, voter, choice, powers, powers, of);
  }

  /**
   * Without constant powers a repeated vote can leave a tally off. When a voter votes again with
   * another power, the tally of the earlier choice is right exactly when the powers agree after
   * all, or when it held nothing but this voter's share and the new power is larger.
   */
  lemma {:induction false} RevoteIsExact(
    p: Proposal, voter: string, choice: VoteType, powers: string -> nat, powers': string -> nat)
    requires voter in p.voters && Counted(p, powers, p.voters[voter])
    requires forall v :: v != voter ==> powers'(v) == powers(v)
    ensures var tally := Tally(p, p.voters[voter]);
            Counted(Voted(p, voter, choice, powers'(voter)), powers', p.voters[voter]) <==>
              || powers'(voter) == powers(voter)
              || (tally == powers(voter) && powers'(voter) > powers(voter))
  {
    TallyAfter(p, voter, choice, powers'(voter), p.voters[voter]);
    RecountAfter(p, voter, choice, powers, powers', p.voters[voter]);
  }

  type Powers = (nat, string) -> nat

  function PowersOf(powers: Powers, id: nat): string -> nat {
    (v: string) => powers(id, v)
  }

  ghost predicate AllCounted(c: Contract, powers: Powers) {
    forall id, t :: id in c.proposals ==> Counted(c.proposals[id], PowersOf(powers, id), t)
  }

  /** Every vote of the run is cast with the power fixed for that voter and proposal. */
  ghost predicate ConstantPowers(ops: seq<Op>, powers: Powers) {
    forall i :: 0 <= i < |ops| && ops[i].Vote? ==> ops[i].power == powers(ops[i].id, ops[i].voter)
  }

  lemma {:induction false} EmptyIsCounted(p: Proposal, powers: string -> nat, of: VoteType)
    requires p.voters == map[] && p.votesFor == p.votesAgainst == p.votesAbstain == 0
    ensures Counted(p, powers, of)
  {
    assert Ballots(p.voters, powers) == map[];
  }

  lemma {:induction false} StepKeepsCount(c: Contract, op: Op, powers: Powers, id: nat, of: VoteType)
    requires AllCounted(c, powers) && (op.Vote? ==> op.power == powers(op.id, op.voter))
    requires id in Step(c, op).proposals
    ensures Counted(Step(c, op).proposals[id], PowersOf(powers, id), of)
  {
    if Refusal(c, op).None? && op.Create? && id == c.nextId {
      EmptyIsCounted(Step(c, op).proposals[id], PowersOf(powers, id), of);
    } else {
      assert Counted(c.proposals[id], PowersOf(powers, id), of);
      if Refusal(c, op).None? && op.Vote? && op.id == id {
        VoteKeepsCount(c.proposals[id], op.voter, op.choice, PowersOf(powers, id), of);
      }
    }
  }

  /** With constant powers, every tally in every state of a run is a recount of the recorded votes. */
  lemma {:induction false} TalliesAreRecounts(init: Contract, ops: seq<Op>, n: nat, powers: Powers)
    requires n <= |ops| && init.proposals == map[] && ConstantPowers(ops, powers)
    ensures AllCounted(At(init, ops, n), powers)
  {
    if n > 0 {
      TalliesAreRecounts(init, ops, n - 1, powers);
      var c, c' := At(init, ops, n - 1), At(init, ops, n);
      forall id, t | id in c'.proposals ensures Counted(c'.proposals[id], PowersOf(powers, id), t) {
        StepKeepsCount(c, ops[n - 1], powers, id, t);
      }
    }
  }

  /** A voter who moves ten votes over with a power of four leaves six of them behind. */
  lemma {:induction false} RevoteDrifts(p: Proposal, voter: string)
    requires p.voters == map[] && p.votesFor == p.votesAgainst == 0
    ensures var q := Voted(Voted(p, voter, For, 10), voter, Against, 4);
            q.voters == map[voter := Against] && q.votesFor == 6 && q.votesAgainst == 4
  {
  }

  // ---------------------------------------------------------------------------------------------
  // The counter of executions

  function IsExecuted(): Proposal -> nat {
    (p: Proposal) => if p.status == Executed then 1 else 0
  }

  /** `executed_proposals` counts the executed proposals. */
  lemma {:induction false} ExecutedIsCounted(init: Contract, ops: seq<Op>, n: nat)
    requires n <= |ops| && IdsIssued(init) && init.proposals == map[] && init.executed == 0
    ensures At(init, ops, n).executed == SumBy(At(init, ops, n).proposals, IsExecuted())
  {
    if n > 0 {
      ExecutedIsCounted(init, ops, n - 1);
      IdsStayIssued(init, ops, n - 1);
      CountStep(At(init, ops, n - 1), ops[n - 1]);
    }
  }

  lemma {:induction false} CountStep(c: Contract, op: Op)
    requires IdsIssued(c) && c.executed == SumBy(c.proposals, IsExecuted())
    ensures Step(c, op).executed == SumBy(Step(c, op).proposals, IsExecuted())
  {
    if Refusal(c, op).None? {
      if op.Create? {
        SumUpdate<nat, Proposal>(c.proposals, IsExecuted(), c.nextId, NewProposal(c, op.proposer, op.action, op.block));
      } else if !op.UpdateConfig? && !op.UpdateHolders? {
        SumUpdate<nat, Proposal>(c.proposals, IsExecuted(), op.id, Step(c, op).proposals[op.id]);
      }
    }
  }

  // ---------------------------------------------------------------------------------------------
  // The contract object

  class GovernanceContract {
    const owner: string
    var config: Config
    var proposals: map<nat, Proposal>
    var nextId: nat
    var holders: nat
    var executed: nat

    ghost function View(): Contract
      reads this
    {
      Contract(owner, config, proposals, nextId, holders, executed)
    }

    constructor (owner: string, config: Config)
      ensures View() == New(owner, config)
    {
      this.owner, this.config := owner, config;
      proposals, nextId, holders, executed := map[], 1, 0, 0;
    }

    method CreateProposal(proposer: string, action: string, block: nat, balance: nat) returns (r: Result<nat, Error>)
      modifies this
      ensures var refusal := Refusal(old(View()), Create(proposer, action, block, balance));
              r == if refusal.Some? then Err(refusal.value) else Ok(old(nextId))
      ensures View() == Step(old(View()), Create(proposer, action, block, balance))
    {
      if balance < config.minBalance {
        return Err(LowBalance);
      }
      if proposer != owner && holders > 0 {
        var needed := holders * config.threshold / 100;
        if balance < needed {
          return Err(BelowThreshold);
        }
      }
      var id := nextId;
      var p := Proposal(proposer, action, Pending, 0, 0, 0, holders, block, config.votingPeriod, config.timelock,
                        None, map[]);
      proposals := proposals[id := p];
      nextId := nextId + 1;
      r := Ok(id);
    }

    method ActivateProposal(id: nat) returns (e: Option<Error>)
      modifies this
      ensures e == Refusal(old(View()), Activate(id)) && View() == Step(old(View()), Activate(id))
    {
      if id !in proposals {
        return Some(NotFound);
      }
      if proposals[id].status != Pending {
        return Some(NotPending);
      }
      proposals := proposals[id := proposals[id].(status := Active)];
      e := None;
    }

    method CastVote(id: nat, voter: string, choice: VoteType, power: nat, block: nat) returns (e: Option<Error>)
      modifies this
      ensures e == Refusal(old(View()), Vote(id, voter, choice, power, block))
      ensures View() == Step(old(View()), Vote(id, voter, choice, power, block))
    {
      if id !in proposals {
        return Some(NotFound);
      }
      var p := proposals[id];
      if !VotingActive(p, block) {
        return Some(VotingClosed);
      }
      if power == 0 {
        return Some(NoPower);
      }
      var voters := p.voters;
      if voter in voters {
        p := Withdrawn(p, voters[voter], power);
      }
      p := p.(voters := voters[voter := choice]);
      match choice {
        case For => p := p.(votesFor := p.votesFor + power);
        case Against => p := p.(votesAgainst := p.votesAgainst + power);
        case Abstain => p := p.(votesAbstain := p.votesAbstain + power);
      }
      proposals := proposals[id := p];
      e := None;
    }

    method FinalizeVoting(id: nat, block: nat) returns (e: Option<Error>)
      modifies this
      ensures e == Refusal(old(View()), Finalize(id, block)) && View() == Step(old(View()), Finalize(id, block))
    {
      if id !in proposals {
        return Some(NotFound);
      }
      var p := proposals[id];
      if p.status != Active {
        return Some(NotActive);
      }
      if block < p.created + p.votingPeriod {
        return Some(VotingOpen);
      }
      proposals := proposals[id := p.(status := if HasPassed(p, config.quorum) then Succeeded else Failed)];
      e := None;
    }

    method ExecuteProposal(id: nat, block: nat) returns (e: Option<Error>)
      modifies this
      ensures e == Refusal(old(View()), Execute(id, block)) && View() == Step(old(View()), Execute(id, block))
    {
      if id !in proposals {
        return Some(NotFound);
      }
      var p := proposals[id];
      if p.status == Executed {
        return Some(AlreadyExecuted);
      }
      if !CanExecute(p, block) {
        return Some(NotExecutable);
      }
      proposals := proposals[id := p.(status := Executed, executedAt := Some(block))];
      executed := executed + 1;
      e := None;
    }

    method CancelProposal(id: nat, caller: string) returns (e: Option<Error>)
      modifies this
      ensures e == Refusal(old(View()), Cancel(id, caller)) && View() == Step(old(View()), Cancel(id, caller))
    {
      if caller != owner {
        return Some(NotOwner);
      }
      if id !in proposals {
        return Some(NotFound);
      }
      if proposals[id].status == Executed {
        return Some(AlreadyExecuted);
      }
      proposals := proposals[id := proposals[id].(status := Cancelled)];
      e := None;
    }

    method SetConfig(caller: string, value: Config) returns (e: Option<Error>)
      modifies this
      ensures e == Refusal(old(View()), UpdateConfig(caller, value))
              && View() == Step(old(View()), UpdateConfig(caller, value))
    {
      if caller != owner {
        return Some(NotOwner);
      }
      if value.quorum > 100 {
        return Some(BadQuorum);
      }
      config := value;
      e := None;
    }
  }
}
