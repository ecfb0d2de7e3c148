/**
 * The mutable objects of one node: the round and the round manager
 * (src/consensus/bft/round.rs, round_manager.rs), with the loop of the vote collector they own
 * (src/consensus/bft/vote_collector.rs). Each method is proved to take the step that the functions
 * of `BftRound` and `BftNetwork` describe. A round owns its three collectors and a manager its
 * round, so these are fields that are read and written back, not shared objects.
 */
module BftNode {
  import opened Wrappers
  import opened Words
  import opened BftQuorum
  import opened BftRound
  import opened BftNetwork
  import opened BftTimeouts

  /** What starting a round tells the caller: its leader, and how long to wait for it. */
  datatype RoundStart = RoundStart(round: U64, leader: Id, timeoutMs: nat)

  /** The collected votes in some order: the iteration of a hash map. */
  method Values(votes: map<Id, Vote>) returns (order: seq<Vote>)
    requires forall id :: id in votes ==> votes[id].voter == id
    ensures Enumerates(order, votes)
  {
    order := [];
    var rest := votes.Keys;
    while rest != {}
      invariant rest <= votes.Keys
      invariant forall i :: 0 <= i < |order| ==>
                  order[i].voter in votes && order[i].voter !in rest && votes[order[i].voter] == order[i]
      invariant forall id :: id in votes && id !in rest ==> exists i :: 0 <= i < |order| && order[i].voter == id
      invariant DistinctVoters(order)
    {
      var id :| id in rest;
      ghost var before := order;
      order := order + [votes[id]];
      rest := rest - {id};
      forall x | x in votes && x !in rest ensures exists i :: 0 <= i < |order| && order[i].voter == x {
        if x == id {
          assert order[|before|].voter == x;
        } else {
          var i :| 0 <= i < |before| && before[i].voter == x;
          assert order[i].voter == x;
        }
      }
    }
  }

  /** `add_vote`; the certificate it may form is never refused by `QuorumCertificate::new`. */
  method Collect(c: Collector, validators: set<Id>, verify: Verifier, v: Vote)
    returns (c': Collector, result: VoteResult, ghost order: seq<Vote>)
    requires CollectorInv(c, validators, verify)
    ensures OrderOf(c, validators, verify, v, order)
    ensures (c', result) == AddVote(c, validators, verify, v, order)
  {
    c', order := c, [];
    var refusal := Refusal(c, validators, verify, v);
    if refusal.Some? {
      return c, Rejected(refusal.value), [];
    }
    c' := c'.(votes := c'.votes[v.voter := v]);
    var count := |c'.votes|;
    if count >= Threshold(|validators|) {
      c' := c'.(reached := true);
      var listed := Values(c'.votes);
      var qc := NewCertificate(c.phase, c.hash, c.round, listed);
      match qc {
        case Ok(certificate) => result, order := QuorumReached(certificate), listed;
        case Err(_) => assert false;
      }
    } else {
      result := Pending(count);
    }
  }

  class RoundMachine {
    const round: U64
    const node: Id
    const leader: Id
    const validators: set<Id>
    const verify: Verifier
    var state: RoundState
    var hash: Option<Hash>
    var prepareQc: Option<Certificate>
    var precommitQc: Option<Certificate>
    var commitQc: Option<Certificate>
    var prepare: Option<Collector>
    var precommit: Option<Collector>
    var commit: Option<Collector>

    ghost function View(): Round
      reads this
    {
      Round(round, node, leader, state, hash, prepareQc, precommitQc, commitQc, prepare, precommit, commit)
    }

    ghost predicate Valid()
      reads this
    {
      RoundInv(View(), validators, verify)
    }

    constructor (round: U64, node: Id, leader: Id, validators: set<Id>, verify: Verifier)
      ensures Valid() && View() == NewRound(round, node, leader)
      ensures this.validators == validators && this.verify == verify
    {
      this.round, this.node, this.leader := round, node, leader;
      this.validators, this.verify := validators, verify;
      state, hash := AwaitingProposal, None;
      prepareQc, precommitQc, commitQc := None, None, None;
      prepare, precommit, commit := None, None, None;
    }

    method OnVotePrepare(v: Vote, h: Hash) returns (action: RoundAction, ghost order: seq<Vote>)
      requires Valid() && hash == Some(h) && state == Preparing
      modifies this
      ensures OrderFor(old(View()), validators, verify, VoteEvent(v), order)
      ensures (View(), action) == OnPrepareVote(old(View()), validators, verify, v, h, order)
    {
      action := NoAction;
      prepare := Ensure(prepare, Prepare, round, h);
      var c, result;
      c, result, order := Collect(prepare.value, validators, verify, v);
      prepare := Some(c);
      if result.QuorumReached? {
        prepareQc, state := Some(result.qc), PreCommitting;
        precommit := Ensure(precommit, PreCommit, round, h);
        action := PhaseComplete(Prepare, result.qc);
      }
    }

    method OnVotePreCommit(v: Vote, h: Hash) returns (action: RoundAction, ghost order: seq<Vote>)
      requires Valid() && hash == Some(h) && state == PreCommitting
      modifies this
      ensures OrderFor(old(View()), validators, verify, VoteEvent(v), order)
      ensures (View(), action) == OnPreCommitVote(old(View()), validators, verify, v, h, order)
    {
      action := NoAction;
      precommit := Ensure(precommit, PreCommit, round, h);
      var c, result;
      c, result, order := Collect(precommit.value, validators, verify, v);
      precommit := Some(c);
      if result.QuorumReached? {
        precommitQc, state := Some(result.qc), Committing;
        commit := Ensure(commit, Commit, round, h);
        action := PhaseComplete(PreCommit, result.qc);
      }
    }

    method OnVoteCommit(v: Vote, h: Hash) returns (action: RoundAction, ghost order: seq<Vote>)
      requires Valid() && hash == Some(h) && state == Committing
      modifies this
      ensures OrderFor(old(View()), validators, verify, VoteEvent(v), order)
      ensures (View(), action) == OnCommitVote(old(View()), validators, verify, v, h, order)
    {
      action := NoAction;
      commit := Ensure(commit, Commit, round, h);
      var c, result;
      c, result, order := Collect(commit.value, validators, verify, v);
      commit := Some(c);
      if result.QuorumReached? {
        commitQc, state := Some(result.qc), Decided;
        action := DecideBlock(h, round, result.qc);
      }
    }

    method Accept(h: Hash)
      modifies this
      ensures View() == AcceptBlock(old(View()), h)
    {
      hash, state := Some(h), Preparing;
      prepare := Ensure(prepare, Prepare, round, h);
    }

    method HandleEvent(e: RoundEvent) returns (action: RoundAction, ghost order: seq<Vote>)
      requires Valid()
      modifies this
      ensures Valid() && OrderFor(old(View()), validators, verify, e, order)
      ensures (View(), action) == Process(old(View()), validators, verify, e, order)
    {
      ghost var before := View();
      action, order := NoAction, [];
      match e {
        case StartAsLeader(h) =>
          if state == AwaitingProposal && node == leader {
            Accept(h);
            action := BroadcastProposal(h);
          }
        case Proposal(h, from) =>
          if state == AwaitingProposal && from == leader {
            Accept(h);
            action := SendVote(Vote(h, round, Prepare, node, []));
          }
        case VoteEvent(v) =>
          if hash.Some? {
            match state
            case Preparing => action, order := OnVotePrepare(v, hash.value);
            case PreCommitting => action, order := OnVotePreCommit(v, hash.value);
            case Committing => action, order := OnVoteCommit(v, hash.value);
            case _ =>
          }
        case Timeout =>
          if state != Decided && state != Failed {
            state := Failed;
          }
      }
      ProcessKeepsInv(before, validators, verify, e, order);
    }
  }

  class RoundManager {
    const node: Id
    const validators: seq<Id>
    const verify: Verifier
    const baseTimeout: U64
    const maxTimeout: U64
    var currentRound: U64
    var timeouts: nat  // in a row, since the last decision
    var current: RoundMachine?
    var highestQc: Option<Certificate>

    ghost predicate Valid()
      reads this, current
    {
      current != null ==> current.Valid() && current.validators == Members(validators) && current.verify == verify
    }

    ghost function View(): Manager
      reads this, current
    {
      Manager(node, validators, currentRound, if current == null then None else Some(current.View()), highestQc)
    }

    constructor (node: Id, validators: seq<Id>, verify: Verifier, baseTimeout: U64, maxTimeout: U64)
      ensures Valid() && current == null && View() == NewManager(node, validators) && timeouts == 0
      ensures this.verify == verify && this.baseTimeout == baseTimeout && this.maxTimeout == maxTimeout
    {
      this.node, this.validators, this.verify := node, validators, verify;
      this.baseTimeout, this.maxTimeout := baseTimeout, maxTimeout;
      currentRound, current, highestQc, timeouts := 0, null, None, 0;
    }

    /** `start_round`; `start` is round 0. */
    method Begin(round: U64) returns (action: RoundStart)
      requires Valid()
      modifies this`currentRound, this`current
      ensures Valid() && fresh(current) && View() == StartRound(old(View()), round)
      ensures action == RoundStart(round, LeaderFor(validators, round), TimeoutMs(baseTimeout, maxTimeout, timeouts))
    {
      currentRound := round;
      var leader := LeaderFor(validators, round);
      current := new RoundMachine(round, node, leader, Members(validators), verify);
      action := RoundStart(round, leader, TimeoutMs(baseTimeout, maxTimeout, timeouts));
    }

    method HandleEvent(e: RoundEvent) returns (action: RoundAction, ghost order: seq<Vote>)
      requires Valid()
      modifies this`highestQc, this`timeouts, current
      ensures Valid()
      ensures current != null ==> OrderFor(old(current.View()), Members(validators), verify, e, order)
      ensures (View(), action) == ProcessEvent(old(View()), verify, e, order)
      ensures timeouts == if action.DecideBlock? then 0 else old(timeouts)
    {
      if current == null {
        return NoAction, [];
      }
      action, order := current.HandleEvent(e);
      if action.DecideBlock? {
        highestQc := Some(action.commitQc);
        timeouts := 0;
      }
    }

    /** `on_timeout`: fail the round and go on to the next one, with its own leader and a longer wait. */
    method OnTimeout() returns (action: RoundStart)
      requires Valid() && currentRound + 1 <= U64_MAX
      modifies this`currentRound, this`current, this`timeouts, current
      ensures Valid() && fresh(current) && timeouts == old(timeouts) + 1
      ensures View() == StartRound(ProcessEvent(old(View()), verify, Timeout, []).0, old(currentRound) + 1)
      ensures action == RoundStart(old(currentRound) + 1, LeaderFor(validators, old(currentRound) + 1),
                                   TimeoutMs(baseTimeout, maxTimeout, old(timeouts) + 1))
    {
      if current != null {
        ghost var order;
        var ignored;
        ignored, order := current.HandleEvent(Timeout);
      }
      timeouts := timeouts + 1;
      action := Begin(currentRound + 1);
    }

    /** `advance_after_decide`: the next round, with the back-off reset. */
    method AdvanceAfterDecide() returns (action: RoundStart)
      requires Valid() && currentRound + 1 <= U64_MAX
      modifies this`currentRound, this`current, this`timeouts
      ensures Valid() && fresh(current) && timeouts == 0
      ensures View() == StartRound(old(View()), old(currentRound) + 1)
      ensures action == RoundStart(old(currentRound) + 1, LeaderFor(validators, old(currentRound) + 1),
                                   TimeoutMs(baseTimeout, maxTimeout, 0))
    {
      timeouts := 0;
      action := Begin(currentRound + 1);
    }
  }
}
