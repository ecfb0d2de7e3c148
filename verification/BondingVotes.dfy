/**
 * What the ballots of `Bonding` do not keep out (`vote_on_challenge` in src/oracle_collateral.rs). The
 * weight of one vote is capped at ten so that nobody dominates, but nothing remembers who has voted,
 * and a vote carries no time. So while a challenge is open, whoever votes often enough decides it.
 */
module BondingVotes {
  import opened Wrappers
  import opened Bonding

  predicate Open(s: Registry, id: nat) {
    var i := IndexOf(s.challenges, id);
    i < |s.challenges| && s.challenges[i].status == Voting
  }

  function ChallengeOf(s: Registry, id: nat): Challenge
    requires Open(s, id)
  {
    s.challenges[IndexOf(s.challenges, id)]
  }

  /** A ballot with more votes on one side. */
  function Piled(c: Challenge, yes: bool, votes: nat): Challenge {
    if yes then c.(votesFor := c.votesFor + votes) else c.(votesAgainst := c.votesAgainst + votes)
  }

  function WithBallot(s: Registry, id: nat, c: Challenge): Registry
    requires Open(s, id)
  {
    s.(challenges := s.challenges[IndexOf(s.challenges, id) := c])
  }

  lemma {:induction false} BallotIsFound(s: Registry, id: nat, c: Challenge)
    requires Open(s, id) && c.id == id && c.status == Voting
    ensures Open(WithBallot(s, id, c), id) && ChallengeOf(WithBallot(s, id, c), id) == c
    ensures IndexOf(WithBallot(s, id, c).challenges, id) == IndexOf(s.challenges, id)
  {
    var i, cs := IndexOf(s.challenges, id), WithBallot(s, id, c).challenges;
    var j := IndexOf(cs, id);
    assert cs[i].id == id;
    assert j <= i;
  }

  /** The same operation `k` times. */
  function Times(s: Registry, op: Op, k: nat): Registry {
    if k == 0 then s else Next(Times(s, op, k - 1), op)
  }

  function Repeated(op: Op, k: nat): seq<Op> {
    if k == 0 then [] else Repeated(op, k - 1) + [op]
  }

  lemma {:induction false} LastStep(minCollateral: nat, ops: seq<Op>, longer: seq<Op>, op: Op)
    requires longer == ops + [op]
    ensures Run(minCollateral, longer).registry == Next(Run(minCollateral, ops).registry, op)
  {
    assert longer[..|longer| - 1] == ops;
  }

  lemma {:induction false} RepeatedExtends(ops: seq<Op>, op: Op, k: nat)
    requires k > 0
    ensures ops + Repeated(op, k) == ops + Repeated(op, k - 1) + [op]
  {
  }

  lemma {:induction false} RunRepeats(minCollateral: nat, ops: seq<Op>, longer: seq<Op>, op: Op, k: nat)
    requires longer == ops + Repeated(op, k)
    ensures Run(minCollateral, longer).registry == Times(Run(minCollateral, ops).registry, op, k)
    decreases k
  {
    if k == 0 {
      assert longer == ops;
    } else {
      var shorter := ops + Repeated(op, k - 1);
      RunRepeats(minCollateral, ops, shorter, op, k - 1);
      RepeatedExtends(ops, op, k);
      LastStep(minCollateral, shorter, longer, op);
    }
  }

  lemma {:induction false} OneMoreVote(s: Registry, id: nat, voter: string, yes: bool, votes: nat, w: nat)
    requires Open(s, id) && w == Weight(s.pools, voter)
    ensures var t := WithBallot(s, id, Piled(ChallengeOf(s, id), yes, votes));
            Next(t, Vote(id, voter, yes)) == WithBallot(s, id, Piled(ChallengeOf(s, id), yes, votes + w))
  {
    BallotIsFound(s, id, Piled(ChallengeOf(s, id), yes, votes));
  }

  lemma {:induction false} NoVotes(s: Registry, id: nat, yes: bool)
    requires Open(s, id)
    ensures WithBallot(s, id, Piled(ChallengeOf(s, id), yes, 0)) == s
  {
    var i := IndexOf(s.challenges, id);
    assert s.challenges[i := s.challenges[i]] == s.challenges;
  }

  lemma {:induction false} OneMore(k: nat, w: nat)
    requires k > 0
    ensures 0 <= (k - 1) * w == k * w - w && 0 * w == 0
  {
  }

  /** On any open challenge, `k` votes of one voter add `k` times its weight and change nothing else. */
  lemma {:induction false} VotesPileUp(s: Registry, id: nat, voter: string, yes: bool, w: nat, k: nat)
    requires Open(s, id) && w == Weight(s.pools, voter)
    ensures Times(s, Vote(id, voter, yes), k) == WithBallot(s, id, Piled(ChallengeOf(s, id), yes, k * w))
  {
    if k == 0 {
      NoVotes(s, id, yes);
    } else {
      VotesPileUp(s, id, voter, yes, w, k - 1);
      OneMore(k, w);
      OneMoreVote(s, id, voter, yes, (k - 1) * w, w);
    }
  }

  lemma {:induction false} AtLeast(k: nat, w: nat)
    requires w >= 1
    ensures k * w >= k
  {
  }

  /** How an open challenge stands after `k` votes of one voter. */
  lemma {:induction false} VotesDecideExactly(s: Registry, id: nat, voter: string, yes: bool, w: nat, k: nat)
    requires Open(s, id) && w == Weight(s.pools, voter)
    ensures var (t, c) := (Times(s, Vote(id, voter, yes), k), ChallengeOf(s, id));
            && Open(t, id)
            && (Accepted(ChallengeOf(t, id)) <==>
                  if yes then c.votesFor + k * w > c.votesAgainst else c.votesFor > c.votesAgainst + k * w)
  {
    VotesPileUp(s, id, voter, yes, w, k);
    BallotIsFound(s, id, Piled(ChallengeOf(s, id), yes, k * w));
  }

  lemma {:induction false} EnoughVotesDecide(s: Registry, id: nat, voter: string, yes: bool, k: nat)
    requires Open(s, id) && k > ChallengeOf(s, id).votesFor + ChallengeOf(s, id).votesAgainst
    ensures var t := Times(s, Vote(id, voter, yes), k); Open(t, id) && (Accepted(ChallengeOf(t, id)) <==> yes)
  {
    var w := Weight(s.pools, voter);
    AtLeast(k, w);
    VotesDecideExactly(s, id, voter, yes, w, k);
  }

  /** In any reachable state one voter, by voting on an open challenge often enough, decides it either way. */
  lemma {:induction false} OneVoterDecides(minCollateral: nat, ops: seq<Op>, id: nat, voter: string, yes: bool, k: nat)
    requires var s := Run(minCollateral, ops).registry;
             Open(s, id) && k > ChallengeOf(s, id).votesFor + ChallengeOf(s, id).votesAgainst
    ensures var s := Run(minCollateral, ops + Repeated(Vote(id, voter, yes), k)).registry;
            Open(s, id) && (Accepted(ChallengeOf(s, id)) <==> yes)
  {
    RunRepeats(minCollateral, ops, ops + Repeated(Vote(id, voter, yes), k), Vote(id, voter, yes), k);
    EnoughVotesDecide(Run(minCollateral, ops).registry, id, voter, yes, k);
  }

  // ---------------------------------------------------------------------------------------------
  // What a voter adds

  /** The weight that an accepted vote of `voter` on challenge `id` adds. */
  function Added(s: Registry, op: Op, id: nat, voter: string): nat {
    if op.Vote? && op.id == id && op.voter == voter && Refusal(s, op).None? then Weight(s.pools, voter) else 0
  }

  function Share(minCollateral: nat, ops: seq<Op>, id: nat, voter: string): nat {
    if ops == [] then 0
    else
      var front := ops[..|ops| - 1];
      Share(minCollateral, front, id, voter) + Added(Run(minCollateral, front).registry, ops[|ops| - 1], id, voter)
  }

  function Cast(minCollateral: nat, ops: seq<Op>, id: nat, voter: string): nat {
    if ops == [] then 0
    else
      var front := ops[..|ops| - 1];
      Cast(minCollateral, front, id, voter)
      + if Added(Run(minCollateral, front).registry, ops[|ops| - 1], id, voter) > 0 then 1 else 0
  }

  /** In every run a voter's share of a ballot is between one and ten for each of its votes. */
  lemma {:induction false} ShareIsBoundedByVotes(minCollateral: nat, ops: seq<Op>, id: nat, voter: string)
    ensures Cast(minCollateral, ops, id, voter) <= Share(minCollateral, ops, id, voter)
            <= 10 * Cast(minCollateral, ops, id, voter)
  {
    if ops != [] {
      ShareIsBoundedByVotes(minCollateral, ops[..|ops| - 1], id, voter);
    }
  }
}
