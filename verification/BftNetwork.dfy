/**
 * A network of nodes that each run a round manager (src/consensus/bft/round_manager.rs), with
 * faulty validators that may sign and send anything.
 *
 * Messages may be lost, repeated, delayed and reordered, and proposals may come from anyone and
 * differ from node to node. Two things are assumed: a signature of a correct validator verifies
 * only on what it signed, and a correct validator signs votes only for the block its own current
 * round holds, and never goes back to an earlier round. The safety promise of the
 * end-to-end tests (tests/bft_e2e.rs) is that no two correct nodes decide different blocks in one
 * round; `Agreement` proves it of every reachable state.
 */
module BftNetwork {
  import opened Wrappers
  import opened Words
  import opened BftQuorum
  import opened BftRound

  // ---------------------------------------------------------------------------------------------
  // Round manager

  datatype Manager = Manager(
    node: Id,
    validators: seq<Id>,
    currentRound: U64,
    current: Option<Round>,
    highestQc: Option<Certificate>)

  function NewManager(node: Id, validators: seq<Id>): Manager {
    Manager(node, validators, 0, None, None)
  }

  function LeaderFor(validators: seq<Id>, round: U64): Id {
    if validators == [] then "" else validators[round % |validators|]
  }

  function Members(validators: seq<Id>): set<Id> {
    set i | 0 <= i < |validators| :: validators[i]
  }

  function StartRound(m: Manager, round: U64): Manager {
    m.(currentRound := round, current := Some(NewRound(round, m.node, LeaderFor(m.validators, round))))
  }

  function ProcessEvent(m: Manager, verify: Verifier, e: RoundEvent, order: seq<Vote>): (Manager, RoundAction) {
    match m.current
    case None => (m, NoAction)
    case Some(r) =>
      var (r', action) := Process(r, Members(m.validators), verify, e, order);
      (m.(current := Some(r'), highestQc := if action.DecideBlock? then Some(action.commitQc) else m.highestQc),
       action)
  }

  lemma {:induction false} NextCongruent(q: nat, at: nat, i: nat, n: nat) returns (round: nat)
    requires at < n && i < n
    ensures n * q + at <= round < n * q + at + n && round % n == i
  {
    if i >= at {
      round := n * q + i;
      Remainder(q, i, n);
    } else {
      round := n * (q + 1) + i;
      Remainder(q + 1, i, n);
    }
  }

  /** Round-robin: in any n consecutive rounds every validator leads. */
  lemma {:induction false} EveryoneLeads(validators: seq<Id>, start: nat, id: Id) returns (round: nat)
    requires id in validators && start + |validators| <= U64_MAX
    ensures start <= round < start + |validators|
    ensures LeaderFor(validators, round) == id
  {
    var i :| 0 <= i < |validators| && validators[i] == id;
    round := NextCongruent(start / |validators|, start % |validators|, i, |validators|);
  }

  lemma {:induction false} Multiples(n: int, d: int)
    requires n >= 0
    ensures d >= 1 ==> n * d >= n
    ensures d <= -1 ==> n * d <= -n
  {
  }

  lemma {:induction false} Remainder(q: nat, i: nat, n: nat)
    requires i < n
    ensures (n * q + i) % n == i
  {
    var x := n * q + i;
    Multiples(n, x / n - q);
    assert n * (x / n - q) == n * (x / n) - n * q;
  }

  // ---------------------------------------------------------------------------------------------
  // The network

  /** A vote that a correct validator has signed. */
  datatype Signed = Signed(id: Id, phase: Phase, hash: Hash, round: U64)

  datatype Decision = Decision(id: Id, round: U64, hash: Hash)

  datatype Net = Net(managers: map<Id, Manager>, signed: set<Signed>, decisions: set<Decision>)

  /** What does not change: the validators, which of them are faulty, and signature verification. */
  datatype Setup = Setup(validators: seq<Id>, faulty: set<Id>, verify: Verifier)

  ghost predicate Correct(su: Setup, id: Id) {
    id in Members(su.validators) && id !in su.faulty
  }

  ghost predicate Init(su: Setup, n: Net) {
    && n.managers.Keys == Members(su.validators) - su.faulty
    && (forall id :: id in n.managers ==> n.managers[id] == NewManager(id, su.validators))
    && n.signed == {} && n.decisions == {}
  }

  datatype NetStep =
    | Start(id: Id, round: U64)
    | Sign(id: Id, phase: Phase)
    | Deliver(id: Id, event: RoundEvent, order: seq<Vote>)

  /** A correct validator's signature on this payload exists. */
  ghost predicate HasSigned(n: Net, id: Id, payload: seq<Byte>) {
    exists s :: s in n.signed && s.id == id && payload == SigningPayload(s.phase, s.hash, s.round)
  }

  ghost predicate Enabled(su: Setup, n: Net, step: NetStep) {
    && step.id in n.managers
    && var m := n.managers[step.id];
       match step
       case Start(_, round) => m.current.None? || round > m.currentRound
       case Sign(_, _) => m.current.Some? && m.current.value.hash.Some?
       case Deliver(_, event, order) =>
         && (m.current.Some? ==> OrderFor(m.current.value, Members(m.validators), su.verify, event, order))
         && (event.VoteEvent? && Correct(su, event.vote.voter)
             && su.verify(event.vote.voter, Payload(event.vote), event.vote.signature)
             ==> HasSigned(n, event.vote.voter, Payload(event.vote)))
  }

  ghost function Apply(su: Setup, n: Net, step: NetStep): Net
    requires Enabled(su, n, step)
  {
    var m := n.managers[step.id];
    match step
    case Start(id, round) => n.(managers := n.managers[id := StartRound(m, round)])
    case Sign(id, phase) =>
      n.(signed := n.signed + {Signed(id, phase, m.current.value.hash.value, m.currentRound)})
    case Deliver(id, event, order) =>
      var (m', a) := ProcessEvent(m, su.verify, event, order);
      n.(managers := n.managers[id := m'],
         decisions := n.decisions + if a.DecideBlock? then {Decision(id, a.round, a.hash)} else {})
  }

  ghost predicate Reachable(su: Setup, n: Net, steps: seq<NetStep>)
    decreases |steps|
  {
    if steps == [] then Init(su, n)
    else
      var last := steps[|steps| - 1];
      exists before :: Reachable(su, before, steps[..|steps| - 1]) && Enabled(su, before, last)
        && n == Apply(su, before, last)
  }

  // ---------------------------------------------------------------------------------------------
  // Invariant

  /** The votes of correct validators among `votes` were all signed by them. */
  ghost predicate Backed(su: Setup, n: Net, votes: map<Id, Vote>) {
    forall id :: id in votes && Correct(su, id) ==>
      Signed(id, votes[id].phase, votes[id].hash, votes[id].round) in n.signed
  }

  ghost predicate SlotBacked(su: Setup, n: Net, slot: Option<Collector>) {
    slot.Some? ==> Backed(su, n, slot.value.votes)
  }

  ghost predicate RoundBacked(su: Setup, n: Net, r: Round) {
    SlotBacked(su, n, r.prepare) && SlotBacked(su, n, r.precommit) && SlotBacked(su, n, r.commit)
  }

  ghost predicate ManagerInv(su: Setup, n: Net, id: Id)
    requires id in n.managers
  {
    var m := n.managers[id];
    && m.node == id && m.validators == su.validators
    && (m.current.Some? ==>
          var r := m.current.value;
          && r.round == m.currentRound
          && RoundInv(r, Members(su.validators), su.verify)
          && RoundBacked(su, n, r))
    && (m.highestQc.Some? ==> Decision(id, m.highestQc.value.round, m.highestQc.value.hash) in n.decisions)
  }

  /** A correct validator has signed nothing beyond its current round, and there only its own block. */
  ghost predicate SignedInv(n: Net, s: Signed) {
    && s.id in n.managers
    && var m := n.managers[s.id];
       && m.current.Some? && s.round <= m.currentRound
       && (s.round == m.currentRound ==> m.current.value.hash == Some(s.hash))
  }

  /** A quorum stands behind the decision, and its correct members signed a commit vote for it. */
  ghost predicate DecisionBacked(su: Setup, n: Net, d: Decision, q: set<Id>) {
    && IsQuorum(Members(su.validators), q)
    && forall id :: id in q && Correct(su, id) ==> Signed(id, Commit, d.hash, d.round) in n.signed
  }

  ghost predicate Inv(su: Setup, n: Net) {
    && n.managers.Keys == Members(su.validators) - su.faulty
    && (forall id :: id in n.managers ==> ManagerInv(su, n, id))
    && (forall s :: s in n.signed ==> SignedInv(n, s))
    && (forall s, t :: s in n.signed && t in n.signed && s.id == t.id && s.round == t.round ==> s.hash == t.hash)
    && (forall d :: d in n.decisions ==> exists q :: DecisionBacked(su, n, d, q))
  }

  lemma {:induction false} BackedGrows(su: Setup, n: Net, n': Net, slot: Option<Collector>)
    requires SlotBacked(su, n, slot) && n.signed <= n'.signed
    ensures SlotBacked(su, n', slot)
  {
  }

  /** A vote of a correct validator that verifies is one that it signed, field by field. */
  lemma {:induction false} VerifiedVoteWasSigned(su: Setup, n: Net, v: Vote)
    requires Correct(su, v.voter) && HasSigned(n, v.voter, Payload(v))
    ensures Signed(v.voter, v.phase, v.hash, v.round) in n.signed
  {
    var s :| s in n.signed && s.id == v.voter && Payload(v) == SigningPayload(s.phase, s.hash, s.round);
    PayloadInjective(v.phase, v.hash, v.round, s.phase, s.hash, s.round);
  }

  lemma {:induction false} OtherManagersKeep(su: Setup, n: Net, n': Net, id: Id)
    requires id in n.managers && ManagerInv(su, n, id)
    requires id in n'.managers && n'.managers[id] == n.managers[id]
    requires n.signed <= n'.signed && n.decisions <= n'.decisions
    ensures ManagerInv(su, n', id)
  {
    var m := n.managers[id];
    if m.current.Some? {
      BackedGrows(su, n, n', m.current.value.prepare);
      BackedGrows(su, n, n', m.current.value.precommit);
      BackedGrows(su, n, n', m.current.value.commit);
    }
  }

  lemma {:induction false} DecisionsStayBacked(su: Setup, n: Net, n': Net, d: Decision)
    requires n.signed <= n'.signed
    requires exists q :: DecisionBacked(su, n, d, q)
    ensures exists q :: DecisionBacked(su, n', d, q)
  {
    var q :| DecisionBacked(su, n, d, q);
    assert DecisionBacked(su, n', d, q);
  }

  lemma {:induction false} StartKeepsInv(su: Setup, n: Net, id: Id, round: U64)
    requires Inv(su, n) && Enabled(su, n, Start(id, round))
    ensures Inv(su, Apply(su, n, Start(id, round)))
  {
    var n' := Apply(su, n, Start(id, round));
    forall other | other in n'.managers ensures ManagerInv(su, n', other) {
      if other != id {
        OtherManagersKeep(su, n, n', other);
      } else {
        assert ManagerInv(su, n, id);
      }
    }
    forall s | s in n'.signed ensures SignedInv(n', s) {
      assert SignedInv(n, s);
    }
    forall d | d in n'.decisions ensures exists q :: DecisionBacked(su, n', d, q) {
      DecisionsStayBacked(su, n, n', d);
    }
  }

  /** A new vote is for the block of the current round, as all votes signed in that round are. */
  lemma {:induction false} SignKeepsSigned(su: Setup, n: Net, id: Id, phase: Phase)
    requires Inv(su, n) && Enabled(su, n, Sign(id, phase))
    ensures var n' := Apply(su, n, Sign(id, phase));
            && (forall s :: s in n'.signed ==> SignedInv(n', s))
            && forall s, t :: s in n'.signed && t in n'.signed && s.id == t.id && s.round == t.round ==>
                 s.hash == t.hash
  {
    assert forall s :: s in n.signed ==> SignedInv(n, s);
  }

  lemma {:induction false} SignKeepsInv(su: Setup, n: Net, id: Id, phase: Phase)
    requires Inv(su, n) && Enabled(su, n, Sign(id, phase))
    ensures Inv(su, Apply(su, n, Sign(id, phase)))
  {
    var n' := Apply(su, n, Sign(id, phase));
    SignKeepsSigned(su, n, id, phase);
    forall other | other in n'.managers ensures ManagerInv(su, n', other) {
      OtherManagersKeep(su, n, n', other);
    }
    forall d | d in n'.decisions ensures exists q :: DecisionBacked(su, n', d, q) {
      DecisionsStayBacked(su, n, n', d);
    }
  }

  lemma {:induction false} AddedVoteIsBacked(su: Setup, n: Net, c: Collector, v: Vote, order: seq<Vote>)
    requires Backed(su, n, c.votes)
    requires Correct(su, v.voter) && su.verify(v.voter, Payload(v), v.signature) ==> HasSigned(n, v.voter, Payload(v))
    ensures Backed(su, n, AddVote(c, Members(su.validators), su.verify, v, order).0.votes)
  {
    if Correct(su, v.voter) && su.verify(v.voter, Payload(v), v.signature) {
      VerifiedVoteWasSigned(su, n, v);
    }
  }

  lemma {:induction false} VoteKeepsBacked(su: Setup, n: Net, r: Round, v: Vote, order: seq<Vote>)
    requires RoundBacked(su, n, r)
    requires Correct(su, v.voter) && su.verify(v.voter, Payload(v), v.signature) ==> HasSigned(n, v.voter, Payload(v))
    ensures RoundBacked(su, n, OnVote(r, Members(su.validators), su.verify, v, order).0)
  {
    if ActiveCollector(r).Some? {
      var c := ActiveCollector(r).value;
      assert Backed(su, n, c.votes);
      AddedVoteIsBacked(su, n, c, v, order);
      match r.state
      case Preparing => assert OnVote(r, Members(su.validators), su.verify, v, order).0.commit == r.commit;
      case PreCommitting => assert OnVote(r, Members(su.validators), su.verify, v, order).0.prepare == r.prepare;
      case Committing => assert OnVote(r, Members(su.validators), su.verify, v, order).0.prepare == r.prepare;
    }
  }

  /** A delivered event leaves every collector with votes that correct validators signed. */
  lemma {:induction false} ProcessKeepsBacked(su: Setup, n: Net, r: Round, e: RoundEvent, order: seq<Vote>)
    requires RoundBacked(su, n, r)
    requires e.VoteEvent? && Correct(su, e.vote.voter) && su.verify(e.vote.voter, Payload(e.vote), e.vote.signature)
             ==> HasSigned(n, e.vote.voter, Payload(e.vote))
    ensures RoundBacked(su, n, Process(r, Members(su.validators), su.verify, e, order).0)
  {
    if e.VoteEvent? {
      VoteKeepsBacked(su, n, r, e.vote, order);
    }
  }

  lemma {:induction false} DeliveredManagerKeeps(su: Setup, n: Net, id: Id, e: RoundEvent, order: seq<Vote>)
    requires Inv(su, n) && Enabled(su, n, Deliver(id, e, order))
    ensures ManagerInv(su, Apply(su, n, Deliver(id, e, order)), id)
  {
    var n' := Apply(su, n, Deliver(id, e, order));
    var m := n.managers[id];
    assert ManagerInv(su, n, id);
    if m.current.Some? {
      var r := m.current.value;
      var (r', a) := Process(r, Members(su.validators), su.verify, e, order);
      ProcessKeepsInv(r, Members(su.validators), su.verify, e, order);
      BlockIsFixed(r, Members(su.validators), su.verify, e, order);
      ProcessKeepsBacked(su, n, r, e, order);
      if a.DecideBlock? {
        DecisionIsTheRounds(r, Members(su.validators), su.verify, e, order);
      }
    }
  }

  lemma {:induction false} DeliveredDecisionIsBacked(su: Setup, n: Net, id: Id, e: RoundEvent, order: seq<Vote>)
    requires Inv(su, n) && Enabled(su, n, Deliver(id, e, order))
    requires ProcessEvent(n.managers[id], su.verify, e, order).1.DecideBlock?
    ensures var a := ProcessEvent(n.managers[id], su.verify, e, order).1;
            exists q :: DecisionBacked(su, n, Decision(id, a.round, a.hash), q)
  {
    assert ManagerInv(su, n, id);
    var r := n.managers[id].current.value;
    var (r', a) := Process(r, Members(su.validators), su.verify, e, order);
    ProcessKeepsInv(r, Members(su.validators), su.verify, e, order);
    ProcessKeepsBacked(su, n, r, e, order);
    DecisionIsTheRounds(r, Members(su.validators), su.verify, e, order);
    DecisionHasQuorum(r, Members(su.validators), su.verify, e, order);
    assert DecisionBacked(su, n, Decision(id, a.round, a.hash), r'.commit.value.votes.Keys);
  }

  lemma {:induction false} DeliverKeepsSigned(su: Setup, n: Net, id: Id, e: RoundEvent, order: seq<Vote>, s: Signed)
    requires Inv(su, n) && Enabled(su, n, Deliver(id, e, order)) && s in n.signed
    ensures SignedInv(Apply(su, n, Deliver(id, e, order)), s)
  {
    assert SignedInv(n, s);
    if s.id == id {
      assert ManagerInv(su, n, id);
      BlockIsFixed(n.managers[id].current.value, Members(su.validators), su.verify, e, order);
    }
  }

  lemma {:induction false} DeliverKeepsInv(su: Setup, n: Net, id: Id, e: RoundEvent, order: seq<Vote>)
    requires Inv(su, n) && Enabled(su, n, Deliver(id, e, order))
    ensures Inv(su, Apply(su, n, Deliver(id, e, order)))
  {
    var n' := Apply(su, n, Deliver(id, e, order));
    forall other | other in n'.managers ensures ManagerInv(su, n', other) {
      if other == id {
        DeliveredManagerKeeps(su, n, id, e, order);
      } else {
        OtherManagersKeep(su, n, n', other);
      }
    }
    forall s | s in n'.signed ensures SignedInv(n', s) {
      DeliverKeepsSigned(su, n, id, e, order, s);
    }
    forall d | d in n'.decisions ensures exists q :: DecisionBacked(su, n', d, q) {
      if d !in n.decisions {
        DeliveredDecisionIsBacked(su, n, id, e, order);
      }
      DecisionsStayBacked(su, n, n', d);
    }
  }

  lemma {:induction false} ReachableInv(su: Setup, n: Net, steps: seq<NetStep>)
    requires Reachable(su, n, steps)
    ensures Inv(su, n)
    decreases |steps|
  {
    if steps != [] {
      var last := steps[|steps| - 1];
      var before :| Reachable(su, before, steps[..|steps| - 1]) && Enabled(su, before, last)
                    && n == Apply(su, before, last);
      ReachableInv(su, before, steps[..|steps| - 1]);
      match last
      case Start(id, round) => StartKeepsInv(su, before, id, round);
      case Sign(id, phase) => SignKeepsInv(su, before, id, phase);
      case Deliver(id, e, order) => DeliverKeepsInv(su, before, id, e, order);
    }
  }

  lemma {:induction false} BackedDecisionsAgree(su: Setup, n: Net, d: Decision, e: Decision)
    requires Inv(su, n)
    requires |Members(su.validators)| % 3 == 1 && IsFaultSet(Members(su.validators), su.faulty)
    requires d in n.decisions && e in n.decisions && d.round == e.round
    ensures d.hash == e.hash
  {
    var q :| DecisionBacked(su, n, d, q);
    var r :| DecisionBacked(su, n, e, r);
    CommonCorrect(Members(su.validators), su.faulty, q, r);
    var id :| id in q * r - su.faulty;
    assert Signed(id, Commit, d.hash, d.round) in n.signed;
    assert Signed(id, Commit, e.hash, e.round) in n.signed;
  }

  /**
   * Safety: with 3f + 1 validators and at most f of them faulty, in every reachable state all
   * decisions that correct nodes ever made in a round are for one block.
   */
  lemma {:induction false} Agreement(su: Setup, n: Net, steps: seq<NetStep>)
    requires |Members(su.validators)| % 3 == 1 && IsFaultSet(Members(su.validators), su.faulty)
    requires Reachable(su, n, steps)
    ensures forall d, e :: d in n.decisions && e in n.decisions && d.round == e.round ==> d.hash == e.hash
  {
    ReachableInv(su, n, steps);
    forall d, e | d in n.decisions && e in n.decisions && d.round == e.round ensures d.hash == e.hash {
      BackedDecisionsAgree(su, n, d, e);
    }
  }

  /** The same, as the tests check it: the highest commit certificates of two nodes do not conflict. */
  lemma {:induction false} HighestCertificatesAgree(su: Setup, n: Net, steps: seq<NetStep>, a: Id, b: Id)
    requires |Members(su.validators)| % 3 == 1 && IsFaultSet(Members(su.validators), su.faulty)
    requires Reachable(su, n, steps)
    requires a in n.managers && n.managers[a].highestQc.Some?
    requires b in n.managers && n.managers[b].highestQc.Some?
    requires n.managers[a].highestQc.value.round == n.managers[b].highestQc.value.round
    ensures n.managers[a].highestQc.value.hash == n.managers[b].highestQc.value.hash
  {
    ReachableInv(su, n, steps);
    assert ManagerInv(su, n, a) && ManagerInv(su, n, b);
    var (p, q) := (n.managers[a].highestQc.value, n.managers[b].highestQc.value);
    BackedDecisionsAgree(su, n, Decision(a, p.round, p.hash), Decision(b, q.round, q.hash));
  }
}
