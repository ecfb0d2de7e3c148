/**
 * What the network of `BftNetwork` can do when correct validators sign a vote of a phase only after
 * completing the phase before it: a quorum that works on one block can decide it. Done twice, for two
 * quorums without a correct validator in common, this leads to decisions for different blocks, so
 * that `AgreementExactly` says for which numbers of validators the protocol is safe.
 */
module BftProgress {
  import opened Wrappers
  import opened Words
  import opened BftQuorum
  import opened BftRound
  import opened BftNetwork

  type Signer = (Id, seq<Byte>) -> seq<Byte>

  /** Who votes for which block in which round, and how they sign. */
  datatype Motion = Motion(voters: seq<Id>, sign: Signer, hash: Hash, round: U64)

  function Ballot(m: Motion, phase: Phase, i: nat): Vote
    requires i < |m.voters|
  {
    Vote(m.hash, m.round, phase, m.voters[i], m.sign(m.voters[i], SigningPayload(phase, m.hash, m.round)))
  }

  ghost predicate Distinct(s: seq<Id>) {
    forall i, j :: 0 <= i < j < |s| ==> s[i] != s[j]
  }

  /** The voters are as many different validators as the threshold asks for, with valid signatures. */
  ghost predicate Carries(m: Motion, validators: set<Id>, verify: Verifier) {
    && Distinct(m.voters) && 0 < |m.voters| == Threshold(|validators|)
    && forall phase, i: nat :: i < |m.voters| ==> VoteIsValid(validators, verify, Ballot(m, phase, i))
  }

  // ---------------------------------------------------------------------------------------------
  // One round

  /** The first `k` votes of a phase, as a list and as a collector holds them. */
  function Listed(m: Motion, phase: Phase, k: nat): (s: seq<Vote>)
    requires k <= |m.voters|
    ensures |s| == k && forall i :: 0 <= i < k ==> s[i] == Ballot(m, phase, i)
  {
    if k == 0 then [] else Listed(m, phase, k - 1) + [Ballot(m, phase, k - 1)]
  }

  function Collected(m: Motion, phase: Phase, k: nat): map<Id, Vote>
    requires k <= |m.voters|
  {
    if k == 0 then map[] else Collected(m, phase, k - 1)[m.voters[k - 1] := Ballot(m, phase, k - 1)]
  }

  /** A voter's vote is among the first `k` exactly when its place is. */
  lemma {:induction false} CollectedAt(m: Motion, phase: Phase, k: nat, i: nat)
    requires k <= |m.voters| && i < |m.voters| && Distinct(m.voters)
    ensures m.voters[i] in Collected(m, phase, k) <==> i < k
    ensures i < k ==> Collected(m, phase, k)[m.voters[i]] == Ballot(m, phase, i)
  {
    if k > 0 {
      CollectedAt(m, phase, k - 1, i);
    }
  }

  lemma {:induction false} CollectedSize(m: Motion, phase: Phase, k: nat)
    requires k <= |m.voters| && Distinct(m.voters)
    ensures |Collected(m, phase, k)| == k
  {
    if k > 0 {
      CollectedSize(m, phase, k - 1);
      CollectedAt(m, phase, k - 1, k - 1);
    }
  }

  lemma {:induction false} PlaceOf(m: Motion, phase: Phase, k: nat, id: Id) returns (i: nat)
    requires k <= |m.voters| && id in Collected(m, phase, k)
    ensures i < k && m.voters[i] == id
  {
    if id == m.voters[k - 1] {
      i := k - 1;
    } else {
      i := PlaceOf(m, phase, k - 1, id);
    }
  }

  lemma {:induction false} ListedEnumerates(m: Motion, phase: Phase, k: nat)
    requires k <= |m.voters| && Distinct(m.voters)
    ensures Enumerates(Listed(m, phase, k), Collected(m, phase, k))
  {
    var list, votes := Listed(m, phase, k), Collected(m, phase, k);
    forall i | 0 <= i < |list| ensures list[i].voter in votes && votes[list[i].voter] == list[i] {
      CollectedAt(m, phase, k, i);
    }
    forall id | id in votes ensures exists i :: 0 <= i < |list| && list[i].voter == id {
      var i := PlaceOf(m, phase, k, id);
      assert list[i].voter == id;
    }
  }

  function Holding(m: Motion, phase: Phase, k: nat): Collector
    requires k <= |m.voters|
  {
    Collector(phase, m.round, m.hash, Collected(m, phase, k), false)
  }

  /** The round works on the motion's block and has taken `k` votes of this phase. */
  predicate InPhase(r: Round, m: Motion, phase: Phase, k: nat) {
    && r.hash == Some(m.hash) && r.round == m.round && k <= |m.voters|
    && match phase
       case Prepare =>
         r.state == Preparing && r.prepare == Some(Holding(m, phase, k)) && r.precommit.None? && r.commit.None?
       case PreCommit =>
         r.state == PreCommitting && r.precommit == Some(Holding(m, phase, k)) && r.prepareQc.Some? && r.commit.None?
       case Commit =>
         r.state == Committing && r.commit == Some(Holding(m, phase, k)) && r.precommitQc.Some?
       case Decide => false
  }

  lemma {:induction false} CollectorTakesBallot(m: Motion, validators: set<Id>, verify: Verifier, phase: Phase, k: nat)
    requires Carries(m, validators, verify) && k < |m.voters|
    ensures var (c, v, order) := (Holding(m, phase, k), Ballot(m, phase, k), Listed(m, phase, k + 1));
            && OrderOf(c, validators, verify, v, order)
            && AddVote(c, validators, verify, v, order) ==
               if k + 1 < |m.voters| then (Holding(m, phase, k + 1), Pending(k + 1))
               else (Holding(m, phase, k + 1).(reached := true),
                     QuorumReached(Certificate(m.hash, m.round, phase, order)))
  {
    var c, v := Holding(m, phase, k), Ballot(m, phase, k);
    CollectedAt(m, phase, k, k);
    CollectedSize(m, phase, k + 1);
    ListedEnumerates(m, phase, k + 1);
    assert Refusal(c, validators, verify, v).None? by {
      assert VoteIsValid(validators, verify, v);
    }
    assert c.votes[v.voter := v] == Collected(m, phase, k + 1);
  }

  /** The next vote is counted; the last one of a phase opens the next phase, or decides. */
  lemma {:induction false} RoundTakesBallot(r: Round, m: Motion, validators: set<Id>, verify: Verifier,
                                            phase: Phase, k: nat)
    requires Carries(m, validators, verify) && InPhase(r, m, phase, k) && k < |m.voters|
    ensures var (e, order) := (VoteEvent(Ballot(m, phase, k)), Listed(m, phase, k + 1));
            && OrderFor(r, validators, verify, e, order)
            && var (r', a) := Process(r, validators, verify, e, order);
               if k + 1 < |m.voters| then InPhase(r', m, phase, k + 1) && a.NoAction?
               else if phase == Prepare then InPhase(r', m, PreCommit, 0) && a.PhaseComplete?
               else if phase == PreCommit then InPhase(r', m, Commit, 0) && a.PhaseComplete?
               else a.DecideBlock? && a.hash == m.hash && a.round == m.round
  {
    CollectorTakesBallot(m, validators, verify, phase, k);
    assert ActiveCollector(r) == Some(Holding(m, phase, k));
  }

  // ---------------------------------------------------------------------------------------------
  // The network

  /** A correct validator signs a vote of a phase only with the certificate of the phase before. */
  ghost predicate Orderly(n: Net, step: NetStep) {
    step.Sign? && step.id in n.managers && n.managers[step.id].current.Some? ==>
      match step.phase
      case Prepare => true
      case PreCommit => n.managers[step.id].current.value.prepareQc.Some?
      case Commit => n.managers[step.id].current.value.precommitQc.Some?
      case Decide => false
  }

  ghost predicate OrderlyRun(su: Setup, n: Net, steps: seq<NetStep>)
    decreases |steps|
  {
    if steps == [] then Init(su, n)
    else
      var front, last := steps[..|steps| - 1], steps[|steps| - 1];
      exists before :: OrderlyNext(su, before, n, last) && OrderlyRun(su, before, front)
  }

  ghost predicate OrderlyNext(su: Setup, before: Net, n: Net, step: NetStep) {
    Enabled(su, before, step) && Orderly(before, step) && n == Apply(su, before, step)
  }

  lemma {:induction false} OrderlyIsReachable(su: Setup, n: Net, steps: seq<NetStep>)
    requires OrderlyRun(su, n, steps)
    ensures Reachable(su, n, steps)
    decreases |steps|
  {
    if steps != [] {
      var front, last := steps[..|steps| - 1], steps[|steps| - 1];
      var before :| OrderlyNext(su, before, n, last) && OrderlyRun(su, before, front);
      OrderlyIsReachable(su, before, front);
    }
  }

  ghost predicate CanReach(su: Setup, n: Net) {
    exists steps :: OrderlyRun(su, n, steps)
  }

  lemma {:induction false} CanStep(su: Setup, n: Net, step: NetStep)
    requires CanReach(su, n) && Enabled(su, n, step) && Orderly(n, step)
    ensures CanReach(su, Apply(su, n, step))
  {
    var steps :| OrderlyRun(su, n, steps);
    var longer := steps + [step];
    assert longer[..|longer| - 1] == steps && longer[|longer| - 1] == step;
    assert OrderlyNext(su, n, Apply(su, n, step), step);
    assert OrderlyRun(su, Apply(su, n, step), longer);
  }

  /** Only these nodes have moved, no signature is lost, and `made` are the decisions added. */
  ghost predicate Moved(n: Net, n': Net, ids: set<Id>, made: set<Decision>) {
    && n'.managers.Keys == n.managers.Keys && n.signed <= n'.signed && n'.decisions == n.decisions + made
    && forall id :: id in n.managers && id !in ids ==> n'.managers[id] == n.managers[id]
  }

  ghost predicate Works(su: Setup, n: Net, id: Id, m: Motion, phase: Phase, k: nat) {
    && id in n.managers && n.managers[id].validators == su.validators && n.managers[id].currentRound == m.round
    && n.managers[id].current.Some? && InPhase(n.managers[id].current.value, m, phase, k)
  }

  /** Every correct voter has signed its vote of this phase. */
  ghost predicate PhaseSigned(su: Setup, n: Net, m: Motion, phase: Phase) {
    forall i :: 0 <= i < |m.voters| && Correct(su, m.voters[i]) ==>
      Signed(m.voters[i], phase, m.hash, m.round) in n.signed
  }

  lemma {:induction false} BallotIsEnabled(su: Setup, n: Net, id: Id, m: Motion, phase: Phase, k: nat)
    requires Carries(m, Members(su.validators), su.verify) && PhaseSigned(su, n, m, phase)
    requires Works(su, n, id, m, phase, k) && k < |m.voters|
    ensures Enabled(su, n, Deliver(id, VoteEvent(Ballot(m, phase, k)), Listed(m, phase, k + 1)))
  {
    var v := Ballot(m, phase, k);
    RoundTakesBallot(n.managers[id].current.value, m, Members(su.validators), su.verify, phase, k);
    if Correct(su, v.voter) {
      var s := Signed(m.voters[k], phase, m.hash, m.round);
      assert s in n.signed && s.id == v.voter && Payload(v) == SigningPayload(s.phase, s.hash, s.round);
    }
  }

  function Following(phase: Phase): Phase {
    match phase
    case Prepare => PreCommit
    case PreCommit => Commit
    case _ => Decide
  }

  /** What the last vote of a phase brings. */
  ghost predicate Passed(su: Setup, n: Net, id: Id, m: Motion, phase: Phase) {
    if phase == Commit then id in n.managers && n.managers[id].currentRound == m.round
    else Works(su, n, id, m, Following(phase), 0)
  }

  /** The decision that the last vote of the last phase brings. */
  ghost function Outcome(id: Id, m: Motion, phase: Phase): set<Decision> {
    if phase == Commit then {Decision(id, m.round, m.hash)} else {}
  }

  lemma {:induction false} TakeBallot(su: Setup, n: Net, id: Id, m: Motion, phase: Phase, k: nat) returns (n': Net)
    requires CanReach(su, n) && Carries(m, Members(su.validators), su.verify) && PhaseSigned(su, n, m, phase)
    requires Works(su, n, id, m, phase, k) && k < |m.voters|
    ensures CanReach(su, n') && Moved(n, n', {id}, if k + 1 < |m.voters| then {} else Outcome(id, m, phase))
    ensures if k + 1 < |m.voters| then Works(su, n', id, m, phase, k + 1) else Passed(su, n', id, m, phase)
  {
    var step := Deliver(id, VoteEvent(Ballot(m, phase, k)), Listed(m, phase, k + 1));
    RoundTakesBallot(n.managers[id].current.value, m, Members(su.validators), su.verify, phase, k);
    BallotIsEnabled(su, n, id, m, phase, k);
    CanStep(su, n, step);
    n' := Apply(su, n, step);
  }

  /** One node receives the remaining votes of a phase. */
  lemma {:induction false} PassPhase(su: Setup, n: Net, id: Id, m: Motion, phase: Phase, k: nat) returns (n': Net)
    requires CanReach(su, n) && Carries(m, Members(su.validators), su.verify) && PhaseSigned(su, n, m, phase)
    requires Works(su, n, id, m, phase, k) && k < |m.voters|
    ensures CanReach(su, n') && Moved(n, n', {id}, Outcome(id, m, phase)) && Passed(su, n', id, m, phase)
    decreases |m.voters| - k
  {
    n' := TakeBallot(su, n, id, m, phase, k);
    if k + 1 < |m.voters| {
      n' := PassPhase(su, n', id, m, phase, k + 1);
    }
  }

  ghost predicate AllWork(su: Setup, n: Net, ids: set<Id>, m: Motion, phase: Phase) {
    forall id :: id in ids ==> Works(su, n, id, m, phase, 0)
  }

  lemma {:induction false} OthersStillWork(su: Setup, n: Net, n': Net, moved: set<Id>, ids: set<Id>, m: Motion,
                                           phase: Phase)
    requires AllWork(su, n, ids, m, phase) && Moved(n, n', moved, {}) && ids !! moved
    ensures AllWork(su, n', ids, m, phase)
  {
    forall id | id in ids ensures Works(su, n', id, m, phase, 0) {
      assert Works(su, n, id, m, phase, 0);
    }
  }

  /** Each of these nodes receives the votes of a phase. */
  lemma {:induction false} PassAll(su: Setup, n: Net, ids: set<Id>, m: Motion, phase: Phase) returns (n': Net)
    requires CanReach(su, n) && Carries(m, Members(su.validators), su.verify) && PhaseSigned(su, n, m, phase)
    requires AllWork(su, n, ids, m, phase) && phase in {Prepare, PreCommit}
    ensures CanReach(su, n') && Moved(n, n', ids, {}) && AllWork(su, n', ids, m, Following(phase))
    decreases ids
  {
    if ids == {} {
      n' := n;
    } else {
      var id :| id in ids;
      var mid := PassPhase(su, n, id, m, phase, 0);
      OthersStillWork(su, n, mid, {id}, ids - {id}, m, phase);
      n' := PassAll(su, mid, ids - {id}, m, phase);
      assert n'.managers[id] == mid.managers[id];
    }
  }

  /** The correct voters of the motion are among these nodes. */
  ghost predicate Covers(su: Setup, ids: set<Id>, m: Motion) {
    forall i :: 0 <= i < |m.voters| && Correct(su, m.voters[i]) ==> m.voters[i] in ids
  }

  ghost predicate HaveSigned(n: Net, ids: set<Id>, m: Motion, phase: Phase) {
    forall id :: id in ids ==> Signed(id, phase, m.hash, m.round) in n.signed
  }

  lemma {:induction false} SignEach(su: Setup, n: Net, ids: set<Id>, m: Motion, phase: Phase) returns (n': Net)
    requires CanReach(su, n) && AllWork(su, n, ids, m, phase)
    ensures CanReach(su, n') && Moved(n, n', {}, {}) && HaveSigned(n', ids, m, phase)
    decreases ids
  {
    if ids == {} {
      n' := n;
    } else {
      var id :| id in ids;
      assert Works(su, n, id, m, phase, 0);
      CanStep(su, n, Sign(id, phase));
      var mid := Apply(su, n, Sign(id, phase));
      OthersStillWork(su, n, mid, {}, ids - {id}, m, phase);
      n' := SignEach(su, mid, ids - {id}, m, phase);
    }
  }

  /** Each of these nodes signs its vote of the phase it has come to. */
  lemma {:induction false} SignAll(su: Setup, n: Net, ids: set<Id>, m: Motion, phase: Phase) returns (n': Net)
    requires CanReach(su, n) && AllWork(su, n, ids, m, phase) && Covers(su, ids, m)
    ensures CanReach(su, n') && Moved(n, n', {}, {}) && AllWork(su, n', ids, m, phase) && PhaseSigned(su, n', m, phase)
  {
    n' := SignEach(su, n, ids, m, phase);
    OthersStillWork(su, n, n', {}, ids, m, phase);
  }

  lemma {:induction false} SignAndPass(su: Setup, n: Net, ids: set<Id>, m: Motion, phase: Phase) returns (n': Net)
    requires CanReach(su, n) && Carries(m, Members(su.validators), su.verify) && Covers(su, ids, m)
    requires AllWork(su, n, ids, m, phase) && phase in {Prepare, PreCommit}
    ensures CanReach(su, n') && Moved(n, n', ids, {}) && AllWork(su, n', ids, m, Following(phase))
  {
    var mid := SignAll(su, n, ids, m, phase);
    n' := PassAll(su, mid, ids, m, phase);
  }

  lemma {:induction false} MovedTwice(n: Net, mid: Net, n': Net, ids: set<Id>, more: set<Id>,
                                      made: set<Decision>)
    requires Moved(n, mid, ids, {}) && Moved(mid, n', more, made) && more <= ids
    ensures Moved(n, n', ids, made)
  {
  }

  /** Nodes that are given a block go through the first two phases together and sign commit votes. */
  lemma {:induction false} Campaign(su: Setup, n: Net, ids: set<Id>, m: Motion) returns (n': Net)
    requires CanReach(su, n) && Carries(m, Members(su.validators), su.verify) && Covers(su, ids, m)
    requires AllWork(su, n, ids, m, Prepare)
    ensures CanReach(su, n') && Moved(n, n', ids, {})
    ensures AllWork(su, n', ids, m, Commit) && PhaseSigned(su, n', m, Commit)
  {
    var prepared := SignAndPass(su, n, ids, m, Prepare);
    var committing := SignAndPass(su, prepared, ids, m, PreCommit);
    n' := SignAll(su, committing, ids, m, Commit);
    MovedTwice(n, prepared, committing, ids, ids, {});
    MovedTwice(n, committing, n', ids, {}, {});
  }

  // ---------------------------------------------------------------------------------------------
  // Progress

  lemma {:induction false} SetToSeq(s: set<Id>) returns (ids: seq<Id>)
    ensures Distinct(ids) && |ids| == |s| && forall id :: id in ids <==> id in s
    decreases s
  {
    if s == {} {
      ids := [];
    } else {
      var id :| id in s;
      var rest := SetToSeq(s - {id});
      ids := rest + [id];
    }
  }

  /** Signing works: what a validator signs verifies. */
  ghost predicate Signable(verify: Verifier, sign: Signer) {
    forall id, payload :: verify(id, payload, sign(id, payload))
  }

  /** The part of a quorum that just meets the threshold, as the voters of a motion. */
  lemma {:induction false} MotionOf(validators: set<Id>, verify: Verifier, sign: Signer, q: set<Id>, hash: Hash,
                                    round: U64)
    returns (m: Motion)
    requires Signable(verify, sign) && IsQuorum(validators, q) && validators != {}
    ensures Carries(m, validators, verify) && m.hash == hash && m.round == round
    ensures forall i :: 0 <= i < |m.voters| ==> m.voters[i] in q
  {
    var part := TakeSome(q, Threshold(|validators|));
    var voters := SetToSeq(part);
    m := Motion(voters, sign, hash, round);
    forall phase, i: nat | i < |m.voters| ensures VoteIsValid(validators, verify, Ballot(m, phase, i)) {
      assert m.voters[i] in part;
    }
  }

  /** The node has been given this block in this round and has no vote yet. */
  ghost predicate Given(su: Setup, n: Net, id: Id, hash: Hash, round: U64) {
    && id in n.managers
    && n.managers[id] == n.managers[id].(
         validators := su.validators, currentRound := round,
         current := Some(AcceptBlock(NewRound(round, id, LeaderFor(su.validators, round)), hash)))
  }

  lemma {:induction false} GivenWorks(su: Setup, n: Net, id: Id, m: Motion)
    requires Given(su, n, id, m.hash, m.round)
    ensures Works(su, n, id, m, Prepare, 0)
  {
  }

  /**
   * Progress: whatever the faulty validators do, once every correct validator has been given the same
   * block in a round, the correct ones alone can lead any of them to decide it.
   */
  lemma {:induction false} CorrectValidatorsDecide(su: Setup, sign: Signer, n: Net, hash: Hash, round: U64, id: Id)
    returns (n': Net)
    requires Signable(su.verify, sign) && IsFaultSet(Members(su.validators), su.faulty) && CanReach(su, n)
    requires Correct(su, id) && forall other :: Correct(su, other) ==> Given(su, n, other, hash, round)
    ensures CanReach(su, n') && Decision(id, round, hash) in n'.decisions
  {
    var correct := Members(su.validators) - su.faulty;
    CorrectValidatorsSuffice(Members(su.validators), su.faulty);
    var m := MotionOf(Members(su.validators), su.verify, sign, correct, hash, round);
    forall other | other in correct ensures Works(su, n, other, m, Prepare, 0) {
      GivenWorks(su, n, other, m);
    }
    n' := Campaign(su, n, correct, m);
    n' := PassPhase(su, n', id, m, Commit, 0);
  }

  // ---------------------------------------------------------------------------------------------
  // Two decisions

  /** The node may start this round. */
  ghost predicate MayStart(su: Setup, n: Net, id: Id, round: U64) {
    && id in n.managers && n.managers[id].node == id && n.managers[id].validators == su.validators
    && (n.managers[id].current.None? || round > n.managers[id].currentRound)
  }

  /** A node starts a round and is given a block by its leader, or by someone in its name. */
  lemma {:induction false} Give(su: Setup, n: Net, id: Id, hash: Hash, round: U64) returns (n': Net)
    requires CanReach(su, n) && MayStart(su, n, id, round)
    ensures CanReach(su, n') && Moved(n, n', {id}, {}) && Given(su, n', id, hash, round)
  {
    CanStep(su, n, Start(id, round));
    n' := Apply(su, n, Start(id, round));
    var offer := Deliver(id, Proposal(hash, LeaderFor(su.validators, round)), []);
    CanStep(su, n', offer);
    n' := Apply(su, n', offer);
  }

  lemma {:induction false} GiveAll(su: Setup, n: Net, ids: set<Id>, m: Motion) returns (n': Net)
    requires CanReach(su, n) && forall id :: id in ids ==> MayStart(su, n, id, m.round)
    ensures CanReach(su, n') && Moved(n, n', ids, {}) && AllWork(su, n', ids, m, Prepare)
    decreases ids
  {
    if ids == {} {
      n' := n;
    } else {
      var id :| id in ids;
      var mid := Give(su, n, id, m.hash, m.round);
      GivenWorks(su, mid, id, m);
      forall other | other in ids - {id} ensures MayStart(su, mid, other, m.round) {
        assert MayStart(su, n, other, m.round);
      }
      n' := GiveAll(su, mid, ids - {id}, m);
      assert n'.managers[id] == mid.managers[id];
    }
  }

  lemma {:induction false} InitialNet(su: Setup) returns (n: Net)
    ensures CanReach(su, n) && n.managers.Keys == Members(su.validators) - su.faulty && n.decisions == {}
    ensures forall id :: id in n.managers ==> MayStart(su, n, id, 0)
  {
    var nodes := Members(su.validators) - su.faulty;
    n := Net(map id | id in nodes :: NewManager(id, su.validators), {}, {});
    assert OrderlyRun(su, n, []);
  }

  lemma {:induction false} CorrectMember(validators: set<Id>, faulty: set<Id>, q: set<Id>) returns (id: Id)
    requires validators != {} && IsFaultSet(validators, faulty) && IsQuorum(validators, q)
    ensures id in q && id !in faulty
  {
    if q <= faulty {
      Subset(q, faulty);
    }
    id :| id in q && id !in faulty;
  }

  ghost predicate Agrees(n: Net) {
    forall d, e :: d in n.decisions && e in n.decisions && d.round == e.round ==> d.hash == e.hash
  }

  ghost predicate InRound(n: Net, ids: set<Id>, round: U64) {
    forall id :: id in ids ==> id in n.managers && n.managers[id].currentRound == round
  }

  /** A group of nodes with the correct voters for a block decides it on its own. */
  lemma {:induction false} GroupDecides(su: Setup, n: Net, ids: set<Id>, m: Motion, id: Id) returns (n': Net)
    requires CanReach(su, n) && Carries(m, Members(su.validators), su.verify) && Covers(su, ids, m)
    requires id in ids && forall other :: other in ids ==> MayStart(su, n, other, m.round)
    ensures CanReach(su, n') && Moved(n, n', ids, {Decision(id, m.round, m.hash)}) && InRound(n', ids, m.round)
  {
    var given := GiveAll(su, n, ids, m);
    var ready := Campaign(su, given, ids, m);
    assert Works(su, ready, id, m, Commit, 0);
    n' := PassPhase(su, ready, id, m, Commit, 0);
    MovedTwice(n, given, ready, ids, ids, {});
    MovedTwice(n, ready, n', ids, {id}, {Decision(id, m.round, m.hash)});
    StayInRound(su, ready, n', ids, m, id);
  }

  lemma {:induction false} StayInRound(su: Setup, n: Net, n': Net, ids: set<Id>, m: Motion, id: Id)
    requires AllWork(su, n, ids, m, Commit) && Passed(su, n', id, m, Commit)
    requires Moved(n, n', {id}, Outcome(id, m, Commit))
    ensures InRound(n', ids, m.round)
  {
    forall other | other in ids ensures other in n'.managers && n'.managers[other].currentRound == m.round {
      assert Works(su, n, other, m, Commit, 0);
    }
  }

  /** Two quorums whose common members are all faulty can decide differently. */
  lemma {:induction false} SplitQuorumsDisagree(su: Setup, sign: Signer, q: set<Id>, r: set<Id>, h: Hash, g: Hash)
    returns (n: Net)
    requires Signable(su.verify, sign) && h != g && Members(su.validators) != {}
    requires IsFaultSet(Members(su.validators), su.faulty) && q * r <= su.faulty
    requires IsQuorum(Members(su.validators), q) && IsQuorum(Members(su.validators), r)
    ensures CanReach(su, n) && !Agrees(n)
  {
    var vs := Members(su.validators);
    var m := MotionOf(vs, su.verify, sign, q, h, 0);
    var m' := MotionOf(vs, su.verify, sign, r, g, 0);
    var a := CorrectMember(vs, su.faulty, q);
    var b := CorrectMember(vs, su.faulty, r);
    var start := InitialNet(su);
    var half := GroupDecides(su, start, q - su.faulty, m, a);
    forall id | id in r - su.faulty ensures MayStart(su, half, id, 0) {
      assert id !in q - su.faulty && MayStart(su, start, id, 0);
    }
    n := GroupDecides(su, half, r - su.faulty, m', b);
    assert Decision(a, 0, h) in n.decisions && Decision(b, 0, g) in n.decisions;
  }

  lemma {:induction false} NobodyDecides(su: Setup, n: Net, steps: seq<NetStep>)
    requires su.validators == [] && Reachable(su, n, steps)
    ensures n.decisions == {}
    decreases |steps|
  {
    if steps != [] {
      var front, last := steps[..|steps| - 1], steps[|steps| - 1];
      var before :| Reachable(su, before, front) && Enabled(su, before, last) && n == Apply(su, before, last);
      ReachableInv(su, before, front);
    }
  }

  /**
   * Decisions of one round agree in every state that orderly steps can reach, for every tolerated
   * fault set, if and only if the number of validators leaves remainder one modulo three, or there
   * are none.
   */
  lemma {:induction false} AgreementExactly(validators: seq<Id>, verify: Verifier, sign: Signer)
    requires Signable(verify, sign)
    ensures (forall faulty, n ::
               IsFaultSet(Members(validators), faulty) && CanReach(Setup(validators, faulty, verify), n) ==> Agrees(n))
       <==> |Members(validators)| % 3 == 1 || validators == []
  {
    if |Members(validators)| % 3 == 1 || validators == [] {
      forall faulty, n | IsFaultSet(Members(validators), faulty) && CanReach(Setup(validators, faulty, verify), n)
        ensures Agrees(n)
      {
        var su := Setup(validators, faulty, verify);
        var steps :| OrderlyRun(su, n, steps);
        OrderlyIsReachable(su, n, steps);
        if validators == [] {
          NobodyDecides(su, n, steps);
        } else {
          Agreement(su, n, steps);
        }
      }
    } else {
      assert validators[0] in Members(validators);
      var faulty, q, r := SplitQuorums(Members(validators));
      var h, g := seq(32, _ => 0), seq(32, _ => 1);
      assert h[0] != g[0];
      var n := SplitQuorumsDisagree(Setup(validators, faulty, verify), sign, q, r, h, g);
    }
  }

  // ---------------------------------------------------------------------------------------------
  // Across rounds

  /** The first decision of a node. */
  ghost predicate First(n: Net, d: Decision) {
    d in n.decisions && forall e :: e in n.decisions && e.id == d.id ==> d.round <= e.round
  }

  /** All nodes that have decided decided the same block first. */
  ghost predicate FirstsAgree(n: Net) {
    forall d, e :: First(n, d) && First(n, e) ==> d.hash == e.hash
  }

  lemma {:induction false} MayGoOn(su: Setup, n: Net, ids: set<Id>, round: U64, next: U64)
    requires CanReach(su, n) && InRound(n, ids, round) && round < next
    ensures forall id :: id in ids ==> MayStart(su, n, id, next)
  {
    var steps :| OrderlyRun(su, n, steps);
    OrderlyIsReachable(su, n, steps);
    ReachableInv(su, n, steps);
    forall id | id in ids ensures MayStart(su, n, id, next) {
      assert ManagerInv(su, n, id);
    }
  }

  /** Nothing carries a block from one round to the next: two nodes can decide first in different rounds. */
  lemma {:induction false} RoundsDisagree(su: Setup, sign: Signer, a: Id, b: Id, h: Hash, g: Hash) returns (n: Net)
    requires Signable(su.verify, sign) && h != g && IsFaultSet(Members(su.validators), su.faulty)
    requires Correct(su, a) && Correct(su, b) && a != b
    ensures CanReach(su, n) && n.decisions == {Decision(a, 0, h), Decision(b, 1, g)} && !FirstsAgree(n)
  {
    var vs, correct := Members(su.validators), Members(su.validators) - su.faulty;
    CorrectValidatorsSuffice(vs, su.faulty);
    var start := InitialNet(su);
    var m := MotionOf(vs, su.verify, sign, correct, h, 0);
    var half := GroupDecides(su, start, correct, m, a);
    MayGoOn(su, half, correct, 0, 1);
    var m' := MotionOf(vs, su.verify, sign, correct, g, 1);
    n := GroupDecides(su, half, correct, m', b);
    TwoFirsts(n, Decision(a, 0, h), Decision(b, 1, g));
  }

  lemma {:induction false} TwoFirsts(n: Net, d: Decision, e: Decision)
    requires n.decisions == {d, e} && d.id != e.id && d.hash != e.hash
    ensures !FirstsAgree(n)
  {
    assert First(n, d) && First(n, e);
  }

  lemma {:induction false} DecidersAreCorrect(su: Setup, n: Net, steps: seq<NetStep>)
    requires Reachable(su, n, steps)
    ensures forall d :: d in n.decisions ==> d.id in Members(su.validators)
    decreases |steps|
  {
    if steps != [] {
      var front, last := steps[..|steps| - 1], steps[|steps| - 1];
      var before :| Reachable(su, before, front) && Enabled(su, before, last) && n == Apply(su, before, last);
      DecidersAreCorrect(su, before, front);
      ReachableInv(su, before, front);
    }
  }

  lemma {:induction false} OnlyOne(s: set<Id>, a: Id, b: Id)
    requires |s| <= 1 && a in s && b in s
    ensures a == b
  {
    Subset({a, b}, s);
  }

  lemma {:induction false} OneValidatorAgrees(su: Setup, n: Net, steps: seq<NetStep>)
    requires |Members(su.validators)| <= 1 && IsFaultSet(Members(su.validators), su.faulty) && Reachable(su, n, steps)
    ensures FirstsAgree(n)
  {
    DecidersAreCorrect(su, n, steps);
    forall d, e | First(n, d) && First(n, e) ensures d.hash == e.hash {
      OnlyOne(Members(su.validators), d.id, e.id);
      assert |Members(su.validators)| != 0;
      Agreement(su, n, steps);
    }
  }

  /** First decisions agree in all states that orderly steps can reach only where there are no two to differ. */
  lemma {:induction false} FirstDecisionsAgreeExactly(validators: seq<Id>, verify: Verifier, sign: Signer)
    requires Signable(verify, sign)
    ensures (forall faulty, n ::
               IsFaultSet(Members(validators), faulty) && CanReach(Setup(validators, faulty, verify), n)
               ==> FirstsAgree(n))
       <==> |Members(validators)| <= 1
  {
    if |Members(validators)| <= 1 {
      forall faulty, n | IsFaultSet(Members(validators), faulty) && CanReach(Setup(validators, faulty, verify), n)
        ensures FirstsAgree(n)
      {
        var su := Setup(validators, faulty, verify);
        var steps :| OrderlyRun(su, n, steps);
        OrderlyIsReachable(su, n, steps);
        OneValidatorAgrees(su, n, steps);
      }
    } else {
      var su, pair := Setup(validators, {}, verify), TakeTwo(Members(validators));
      var h, g := seq(32, _ => 0), seq(32, _ => 1);
      assert h[0] != g[0];
      assert Correct(su, pair.0) && Correct(su, pair.1);
      var n := RoundsDisagree(su, sign, pair.0, pair.1, h, g);
    }
  }

  ghost function TakeTwo(s: set<Id>): (pair: (Id, Id))
    requires |s| >= 2
    ensures pair.0 in s && pair.1 in s && pair.0 != pair.1
  {
    var a :| a in s;
    assert |s - {a}| >= 1;
    var b :| b in s - {a};
    (a, b)
  }
}
