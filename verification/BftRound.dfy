/**
 * The vote collector and the round state machine of one node
 * (src/consensus/bft/vote_collector.rs, round.rs).
 *
 * Both are functions on values; the round manager above them is in `BftNetwork`, and the objects of
 * `BftNode` hold the same state in mutable fields and are proved to follow the functions. A quorum
 * certificate lists the collected votes in the iteration order of a hash map, so every function that
 * may form one takes that order as an argument, and `Enumerates` says that it is one.
 */
module BftRound {
  import opened Wrappers
  import opened Words
  import opened BftQuorum

  // ---------------------------------------------------------------------------------------------
  // Vote collector

  datatype Collector = Collector(phase: Phase, round: U64, hash: Hash, votes: map<Id, Vote>, reached: bool)

  datatype VoteResult =
    | Pending(count: nat)
    | QuorumReached(qc: Certificate)
    | Rejected(reason: QcError)

  /** `order` lists every vote of the map once. */
  ghost predicate Enumerates(order: seq<Vote>, votes: map<Id, Vote>) {
    && (forall i :: 0 <= i < |order| ==> order[i].voter in votes && votes[order[i].voter] == order[i])
    && (forall id :: id in votes ==> exists i :: 0 <= i < |order| && order[i].voter == id)
    && DistinctVoters(order)
  }

  /** Why a vote is refused, in the order the checks are made. */
  function Refusal(c: Collector, validators: set<Id>, verify: Verifier, v: Vote): Option<QcError> {
    if c.reached then Some(DuplicateVoter("quorum already reached"))
    else if v.phase != c.phase then Some(MismatchedPhase(c.phase, v.phase))
    else if v.round != c.round then Some(MismatchedRound(c.round, v.round))
    else if v.hash != c.hash then Some(MismatchedHash(c.hash, v.hash))
    else if v.voter in c.votes then Some(DuplicateVoter(v.voter))
    else ValidateVote(validators, verify, v)
  }

  function AddVote(c: Collector, validators: set<Id>, verify: Verifier, v: Vote, order: seq<Vote>)
    : (Collector, VoteResult)
  {
    match Refusal(c, validators, verify, v)
    case Some(e) => (c, Rejected(e))
    case None =>
      var votes := c.votes[v.voter := v];
      if |votes| >= Threshold(|validators|) then
        (c.(votes := votes, reached := true), QuorumReached(Certificate(c.hash, c.round, c.phase, order)))
      else
        (c.(votes := votes), Pending(|votes|))
  }

  /** If the vote completes a quorum, `order` lists the votes collected with it. */
  ghost predicate OrderOf(c: Collector, validators: set<Id>, verify: Verifier, v: Vote, order: seq<Vote>) {
    AddVote(c, validators, verify, v, order).1.QuorumReached? ==> Enumerates(order, c.votes[v.voter := v])
  }

  /** Only valid votes for this collector's phase, block and round; complete exactly at the threshold. */
  ghost predicate CollectorInv(c: Collector, validators: set<Id>, verify: Verifier) {
    && (forall id :: id in c.votes ==>
          var v := c.votes[id];
          v.voter == id && v.phase == c.phase && v.hash == c.hash && v.round == c.round
          && VoteIsValid(validators, verify, v))
    && (c.reached <==> c.votes != map[] && |c.votes| >= Threshold(|validators|))
  }

  lemma {:induction false} VotersOfOrder(order: seq<Vote>, votes: map<Id, Vote>)
    requires Enumerates(order, votes)
    ensures Voters(order) == votes.Keys
  {
  }

  /** A certificate formed by a collector is one that `validate_qc` and `QuorumCertificate::new` accept. */
  lemma {:induction false} CollectedCertificate(c: Collector, validators: set<Id>, verify: Verifier, v: Vote,
                                                order: seq<Vote>)
    requires CollectorInv(c, validators, verify)
    requires OrderOf(c, validators, verify, v, order)
    ensures CollectorInv(AddVote(c, validators, verify, v, order).0, validators, verify)
    ensures AddVote(c, validators, verify, v, order).1.QuorumReached? ==>
              && order == AddVote(c, validators, verify, v, order).1.qc.votes
              && IsQuorum(validators, Voters(order)) && DistinctVoters(order)
              && forall i :: 0 <= i < |order| ==>
                   && VoteIsValid(validators, verify, order[i])
                   && order[i].phase == c.phase && order[i].hash == c.hash && order[i].round == c.round
  {
    var votes := c.votes[v.voter := v];
    if Refusal(c, validators, verify, v).None? {
      assert votes.Keys <= validators;
      assert |votes| == |votes.Keys|;
      if |votes| >= Threshold(|validators|) {
        VotersOfOrder(order, votes);
      }
    }
  }

  // ---------------------------------------------------------------------------------------------
  // Round

  datatype RoundState = AwaitingProposal | Preparing | PreCommitting | Committing | Decided | Failed

  datatype RoundEvent =
    | StartAsLeader(hash: Hash)
    | Proposal(hash: Hash, leader: Id)
    | VoteEvent(vote: Vote)
    | Timeout

  datatype RoundAction =
    | BroadcastProposal(hash: Hash)
    | SendVote(vote: Vote)
    | PhaseComplete(phase: Phase, qc: Certificate)
    | DecideBlock(hash: Hash, round: U64, commitQc: Certificate)
    | NoAction

  datatype Round = Round(
    round: U64,
    node: Id,
    leader: Id,
    state: RoundState,
    hash: Option<Hash>,
    prepareQc: Option<Certificate>,
    precommitQc: Option<Certificate>,
    commitQc: Option<Certificate>,
    prepare: Option<Collector>,
    precommit: Option<Collector>,
    commit: Option<Collector>)

  function NewRound(round: U64, node: Id, leader: Id): Round {
    Round(round, node, leader, AwaitingProposal, None, None, None, None, None, None, None)
  }

  function Ensure(slot: Option<Collector>, phase: Phase, round: U64, hash: Hash): Option<Collector> {
    if slot.Some? then slot else Some(Collector(phase, round, hash, map[], false))
  }

  function AcceptBlock(r: Round, hash: Hash): Round {
    r.(hash := Some(hash), state := Preparing, prepare := Ensure(r.prepare, Prepare, r.round, hash))
  }

  function OnPrepareVote(r: Round, validators: set<Id>, verify: Verifier, v: Vote, h: Hash, order: seq<Vote>)
    : (Round, RoundAction)
  {
    var (c, result) := AddVote(Ensure(r.prepare, Prepare, r.round, h).value, validators, verify, v, order);
    var r' := r.(prepare := Some(c));
    if result.QuorumReached? then
      (r'.(prepareQc := Some(result.qc), state := PreCommitting,
           precommit := Ensure(r.precommit, PreCommit, r.round, h)),
       PhaseComplete(Prepare, result.qc))
    else (r', NoAction)
  }

  function OnPreCommitVote(r: Round, validators: set<Id>, verify: Verifier, v: Vote, h: Hash, order: seq<Vote>)
    : (Round, RoundAction)
  {
    var (c, result) := AddVote(Ensure(r.precommit, PreCommit, r.round, h).value, validators, verify, v, order);
    var r' := r.(precommit := Some(c));
    if result.QuorumReached? then
      (r'.(precommitQc := Some(result.qc), state := Committing,
           commit := Ensure(r.commit, Commit, r.round, h)),
       PhaseComplete(PreCommit, result.qc))
    else (r', NoAction)
  }

  function OnCommitVote(r: Round, validators: set<Id>, verify: Verifier, v: Vote, h: Hash, order: seq<Vote>)
    : (Round, RoundAction)
  {
    var (c, result) := AddVote(Ensure(r.commit, Commit, r.round, h).value, validators, verify, v, order);
    var r' := r.(commit := Some(c));
    if result.QuorumReached? then
      (r'.(commitQc := Some(result.qc), state := Decided), DecideBlock(h, r.round, result.qc))
    else (r', NoAction)
  }

  function OnVote(r: Round, validators: set<Id>, verify: Verifier, v: Vote, order: seq<Vote>): (Round, RoundAction) {
    if r.hash.None? then (r, NoAction)
    else
      match r.state
      case Preparing => OnPrepareVote(r, validators, verify, v, r.hash.value, order)
      case PreCommitting => OnPreCommitVote(r, validators, verify, v, r.hash.value, order)
      case Committing => OnCommitVote(r, validators, verify, v, r.hash.value, order)
      case _ => (r, NoAction)
  }

  function Process(r: Round, validators: set<Id>, verify: Verifier, e: RoundEvent, order: seq<Vote>)
    : (Round, RoundAction)
  {
    match e
    case StartAsLeader(hash) =>
      if r.state != AwaitingProposal || r.node != r.leader then (r, NoAction)
      else (AcceptBlock(r, hash), BroadcastProposal(hash))
    case Proposal(hash, leader) =>
      if r.state != AwaitingProposal || leader != r.leader then (r, NoAction)
      else (AcceptBlock(r, hash), SendVote(Vote(hash, r.round, Prepare, r.node, [])))
    case VoteEvent(v) => OnVote(r, validators, verify, v, order)
    case Timeout =>
      (if r.state != Decided && r.state != Failed then r.(state := Failed) else r, NoAction)
  }

  /** The collector that the current state adds to, as it is before the next vote. */
  function ActiveCollector(r: Round): Option<Collector> {
    if r.hash.None? then None
    else
      match r.state
      case Preparing => Some(Ensure(r.prepare, Prepare, r.round, r.hash.value).value)
      case PreCommitting => Some(Ensure(r.precommit, PreCommit, r.round, r.hash.value).value)
      case Committing => Some(Ensure(r.commit, Commit, r.round, r.hash.value).value)
      case _ => None
  }

  /** The order given with an event is a possible one. */
  ghost predicate OrderFor(r: Round, validators: set<Id>, verify: Verifier, e: RoundEvent, order: seq<Vote>) {
    e.VoteEvent? && ActiveCollector(r).Some? ==> OrderOf(ActiveCollector(r).value, validators, verify, e.vote, order)
  }

  ghost predicate SlotInv(slot: Option<Collector>, phase: Phase, hash: Option<Hash>, round: U64, validators: set<Id>,
                          verify: Verifier)
  {
    slot.Some? ==>
      && hash == Some(slot.value.hash) && slot.value.phase == phase && slot.value.round == round
      && CollectorInv(slot.value, validators, verify)
  }

  /** A certificate held by a round: a quorum of valid votes for its phase, round and block. */
  ghost predicate Certifies(qc: Option<Certificate>, phase: Phase, hash: Option<Hash>, round: U64,
                            validators: set<Id>, verify: Verifier)
  {
    qc.Some? ==>
      && hash == Some(qc.value.hash) && qc.value.phase == phase && qc.value.round == round
      && IsQuorum(validators, Voters(qc.value.votes)) && DistinctVoters(qc.value.votes)
      && forall i :: 0 <= i < |qc.value.votes| ==>
           var v := qc.value.votes[i];
           VoteIsValid(validators, verify, v) && v.phase == phase && v.hash == qc.value.hash && v.round == round
  }

  /** Every phase reached has the certificates of the phases before it, all for the round's one block. */
  ghost predicate RoundInv(r: Round, validators: set<Id>, verify: Verifier) {
    && SlotInv(r.prepare, Prepare, r.hash, r.round, validators, verify)
    && SlotInv(r.precommit, PreCommit, r.hash, r.round, validators, verify)
    && SlotInv(r.commit, Commit, r.hash, r.round, validators, verify)
    && Certifies(r.prepareQc, Prepare, r.hash, r.round, validators, verify)
    && Certifies(r.precommitQc, PreCommit, r.hash, r.round, validators, verify)
    && Certifies(r.commitQc, Commit, r.hash, r.round, validators, verify)
    && (r.state == AwaitingProposal ==> r.hash.None?)
    && (r.state != AwaitingProposal && r.state != Failed ==> r.hash.Some?)
    && (r.state in {PreCommitting, Committing, Decided} ==> r.prepareQc.Some?)
    && (r.state in {Committing, Decided} ==> r.precommitQc.Some?)
    && (r.state == Decided <==> r.commitQc.Some?)
  }

  /** The block of a round is fixed once, and terminal states stay. */
  lemma {:induction false} BlockIsFixed(r: Round, validators: set<Id>, verify: Verifier, e: RoundEvent,
                                        order: seq<Vote>)
    requires RoundInv(r, validators, verify)
    ensures var r' := Process(r, validators, verify, e, order).0;
            && r'.round == r.round && r'.node == r.node && r'.leader == r.leader
            && (r.hash.Some? ==> r'.hash == r.hash)
            && (r.state == Decided || r.state == Failed ==> r' == r)
  {
  }

  /** Adding a vote keeps a slot in order, and a certificate formed by it is a proper one. */
  lemma {:induction false} AddKeepsSlot(c: Collector, phase: Phase, hash: Option<Hash>, round: U64,
                                        validators: set<Id>, verify: Verifier, v: Vote, order: seq<Vote>)
    requires SlotInv(Some(c), phase, hash, round, validators, verify) && OrderOf(c, validators, verify, v, order)
    ensures var (c', result) := AddVote(c, validators, verify, v, order);
            && SlotInv(Some(c'), phase, hash, round, validators, verify)
            && (result.QuorumReached? ==> Certifies(Some(result.qc), phase, hash, round, validators, verify))
  {
    CollectedCertificate(c, validators, verify, v, order);
  }

  lemma {:induction false} OnPrepareVoteKeeps(r: Round, validators: set<Id>, verify: Verifier, v: Vote,
                                              order: seq<Vote>)
    requires RoundInv(r, validators, verify) && r.hash.Some? && r.state == Preparing
    requires OrderFor(r, validators, verify, VoteEvent(v), order)
    ensures RoundInv(OnPrepareVote(r, validators, verify, v, r.hash.value, order).0, validators, verify)
  {
    var c := Ensure(r.prepare, Prepare, r.round, r.hash.value).value;
    assert ActiveCollector(r) == Some(c);
    AddKeepsSlot(c, Prepare, r.hash, r.round, validators, verify, v, order);
  }

  lemma {:induction false} OnPreCommitVoteKeeps(r: Round, validators: set<Id>, verify: Verifier, v: Vote,
                                                order: seq<Vote>)
    requires RoundInv(r, validators, verify) && r.hash.Some? && r.state == PreCommitting
    requires OrderFor(r, validators, verify, VoteEvent(v), order)
    ensures RoundInv(OnPreCommitVote(r, validators, verify, v, r.hash.value, order).0, validators, verify)
  {
    var c := Ensure(r.precommit, PreCommit, r.round, r.hash.value).value;
    assert ActiveCollector(r) == Some(c);
    AddKeepsSlot(c, PreCommit, r.hash, r.round, validators, verify, v, order);
  }

  lemma {:induction false} OnCommitVoteKeeps(r: Round, validators: set<Id>, verify: Verifier, v: Vote, order: seq<Vote>)
    requires RoundInv(r, validators, verify) && r.hash.Some? && r.state == Committing
    requires OrderFor(r, validators, verify, VoteEvent(v), order)
    ensures RoundInv(OnCommitVote(r, validators, verify, v, r.hash.value, order).0, validators, verify)
  {
    var c := Ensure(r.commit, Commit, r.round, r.hash.value).value;
    assert ActiveCollector(r) == Some(c);
    AddKeepsSlot(c, Commit, r.hash, r.round, validators, verify, v, order);
  }

  lemma {:induction false} ProcessKeepsInv(r: Round, validators: set<Id>, verify: Verifier, e: RoundEvent,
                                           order: seq<Vote>)
    requires RoundInv(r, validators, verify) && OrderFor(r, validators, verify, e, order)
    ensures RoundInv(Process(r, validators, verify, e, order).0, validators, verify)
  {
    if e.VoteEvent? && r.hash.Some? {
      match r.state
      case Preparing => OnPrepareVoteKeeps(r, validators, verify, e.vote, order);
      case PreCommitting => OnPreCommitVoteKeeps(r, validators, verify, e.vote, order);
      case Committing => OnCommitVoteKeeps(r, validators, verify, e.vote, order);
      case _ =>
    }
  }

  /** A decision is announced once, with the commit certificate of the round's block. */
  lemma {:induction false} DecisionIsTheRounds(r: Round, validators: set<Id>, verify: Verifier, e: RoundEvent,
                                               order: seq<Vote>)
    requires RoundInv(r, validators, verify)
    requires Process(r, validators, verify, e, order).1.DecideBlock?
    ensures var (r', a) := Process(r, validators, verify, e, order);
            && r.state == Committing && r'.state == Decided
            && r'.commitQc == Some(a.commitQc) && r.hash == Some(a.hash) && r'.hash == r.hash
            && a.round == r.round && a.commitQc.round == a.round && a.commitQc.hash == a.hash
  {
  }

  /** The votes collected for a decision come from a quorum. */
  lemma {:induction false} DecisionHasQuorum(r: Round, validators: set<Id>, verify: Verifier, e: RoundEvent,
                                             order: seq<Vote>)
    requires RoundInv(r, validators, verify) && OrderFor(r, validators, verify, e, order)
    requires Process(r, validators, verify, e, order).1.DecideBlock?
    ensures var r' := Process(r, validators, verify, e, order).0;
            r'.commit.Some? && IsQuorum(validators, r'.commit.value.votes.Keys)
  {
    CollectedCertificate(ActiveCollector(r).value, validators, verify, e.vote, order);
    VotersOfOrder(order, ActiveCollector(r).value.votes[e.vote.voter := e.vote]);
  }
}
