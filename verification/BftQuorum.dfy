/**
 * Votes, quorum certificates and quorum validation
 * (src/consensus/bft/types.rs, src/consensus/bft/quorum.rs).
 *
 * The threshold is 2f + 1 with f = (n - 1) / 3. Two quorums of that size share a validator that is
 * not faulty exactly when n = 3f + 1, that is when n % 3 == 1; `QuorumsIntersectExactly` proves both
 * directions.
 */
module BftQuorum {
  import opened Wrappers
  import opened Words

  type Byte = x: int | 0 <= x < 256
  type Hash = h: seq<Byte> | |h| == 32 witness seq(32, _ => 0)
  type Id = string
  type Verifier = (Id, seq<Byte>, seq<Byte>) -> bool

  datatype Phase = Prepare | PreCommit | Commit | Decide
  datatype Vote = Vote(hash: Hash, round: U64, phase: Phase, voter: Id, signature: seq<Byte>)
  datatype Certificate = Certificate(hash: Hash, round: U64, phase: Phase, votes: seq<Vote>)

  datatype QcError =
    | MismatchedPhase(expected: Phase, got: Phase)
    | MismatchedHash(expectedHash: Hash, gotHash: Hash)
    | MismatchedRound(expectedRound: U64, gotRound: U64)
    | InsufficientVotes(needed: nat, have: nat)
    | DuplicateVoter(who: Id)
    | UnknownVoter(who: Id)
    | InvalidSignature(who: Id)

  // ---------------------------------------------------------------------------------------------
  // What is signed

  function PhaseByte(p: Phase): Byte {
    match p
    case Prepare => 0
    case PreCommit => 1
    case Commit => 2
    case Decide => 3
  }

  function LittleEndian(n: nat, width: nat): (r: seq<Byte>)
    ensures |r| == width
  {
    if width == 0 then [] else [n % 256] + LittleEndian(n / 256, width - 1)
  }

  function Power256(width: nat): nat {
    if width == 0 then 1 else 256 * Power256(width - 1)
  }

  /** phase byte, then the block hash, then the round in eight little-endian bytes. */
  function SigningPayload(phase: Phase, hash: Hash, round: U64): seq<Byte> {
    [PhaseByte(phase)] + hash + LittleEndian(round, 8)
  }

  function Payload(v: Vote): seq<Byte> {
    SigningPayload(v.phase, v.hash, v.round)
  }

  lemma {:induction false} LittleEndianInjective(a: nat, b: nat, width: nat)
    requires a < Power256(width) && b < Power256(width)
    requires LittleEndian(a, width) == LittleEndian(b, width)
    ensures a == b
    decreases width
  {
    if width > 0 {
      var (x, y) := (LittleEndian(a, width), LittleEndian(b, width));
      assert x[0] == a % 256 && y[0] == b % 256;
      assert x[1..] == LittleEndian(a / 256, width - 1) && y[1..] == LittleEndian(b / 256, width - 1);
      LittleEndianInjective(a / 256, b / 256, width - 1);
    }
  }

  /** Domain separation: a signed payload fixes the phase, the block and the round. */
  lemma {:induction false} PayloadInjective(p: Phase, h: Hash, r: U64, p': Phase, h': Hash, r': U64)
    requires SigningPayload(p, h, r) == SigningPayload(p', h', r')
    ensures p == p' && h == h' && r == r'
  {
    var (x, y) := (SigningPayload(p, h, r), SigningPayload(p', h', r'));
    assert x[0] == PhaseByte(p) && y[0] == PhaseByte(p');
    assert x[1..33] == h && y[1..33] == h';
    assert x[33..] == LittleEndian(r, 8) && y[33..] == LittleEndian(r', 8);
    assert Power256(8) == 0x1_0000_0000_0000_0000 by {
      assert Power256(2) == 65536 && Power256(4) == 65536 * 65536 && Power256(6) == 65536 * 65536 * 65536;
    }
    LittleEndianInjective(r, r', 8);
  }

  // ---------------------------------------------------------------------------------------------
  // Quorums

  function MaxFaulty(n: nat): nat {
    if n == 0 then 0 else (n - 1) / 3
  }

  function Threshold(n: nat): nat {
    if n == 0 then 0 else 2 * MaxFaulty(n) + 1
  }

  ghost predicate IsQuorum(validators: set<Id>, q: set<Id>) {
    q <= validators && |q| >= Threshold(|validators|)
  }

  ghost predicate IsFaultSet(validators: set<Id>, faulty: set<Id>) {
    faulty <= validators && |faulty| <= MaxFaulty(|validators|)
  }

  /** Whatever the tolerated faults, two quorums have a correct validator in common. */
  ghost predicate QuorumsIntersect(validators: set<Id>) {
    forall faulty, q, r ::
      IsFaultSet(validators, faulty) && IsQuorum(validators, q) && IsQuorum(validators, r) ==>
      q * r - faulty != {}
  }

  lemma {:induction false} CommonCorrect(validators: set<Id>, faulty: set<Id>, q: set<Id>, r: set<Id>)
    requires |validators| % 3 == 1
    requires IsFaultSet(validators, faulty) && IsQuorum(validators, q) && IsQuorum(validators, r)
    ensures q * r - faulty != {}
  {
    assert |q + r| == |q| + |r| - |q * r|;
    Subset(q + r, validators);
    assert |q * r| > |faulty|;
    if q * r <= faulty {
      Subset(q * r, faulty);
    }
    var x :| x in q * r && x !in faulty;
    assert x in q * r - faulty;
  }

  lemma {:induction false} Subset(a: set<Id>, b: set<Id>)
    requires a <= b
    ensures |a| <= |b|
  {
    assert b == a + (b - a);
  }

  lemma {:induction false} TakeSome(s: set<Id>, k: nat) returns (r: set<Id>)
    requires k <= |s|
    ensures r <= s && |r| == k
    decreases k
  {
    if k == 0 {
      r := {};
    } else {
      var x :| x in s;
      var rest := TakeSome(s - {x}, k - 1);
      r := rest + {x};
    }
  }

  /** With n = 3f + 2 or n = 3f + 3, f faulty validators can stand in two otherwise disjoint quorums. */
  lemma {:induction false} SplitQuorums(validators: set<Id>) returns (faulty: set<Id>, q: set<Id>, r: set<Id>)
    requires |validators| % 3 != 1
    ensures IsFaultSet(validators, faulty) && IsQuorum(validators, q) && IsQuorum(validators, r)
    ensures q * r <= faulty
  {
    var f := MaxFaulty(|validators|);
    if validators == {} {
      faulty, q, r := {}, {}, {};
    } else {
      faulty := TakeSome(validators, f);
      var others := validators - faulty;
      var a := TakeSome(others, f + 1);
      assert |others - a| == |others| - (f + 1);
      var b := TakeSome(others - a, f + 1);
      q, r := faulty + a, faulty + b;
    }
  }

  /** The threshold is safe for exactly the validator counts of the form 3f + 1. */
  lemma {:induction false} QuorumsIntersectExactly(validators: set<Id>)
    ensures QuorumsIntersect(validators) <==> |validators| % 3 == 1
  {
    if |validators| % 3 == 1 {
      forall faulty, q, r
        | IsFaultSet(validators, faulty) && IsQuorum(validators, q) && IsQuorum(validators, r)
        ensures q * r - faulty != {}
      {
        CommonCorrect(validators, faulty, q, r);
      }
    } else {
      var faulty, q, r := SplitQuorums(validators);
      assert q * r - faulty == {};
    }
  }

  /** Six validators tolerate one fault and need three votes: two quorums can be disjoint. */
  lemma {:induction false} SixValidatorsDoNotIntersect(validators: set<Id>)
    requires |validators| == 6
    ensures Threshold(|validators|) == 3
    ensures exists q, r :: IsQuorum(validators, q) && IsQuorum(validators, r) && q !! r
  {
    var q := TakeSome(validators, 3);
    assert |validators - q| == 3;
    assert IsQuorum(validators, q) && IsQuorum(validators, validators - q) && q !! (validators - q);
  }

  /** As many correct validators as the threshold asks for are always left. */
  lemma {:induction false} CorrectValidatorsSuffice(validators: set<Id>, faulty: set<Id>)
    requires IsFaultSet(validators, faulty)
    ensures IsQuorum(validators, validators - faulty)
  {
    assert |validators - faulty| == |validators| - |faulty|;
  }

  // ---------------------------------------------------------------------------------------------
  // Validation

  predicate VoteIsValid(validators: set<Id>, verify: Verifier, v: Vote) {
    v.voter in validators && verify(v.voter, Payload(v), v.signature)
  }

  function ValidateVote(validators: set<Id>, verify: Verifier, v: Vote): (r: Option<QcError>)
    ensures r.None? <==> VoteIsValid(validators, verify, v)
  {
    if v.voter !in validators then Some(UnknownVoter(v.voter))
    else if !verify(v.voter, Payload(v), v.signature) then Some(InvalidSignature(v.voter))
    else None
  }

  function Voters(votes: seq<Vote>): set<Id> {
    set i | 0 <= i < |votes| :: votes[i].voter
  }

  ghost predicate DistinctVoters(votes: seq<Vote>) {
    forall i, j :: 0 <= i < j < |votes| ==> votes[i].voter != votes[j].voter
  }

  /** `QuorumCertificate::new`: only votes for exactly this phase, block and round. */
  method NewCertificate(phase: Phase, hash: Hash, round: U64, votes: seq<Vote>)
    returns (r: Result<Certificate, QcError>)
    ensures r.Ok? <==> forall i :: 0 <= i < |votes| ==>
              votes[i].phase == phase && votes[i].hash == hash && votes[i].round == round
    ensures r.Ok? ==> r.value == Certificate(hash, round, phase, votes)
  {
    for i := 0 to |votes|
      invariant forall k :: 0 <= k < i ==>
                  votes[k].phase == phase && votes[k].hash == hash && votes[k].round == round
    {
      if votes[i].phase != phase {
        return Err(MismatchedPhase(phase, votes[i].phase));
      }
      if votes[i].hash != hash {
        return Err(MismatchedHash(hash, votes[i].hash));
      }
      if votes[i].round != round {
        return Err(MismatchedRound(round, votes[i].round));
      }
    }
    return Ok(Certificate(hash, round, phase, votes));
  }

  /** `validate_qc`: accepted exactly when the votes are valid and distinct and form a quorum. */
  method ValidateQc(validators: set<Id>, verify: Verifier, qc: Certificate) returns (r: Option<QcError>)
    ensures r.None? <==>
      && (forall i :: 0 <= i < |qc.votes| ==> VoteIsValid(validators, verify, qc.votes[i]))
      && DistinctVoters(qc.votes)
      && IsQuorum(validators, Voters(qc.votes))
  {
    var seen: set<Id> := {};
    for i := 0 to |qc.votes|
      invariant forall k :: 0 <= k < i ==> VoteIsValid(validators, verify, qc.votes[k])
      invariant DistinctVoters(qc.votes[..i])
      invariant seen == Voters(qc.votes[..i]) && seen <= validators
    {
      var vote := qc.votes[i];
      if vote.voter in seen {
        assert !DistinctVoters(qc.votes) by {
          var k :| 0 <= k < i && qc.votes[..i][k].voter == vote.voter;
          assert qc.votes[k].voter == qc.votes[i].voter;
        }
        return Some(DuplicateVoter(vote.voter));
      }
      seen := seen + {vote.voter};
      assert qc.votes[..i + 1] == qc.votes[..i] + [vote];
      assert Voters(qc.votes[..i + 1]) == Voters(qc.votes[..i]) + {vote.voter};
      var e := ValidateVote(validators, verify, vote);
      if e.Some? {
        return e;
      }
    }
    assert qc.votes[..|qc.votes|] == qc.votes;
    if |seen| < Threshold(|validators|) {
      return Some(InsufficientVotes(Threshold(|validators|), |seen|));
    }
    return None;
  }
}
