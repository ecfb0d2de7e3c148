/**
 * Proof-of-stake bookkeeping and leader selection (src/staking.rs). Selection walks the eligible
 * validators in whatever order the hash map yields them; the shares it gives are shown not to
 * depend on that order. The token movements are shown to balance over every run.
 */
module Staking {
  import opened Wrappers
  import opened MapSums

  datatype Validator = Validator(
    stake: nat, active: bool, rewards: nat, lastBlock: nat, validations: nat, slashes: nat,
    unstaking: bool, unstakingSince: Option<nat>)

  datatype Params = Params(minStake: nat, unstakingPeriod: nat, slashPercentage: nat)
  const DEFAULT := Params(1000, 604_800, 5)

  /** The stake below which a slash deactivates a validator, whatever the configured minimum. */
  const SLASH_FLOOR := 1000

  type Validators = map<string, Validator>

  function NewValidator(amount: nat): Validator {
    Validator(amount, true, 0, 0, 0, 0, false, None)
  }

  datatype Op =
    | Stake(address: string, amount: nat, walletExists: bool)
    | RequestUnstake(address: string, part: Option<nat>, now: nat)
    | CompleteUnstake(address: string, now: nat)
    | RecordValidation(address: string, blockIndex: nat, reward: nat)
    | ReportDoubleSign(address: string, blockIndex: nat)

  datatype Error =
    | BelowMinimum | NoWallet | UnstakingPending | NotAValidator | AlreadyUnstaking | MoreThanStaked
    | NotUnstaking | NoTimestamp | StillLocked

  function Refusal(p: Params, vs: Validators, op: Op): Option<Error> {
    match op
    case Stake(address, amount, walletExists) =>
      if amount < p.minStake then Some(BelowMinimum)
      else if !walletExists then Some(NoWallet)
      else if address in vs && vs[address].unstaking then Some(UnstakingPending)
      else None
    case RequestUnstake(address, amount, _) =>
      if address !in vs then Some(NotAValidator)
      else if vs[address].unstaking then Some(AlreadyUnstaking)
      else if amount.Some? && amount.value > vs[address].stake then Some(MoreThanStaked)
      else None
    case CompleteUnstake(address, now) =>
      if address !in vs then Some(NotAValidator)
      else if !vs[address].unstaking then Some(NotUnstaking)
      else if vs[address].unstakingSince.None? then Some(NoTimestamp)
      else if now < vs[address].unstakingSince.value + p.unstakingPeriod then Some(StillLocked)
      else None
    case RecordValidation(_, _, _) => None
    case ReportDoubleSign(_, _) => None
  }

  function SlashOf(p: Params, stake: nat): nat {
    var amount := stake * p.slashPercentage / 100;
    if amount < stake then amount else stake
  }

  function AfterSlash(v: Validator, amount: nat): Validator
    requires amount <= v.stake
  {
    var left := v.stake - amount;
    v.(stake := left, slashes := v.slashes + 1, active := v.active && left >= SLASH_FLOOR)
  }

  predicate SignedTwice(vs: Validators, address: string, blockIndex: nat) {
    address in vs && vs[address].lastBlock == blockIndex
  }

  function Effect(p: Params, vs: Validators, op: Op): Validators
    requires Refusal(p, vs, op).None?
  {
    match op
    case Stake(address, amount, _) =>
      vs[address := if address in vs then vs[address].(stake := vs[address].stake + amount) else NewValidator(amount)]
    case RequestUnstake(address, amount, now) =>
      var v := vs[address];
      var leaving := if amount.Some? then amount.value else v.stake;
      vs[address := v.(active := v.active && v.stake - leaving >= p.minStake,
                       unstaking := true, unstakingSince := Some(now))]
    case CompleteUnstake(address, _) => vs - {address}
    case RecordValidation(address, blockIndex, reward) =>
      if address in vs then
        var v := vs[address];
        vs[address := v.(validations := v.validations + 1, lastBlock := blockIndex, rewards := v.rewards + reward)]
      else vs
    case ReportDoubleSign(address, blockIndex) =>
      if SignedTwice(vs, address, blockIndex) then
        vs[address := AfterSlash(vs[address], SlashOf(p, vs[address].stake))]
      else vs
  }

  // ---------------------------------------------------------------------------------------------
  // Conservation

  datatype Ledger = Ledger(staked: nat, returned: nat, slashed: nat)

  function Entered(p: Params, vs: Validators, l: Ledger, op: Op): Ledger
    requires Refusal(p, vs, op).None?
  {
    match op
    case Stake(_, amount, _) => l.(staked := l.staked + amount)
    case CompleteUnstake(address, _) => l.(returned := l.returned + vs[address].stake)
    case ReportDoubleSign(address, blockIndex) =>
      if SignedTwice(vs, address, blockIndex) then l.(slashed := l.slashed + SlashOf(p, vs[address].stake)) else l
    case _ => l
  }

  datatype State = State(validators: Validators, ledger: Ledger)

  function Step(p: Params, s: State, op: Op): State {
    if Refusal(p, s.validators, op).None? then
      State(Effect(p, s.validators, op), Entered(p, s.validators, s.ledger, op))
    else s
  }

  /** The state after the first `n` operations of a run. */
  function At(p: Params, ops: seq<Op>, n: nat): State
    requires n <= |ops|
  {
    if n == 0 then State(map[], Ledger(0, 0, 0)) else Step(p, At(p, ops, n - 1), ops[n - 1])
  }

  predicate AcceptedAt(p: Params, ops: seq<Op>, n: nat)
    requires n < |ops|
  {
    Refusal(p, At(p, ops, n).validators, ops[n]).None?
  }

  function StakeOf(): Validator -> nat {
    (v: Validator) => v.stake
  }

  ghost predicate Conserved(s: State) {
    s.ledger.staked == SumBy(s.validators, StakeOf()) + s.ledger.returned + s.ledger.slashed
  }

  lemma {:induction false} StepConserves(p: Params, s: State, op: Op)
    requires Conserved(s)
    ensures Conserved(Step(p, s, op))
  {
    var vs := s.validators;
    if Refusal(p, vs, op).None? {
      match op
      case Stake(address, amount, _) => SumUpdate(vs, StakeOf(), address, Effect(p, vs, op)[address]);
      case RequestUnstake(address, _, _) => SumUpdate(vs, StakeOf(), address, Effect(p, vs, op)[address]);
      case CompleteUnstake(address, _) => SumRemove(vs, StakeOf(), address);
      case RecordValidation(address, _, _) =>
        if address in vs {
          SumUpdate(vs, StakeOf(), address, Effect(p, vs, op)[address]);
        }
      case ReportDoubleSign(address, blockIndex) =>
        if SignedTwice(vs, address, blockIndex) {
          SumUpdate(vs, StakeOf(), address, Effect(p, vs, op)[address]);
        }
    }
  }

  /** Over every run, the tokens staked are the tokens held, returned and slashed. */
  lemma {:induction false} RunConserves(p: Params, ops: seq<Op>, n: nat)
    requires n <= |ops|
    ensures Conserved(At(p, ops, n))
  {
    if n > 0 {
      RunConserves(p, ops, n - 1);
      StepConserves(p, At(p, ops, n - 1), ops[n - 1]);
    } else {
      assert At(p, ops, 0).validators == map[];
    }
  }

  // ---------------------------------------------------------------------------------------------
  // What a withdrawal pays

  /** What one operation slashes from `address`. */
  function SlashedBy(p: Params, vs: Validators, address: string, op: Op): nat {
    if op.ReportDoubleSign? && op.address == address && SignedTwice(vs, address, op.blockIndex)
    then SlashOf(p, vs[address].stake)
    else 0
  }

  function SlashedBetween(p: Params, ops: seq<Op>, address: string, i: nat, j: nat): nat
    requires i <= j <= |ops|
  {
    if i == j then 0
    else SlashedBetween(p, ops, address, i, j - 1) + SlashedBy(p, At(p, ops, j - 1).validators, address, ops[j - 1])
  }

  predicate Completes(p: Params, ops: seq<Op>, address: string, n: nat)
    requires n < |ops|
  {
    ops[n].CompleteUnstake? && ops[n].address == address && AcceptedAt(p, ops, n)
  }

  predicate Leaving(vs: Validators, address: string, stake: nat) {
    address in vs && vs[address].unstaking && vs[address].stake == stake
  }

  /** While a validator is leaving, only slashing changes its stake. */
  lemma {:induction false} LeavingStep(p: Params, s: State, op: Op, address: string)
    requires address in s.validators && s.validators[address].unstaking
    requires !(op.CompleteUnstake? && op.address == address && Refusal(p, s.validators, op).None?)
    ensures var stake := s.validators[address].stake;
            var slash := SlashedBy(p, s.validators, address, op);
            slash <= stake && Leaving(Step(p, s, op).validators, address, stake - slash)
  {
  }

  lemma {:induction false} LeavingStake(p: Params, ops: seq<Op>, address: string, i: nat, j: nat)
    requires i < j <= |ops| && ops[i].RequestUnstake? && ops[i].address == address && AcceptedAt(p, ops, i)
    requires forall m :: i < m < j ==> !Completes(p, ops, address, m)
    ensures var stake := At(p, ops, i).validators[address].stake;
            var slashed := SlashedBetween(p, ops, address, i + 1, j);
            slashed <= stake && Leaving(At(p, ops, j).validators, address, stake - slashed)
  {
    if j > i + 1 {
      LeavingStake(p, ops, address, i, j - 1);
      assert !Completes(p, ops, address, j - 1);
      LeavingStep(p, At(p, ops, j - 1), ops[j - 1], address);
    }
  }

  function Asked(vs: Validators, op: Op): nat
    requires op.RequestUnstake? && op.address in vs
  {
    if op.part.Some? then op.part.value else vs[op.address].stake
  }

  /**
   * In any run, from an accepted request to the completion that follows it: what is paid is the
   * stake at the request less the slashes since, whatever part was asked for. So it is the amount
   * asked for if and only if that is the whole stake and those slashes leave it.
   */
  lemma {:induction false} CompletionPaysEverything(p: Params, ops: seq<Op>, address: string, i: nat, j: nat)
    requires i < j < |ops| && ops[i].RequestUnstake? && ops[i].address == address && AcceptedAt(p, ops, i)
    requires Completes(p, ops, address, j) && forall m :: i < m < j ==> !Completes(p, ops, address, m)
    ensures var vs := At(p, ops, i).validators;
            var slashed := SlashedBetween(p, ops, address, i + 1, j);
            var paid := At(p, ops, j + 1).ledger.returned - At(p, ops, j).ledger.returned;
            && paid == vs[address].stake - slashed
            && (paid == Asked(vs, ops[i]) <==> Asked(vs, ops[i]) + slashed == vs[address].stake)
            && address !in At(p, ops, j + 1).validators
  {
    LeavingStake(p, ops, address, i, j);
  }

  /** With the default parameters, a request for 1000 of 5000 staked tokens pays all 5000. */
  lemma {:induction false} PartialRequestPaysAll()
    ensures var ops := [Stake("v", 5000, true), RequestUnstake("v", Some(1000), 0), CompleteUnstake("v", 604_800)];
            Asked(At(DEFAULT, ops, 1).validators, ops[1]) == 1000 && At(DEFAULT, ops, 3).ledger.returned == 5000
  {
    var ops := [Stake("v", 5000, true), RequestUnstake("v", Some(1000), 0), CompleteUnstake("v", 604_800)];
    assert At(DEFAULT, ops, 0) == State(map[], Ledger(0, 0, 0));
    assert At(DEFAULT, ops, 1) == State(map["v" := NewValidator(5000)], Ledger(5000, 0, 0));
    assert Leaving(At(DEFAULT, ops, 2).validators, "v", 5000);
  }

  // ---------------------------------------------------------------------------------------------
  // What a slash answers to

  /** The `k`-th operation records that `address`, a validator then, validated this block. */
  predicate Validates(p: Params, ops: seq<Op>, address: string, blockIndex: nat, k: nat)
    requires k < |ops|
  {
    && ops[k].RecordValidation? && ops[k].address == address && ops[k].blockIndex == blockIndex
    && address in At(p, ops, k).validators
  }

  /** `address` has been a validator without a break, from before operation `k` to after `n` of them. */
  predicate Stayed(p: Params, ops: seq<Op>, address: string, k: nat, n: nat)
    requires k <= n <= |ops|
  {
    forall j :: k <= j <= n ==> address in At(p, ops, j).validators
  }

  /** Its present registration as a validator has seen it validate this block. */
  predicate ValidatedSince(p: Params, ops: seq<Op>, address: string, blockIndex: nat, k: nat, n: nat)
    requires n <= |ops|
  {
    k < n && Validates(p, ops, address, blockIndex, k) && Stayed(p, ops, address, k, n)
  }

  lemma {:induction false} ValidationStep(p: Params, s: State, op: Op, address: string)
    requires address in Step(p, s, op).validators
    ensures var v := Step(p, s, op).validators[address];
            if address !in s.validators then v.validations == 0 && v.lastBlock == 0
            else if op.RecordValidation? && op.address == address then v.validations > 0 && v.lastBlock == op.blockIndex
            else v.validations == s.validators[address].validations && v.lastBlock == s.validators[address].lastBlock
  {
  }

  /** In every run a validator's last block is one it validated, or zero for one that has not. */
  lemma {:induction false} LastBlockWasValidated(p: Params, ops: seq<Op>, n: nat, address: string)
    requires n <= |ops| && address in At(p, ops, n).validators
    ensures var v := At(p, ops, n).validators[address];
            if v.validations == 0 then v.lastBlock == 0
            else exists k: nat :: ValidatedSince(p, ops, address, v.lastBlock, k, n)
  {
    if n > 0 {
      var s, v := At(p, ops, n - 1), At(p, ops, n).validators[address];
      ValidationStep(p, s, ops[n - 1], address);
      if address in s.validators {
        LastBlockWasValidated(p, ops, n - 1, address);
        if ops[n - 1].RecordValidation? && ops[n - 1].address == address {
          assert ValidatedSince(p, ops, address, v.lastBlock, n - 1, n);
        } else if v.validations > 0 {
          var k: nat :| ValidatedSince(p, ops, address, v.lastBlock, k, n - 1);
          assert ValidatedSince(p, ops, address, v.lastBlock, k, n);
        }
      }
    }
  }

  lemma {:induction false} ValidationsStay(p: Params, ops: seq<Op>, address: string, blockIndex: nat, k: nat, n: nat)
    requires n <= |ops| && ValidatedSince(p, ops, address, blockIndex, k, n)
    ensures At(p, ops, n).validators[address].validations > 0
  {
    assert address in At(p, ops, n - 1).validators && address in At(p, ops, n).validators;
    ValidationStep(p, At(p, ops, n - 1), ops[n - 1], address);
    if k < n - 1 {
      ValidationsStay(p, ops, address, blockIndex, k, n - 1);
    }
  }

  /**
   * In every run the validator slashed for a block had validated it, as the validator it is, if and
   * only if it had validated anything; and for every block after the first it had.
   */
  lemma {:induction false} SlashFollowsValidation(p: Params, ops: seq<Op>, n: nat, address: string, blockIndex: nat)
    requires n < |ops| && ops[n] == ReportDoubleSign(address, blockIndex)
    requires SignedTwice(At(p, ops, n).validators, address, blockIndex)
    ensures (exists k: nat :: ValidatedSince(p, ops, address, blockIndex, k, n))
       <==> At(p, ops, n).validators[address].validations > 0
    ensures blockIndex > 0 ==> At(p, ops, n).validators[address].validations > 0
  {
    LastBlockWasValidated(p, ops, n, address);
    forall k: nat | ValidatedSince(p, ops, address, blockIndex, k, n)
      ensures At(p, ops, n).validators[address].validations > 0
    {
      ValidationsStay(p, ops, address, blockIndex, k, n);
    }
  }

  /** For block zero it need not: a report slashes a validator that has only just staked. */
  lemma {:induction false} SlashWithoutValidation()
    ensures var ops := [Stake("v", 5000, true), ReportDoubleSign("v", 0)];
            "v" in At(DEFAULT, ops, 2).validators && At(DEFAULT, ops, 2).validators["v"].stake == 4750
  {
    var ops := [Stake("v", 5000, true), ReportDoubleSign("v", 0)];
    assert At(DEFAULT, ops, 0) == State(map[], Ledger(0, 0, 0));
    assert At(DEFAULT, ops, 1) == State(map["v" := NewValidator(5000)], Ledger(5000, 0, 0));
  }

  // ---------------------------------------------------------------------------------------------
  // Selection

  predicate Eligible(p: Params, v: Validator) {
    v.active && !v.unstaking && v.stake >= p.minStake
  }

  datatype Candidate = Candidate(address: string, stake: nat)

  /** The eligible validators in enumeration order. */
  function Candidates(p: Params, vs: Validators, order: seq<string>): seq<Candidate> {
    if order == [] then []
    else
      var last := order[|order| - 1];
      Candidates(p, vs, order[..|order| - 1])
      + if last in vs && Eligible(p, vs[last]) then [Candidate(last, vs[last].stake)] else []
  }

  ghost predicate Enumerates(vs: Validators, order: seq<string>) {
    && (forall a :: a in vs <==> a in order)
    && (forall i, j :: 0 <= i < j < |order| ==> order[i] != order[j])
  }

  function StakeBelow(who: seq<Candidate>, k: nat): nat
    requires k <= |who|
  {
    if k == 0 then 0 else StakeBelow(who, k - 1) + who[k - 1].stake
  }

  /** The position, from `k` on, whose cumulative stake first exceeds `r`. */
  function Chosen(who: seq<Candidate>, r: nat, k: nat): (i: nat)
    requires k <= |who| && StakeBelow(who, k) <= r < StakeBelow(who, |who|)
    ensures k <= i < |who| && StakeBelow(who, i) <= r < StakeBelow(who, i + 1)
    decreases |who| - k
  {
    if r < StakeBelow(who, k + 1) then k else Chosen(who, r, k + 1)
  }

  lemma {:induction false} StakeBelowMonotone(who: seq<Candidate>, i: nat, j: nat)
    requires i <= j <= |who|
    ensures StakeBelow(who, i) <= StakeBelow(who, j)
  {
    if i < j {
      StakeBelowMonotone(who, i, j - 1);
    }
  }

  /** A position is chosen for exactly the residues in its own slice of the total. */
  lemma {:induction false} ChosenExactly(who: seq<Candidate>, r: nat, i: nat)
    requires i < |who| && r < StakeBelow(who, |who|)
    ensures Chosen(who, r, 0) == i <==> StakeBelow(who, i) <= r < StakeBelow(who, i + 1)
  {
    var c := Chosen(who, r, 0);
    if c < i {
      StakeBelowMonotone(who, c + 1, i);
    } else if i < c {
      StakeBelowMonotone(who, i + 1, c);
    }
  }

  ghost function Interval(a: nat, b: nat): (s: set<nat>)
    requires a <= b
    ensures forall r :: r in s <==> a <= r < b
    ensures |s| == b - a
    decreases b - a
  {
    if a < b then {a} + Interval(a + 1, b) else {}
  }

  /** The residues modulo the total stake for which position `i` is chosen. */
  ghost function Residues(who: seq<Candidate>, i: nat): set<nat>
    requires i < |who|
  {
    set r | r in Interval(0, StakeBelow(who, |who|)) && Chosen(who, r, 0) == i
  }

  /** For any order of the candidates, each is chosen for exactly as many residues as it has stake. */
  lemma {:induction false} ShareIsStake(who: seq<Candidate>, i: nat)
    requires i < |who|
    ensures |Residues(who, i)| == who[i].stake
  {
    var slice := Interval(StakeBelow(who, i), StakeBelow(who, i + 1));
    StakeBelowMonotone(who, i + 1, |who|);
    forall r | r in Interval(0, StakeBelow(who, |who|)) ensures r in Residues(who, i) <==> r in slice {
      ChosenExactly(who, r, i);
    }
    assert Residues(who, i) == slice;
  }

  ghost predicate IsCandidate(p: Params, vs: Validators, order: seq<string>, c: Candidate) {
    c.address in order && c.address in vs && Eligible(p, vs[c.address]) && c.stake == vs[c.address].stake
  }

  /** The candidates are the eligible validators with their stakes. */
  lemma {:induction false} CandidatesAreEligible(p: Params, vs: Validators, order: seq<string>, c: Candidate)
    ensures c in Candidates(p, vs, order) <==> IsCandidate(p, vs, order, c)
  {
    if order != [] {
      var front, last := order[..|order| - 1], order[|order| - 1];
      CandidatesAreEligible(p, vs, front, c);
      assert order == front + [last];
    }
  }

  /** No validator is a candidate twice. */
  lemma {:induction false} CandidatesAreDistinct(p: Params, vs: Validators, order: seq<string>, i: nat, j: nat)
    requires forall k, l :: 0 <= k < l < |order| ==> order[k] != order[l]
    requires i < j < |Candidates(p, vs, order)|
    ensures Candidates(p, vs, order)[i].address != Candidates(p, vs, order)[j].address
  {
    var front, last := order[..|order| - 1], order[|order| - 1];
    var earlier := Candidates(p, vs, front);
    if j < |earlier| {
      CandidatesAreDistinct(p, vs, front, i, j);
    } else {
      CandidatesAreEligible(p, vs, front, earlier[i]);
      assert last !in front;
    }
  }

  /** The first eight bytes of the hash, as one big-endian word. */
  function WordOf(bytes: seq<nat>): nat {
    if bytes == [] then 0 else WordOf(bytes[..|bytes| - 1]) * 256 + bytes[|bytes| - 1]
  }

  // ---------------------------------------------------------------------------------------------
  // The manager

  class StakingManager {
    const p: Params
    var validators: Validators

    constructor (p: Params)
      ensures this.p == p && validators == At(p, [], 0).validators
    {
      this.p := p;
      validators := map[];
    }

    method AddStake(address: string, amount: nat, walletExists: bool) returns (e: Option<Error>)
      modifies this
      ensures e == Refusal(p, old(validators), Stake(address, amount, walletExists))
      ensures validators == if e.None? then Effect(p, old(validators), Stake(address, amount, walletExists))
                            else old(validators)
    {
      if amount < p.minStake {
        return Some(BelowMinimum);
      }
      if !walletExists {
        return Some(NoWallet);
      }
      if address in validators {
        var v := validators[address];
        if v.unstaking {
          return Some(UnstakingPending);
        }
        validators := validators[address := v.(stake := v.stake + amount)];
      } else {
        validators := validators[address := NewValidator(amount)];
      }
      e := None;
    }

    method Unstake(address: string, amount: Option<nat>, now: nat) returns (r: Result<nat, Error>)
      modifies this
      ensures var op := RequestUnstake(address, amount, now);
              var refusal := Refusal(p, old(validators), op);
              if refusal.Some? then r == Err(refusal.value) && validators == old(validators)
              else
                && r == Ok(if amount.Some? then amount.value else old(validators)[address].stake)
                && validators == Effect(p, old(validators), op)
    {
      if address !in validators {
        return Err(NotAValidator);
      }
      var v := validators[address];
      if v.unstaking {
        return Err(AlreadyUnstaking);
      }
      var leaving := if amount.Some? then amount.value else v.stake;
      if leaving > v.stake {
        return Err(MoreThanStaked);
      }
      if v.stake - leaving < p.minStake {
        v := v.(active := false);
      }
      validators := validators[address := v.(unstaking := true, unstakingSince := Some(now))];
      r := Ok(leaving);
    }

    method Complete(address: string, now: nat) returns (r: Result<nat, Error>)
      modifies this
      ensures var op := CompleteUnstake(address, now);
              var refusal := Refusal(p, old(validators), op);
              if refusal.Some? then r == Err(refusal.value) && validators == old(validators)
              else r == Ok(old(validators)[address].stake) && validators == Effect(p, old(validators), op)
    {
      if address !in validators {
        return Err(NotAValidator);
      }
      var v := validators[address];
      if !v.unstaking {
        return Err(NotUnstaking);
      }
      if v.unstakingSince.None? {
        return Err(NoTimestamp);
      }
      if now < v.unstakingSince.value + p.unstakingPeriod {
        return Err(StillLocked);
      }
      validators := validators - {address};
      r := Ok(v.stake);
    }

    method Validated(address: string, blockIndex: nat, reward: nat)
      modifies this
      ensures validators == Effect(p, old(validators), RecordValidation(address, blockIndex, reward))
    {
      if address in validators {
        var v := validators[address];
        v := v.(validations := v.validations + 1, lastBlock := blockIndex);
        validators := validators[address := v.(rewards := v.rewards + reward)];
      }
    }

    method DetectAndSlashDoubleSign(address: string, blockIndex: nat) returns (slashed: bool)
      modifies this
      ensures slashed == SignedTwice(old(validators), address, blockIndex)
      ensures validators == Effect(p, old(validators), ReportDoubleSign(address, blockIndex))
    {
      if address in validators && validators[address].lastBlock == blockIndex {
        var v := validators[address];
        var amount := v.stake * p.slashPercentage / 100;
        var actual := if amount < v.stake then amount else v.stake;
        v := v.(slashes := v.slashes + 1, stake := v.stake - actual);
        if v.stake < SLASH_FLOOR {
          v := v.(active := false);
        }
        validators := validators[address := v];
        return true;
      }
      slashed := false;
    }

    method TotalStake(who: seq<Candidate>) returns (total: nat)
      ensures total == StakeBelow(who, |who|)
    {
      total := 0;
      for i := 0 to |who|
        invariant total == StakeBelow(who, i)
      {
        total := total + who[i].stake;
      }
    }

    method RandomWord(hash: seq<nat>) returns (word: nat)
      requires |hash| >= 8
      ensures word == WordOf(hash[..8])
    {
      word := 0;
      for i := 0 to 8
        invariant word == WordOf(hash[..i])
      {
        assert hash[..i + 1][..i] == hash[..i];
        word := word * 256 + hash[i];
      }
    }

    /** `select_validator`: the cumulative walk always finds its candidate before it runs out. */
    method SelectValidator(order: seq<string>, hash: seq<nat>) returns (chosen: Option<string>)
      requires Enumerates(validators, order) && |hash| >= 8
      ensures var who := Candidates(p, validators, order);
              var total := StakeBelow(who, |who|);
              chosen == if total == 0 then None else Some(who[Chosen(who, WordOf(hash[..8]) % total, 0)].address)
      ensures chosen.Some? ==> chosen.value in validators && Eligible(p, validators[chosen.value])
    {
      var who := Candidates(p, validators, order);
      if who == [] {
        return None;
      }
      var total := TotalStake(who);
      if total == 0 {
        return None;
      }
      var word := RandomWord(hash);
      var r := word % total;
      var cumulative, i := 0, 0;
      while r >= cumulative + who[i].stake
        invariant 0 <= i < |who| && cumulative == StakeBelow(who, i) <= r
        invariant Chosen(who, r, 0) == Chosen(who, r, i)
        decreases |who| - i
      {
        cumulative := cumulative + who[i].stake;
        i := i + 1;
      }
      CandidatesAreEligible(p, validators, order, who[i]);
      chosen := Some(who[i].address);
    }
  }
}
