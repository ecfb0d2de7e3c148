/**
 * The transaction validation gate (src/transaction_validation.rs). It remembers the ids and the
 * contents it has accepted, and `cleanup_old_records` makes it forget them again, so whether a
 * transaction can be replayed depends on how the forgetting age, the tolerated clock drift and the
 * maximum transaction age play together. `ReplayExactly` says for every transaction and every
 * configuration whether some run accepts it twice.
 */
module ReplayGate {
  import opened Wrappers
  import opened Words

  datatype Payload = Payload(sender: string, recipient: string, amount: U64, fee: U64, data: string)
  datatype Tx = Tx(id: string, payload: Payload, timestamp: U64)

  datatype Config = Config(
    minFee: nat,
    minAmount: nat,
    maxAmount: nat,
    minAddressLength: nat,
    maxAddressLength: nat,
    trackSequence: bool,
    maxPending: nat,
    maxFutureDrift: nat,
    maxPastAge: nat)

  datatype Sender = Sender(lastConfirmed: nat, pending: seq<nat>)
  const NEW_SENDER := Sender(0, [])

  /** Ids and content digests seen, each with the time it was recorded, and the senders' sequences. */
  datatype Gate = Gate(ids: map<string, nat>, contents: map<string, nat>, senders: map<string, Sender>)
  const EMPTY := Gate(map[], map[], map[])

  datatype Error =
    | EmptyId | IdTooLong | SelfTransfer | DuplicateId | DuplicateContent | TooFarInFuture | TooOld
    | AmountOverflow | BelowMinimum | AboveMaximum | ZeroTotal | FeeTooLow
    | SenderTooShort | SenderTooLong | RecipientTooShort | RecipientTooLong | InvalidSequence | TooManyPending

  type Digest = Payload -> string

  function SenderOf(g: Gate, who: string): Sender {
    if who in g.senders then g.senders[who] else NEW_SENDER
  }

  /** Checks that look at the transaction alone and come before the duplicate checks. */
  function FormatError(tx: Tx): Option<Error> {
    if tx.id == "" then Some(EmptyId)
    else if |tx.id| > 256 then Some(IdTooLong)
    else if tx.payload.sender == tx.payload.recipient then Some(SelfTransfer)
    else None
  }

  function TimestampError(cfg: Config, tx: Tx, now: nat): (r: Option<Error>)
    ensures r.None? <==> tx.timestamp <= now + cfg.maxFutureDrift && now <= tx.timestamp + cfg.maxPastAge
  {
    if tx.timestamp > now + cfg.maxFutureDrift then Some(TooFarInFuture)
    else if SaturatingSub(now, tx.timestamp) > cfg.maxPastAge then Some(TooOld)
    else None
  }

  function AmountError(cfg: Config, p: Payload): Option<Error> {
    if p.amount + p.fee > U64_MAX then Some(AmountOverflow)
    else if p.amount < cfg.minAmount then Some(BelowMinimum)
    else if p.amount > cfg.maxAmount then Some(AboveMaximum)
    else if p.amount + p.fee == 0 then Some(ZeroTotal)
    else if p.fee < cfg.minFee then Some(FeeTooLow)
    else None
  }

  function AddressError(cfg: Config, p: Payload): Option<Error> {
    if p.sender != "0" && p.sender != "genesis" && |p.sender| < cfg.minAddressLength then Some(SenderTooShort)
    else if p.sender != "0" && p.sender != "genesis" && |p.sender| > cfg.maxAddressLength then Some(SenderTooLong)
    else if |p.recipient| < cfg.minAddressLength then Some(RecipientTooShort)
    else if |p.recipient| > cfg.maxAddressLength then Some(RecipientTooLong)
    else None
  }

  function SenderError(cfg: Config, g: Gate, tx: Tx): Option<Error> {
    var s := SenderOf(g, tx.payload.sender);
    if cfg.trackSequence && !(tx.timestamp > s.lastConfirmed || tx.timestamp in s.pending) then Some(InvalidSequence)
    else if tx.payload.sender in g.senders && |s.pending| >= cfg.maxPending then Some(TooManyPending)
    else None
  }

  /** Why a transaction is refused, in the order of the checks. */
  function Refusal(cfg: Config, digest: Digest, g: Gate, tx: Tx, now: nat): Option<Error> {
    if FormatError(tx).Some? then FormatError(tx)
    else if tx.id in g.ids then Some(DuplicateId)
    else if digest(tx.payload) in g.contents then Some(DuplicateContent)
    else if TimestampError(cfg, tx, now).Some? then TimestampError(cfg, tx, now)
    else if AmountError(cfg, tx.payload).Some? then AmountError(cfg, tx.payload)
    else if AddressError(cfg, tx.payload).Some? then AddressError(cfg, tx.payload)
    else SenderError(cfg, g, tx)
  }

  function Record(cfg: Config, digest: Digest, g: Gate, tx: Tx, now: nat): Gate {
    var s := SenderOf(g, tx.payload.sender);
    var s' := if cfg.trackSequence && |s.pending| < 100 then s.(pending := s.pending + [tx.timestamp]) else s;
    Gate(g.ids[tx.id := now], g.contents[digest(tx.payload) := now], g.senders[tx.payload.sender := s'])
  }

  function Keep(m: map<string, nat>, maxAge: nat, now: nat): map<string, nat> {
    map k | k in m && now - m[k] < maxAge :: m[k]
  }

  function Forget(g: Gate, maxAge: nat, now: nat): Gate {
    g.(ids := Keep(g.ids, maxAge, now), contents := Keep(g.contents, maxAge, now))
  }

  function Confirm(g: Gate, tx: Tx): Gate {
    var who := tx.payload.sender;
    if who in g.senders then
      g.(senders := g.senders[who := Sender(tx.timestamp, Without(g.senders[who].pending, tx.timestamp))])
    else g
  }

  function Without(s: seq<nat>, x: nat): seq<nat> {
    if s == [] then [] else (if s[0] == x then [] else [s[0]]) + Without(s[1..], x)
  }

  // ---------------------------------------------------------------------------------------------
  // Runs

  /** A submission reads the clock twice: for the timestamp check and for the record. */
  datatype Step =
    | Submit(tx: Tx, check: nat, record: nat)
    | Confirmed(tx: Tx)
    | CleanUp(maxAge: nat, now: nat)

  datatype Entry = Entry(tx: Tx, check: nat, record: nat)

  /** The gate, the clock and everything accepted so far. */
  datatype Run = Run(gate: Gate, clock: nat, accepted: seq<Entry>)
  const START := Run(EMPTY, 0, [])

  predicate Timely(clock: nat, step: Step) {
    match step
    case Submit(_, check, record) => clock <= check <= record
    case Confirmed(_) => true
    case CleanUp(_, now) => clock <= now
  }

  function Next(cfg: Config, digest: Digest, r: Run, step: Step): Run {
    match step
    case Submit(tx, check, record) =>
      if Refusal(cfg, digest, r.gate, tx, check).None? then
        Run(Record(cfg, digest, r.gate, tx, record), record, r.accepted + [Entry(tx, check, record)])
      else r.(clock := record)
    case Confirmed(tx) => r.(gate := Confirm(r.gate, tx))
    case CleanUp(maxAge, now) => Run(Forget(r.gate, maxAge, now), now, r.accepted)
  }

  function After(cfg: Config, digest: Digest, steps: seq<Step>): Run {
    if steps == [] then START else Next(cfg, digest, After(cfg, digest, steps[..|steps| - 1]), steps[|steps| - 1])
  }

  /** The clock never runs backwards. */
  ghost predicate WellTimed(cfg: Config, digest: Digest, steps: seq<Step>) {
    steps == [] || (
      && WellTimed(cfg, digest, steps[..|steps| - 1])
      && Timely(After(cfg, digest, steps[..|steps| - 1]).clock, steps[|steps| - 1]))
  }

  /** Every clean-up keeps what is younger than `maxAge`, or more. */
  ghost predicate CleanUpsFrom(steps: seq<Step>, maxAge: nat) {
    forall i :: 0 <= i < |steps| && steps[i].CleanUp? ==> steps[i].maxAge >= maxAge
  }

  // ---------------------------------------------------------------------------------------------
  // No replay

  /** For how long, counted from its first acceptance, the timestamp of a transaction can be acceptable. */
  function Lifetime(cfg: Config, tx: Tx): nat {
    cfg.maxPastAge + if tx.timestamp < cfg.maxFutureDrift then tx.timestamp else cfg.maxFutureDrift
  }

  /** An accepted transaction is still remembered, or too old to be accepted again. */
  ghost predicate Guarded(cfg: Config, r: Run, e: Entry) {
    && e.record <= r.clock && e.tx.timestamp <= e.record + cfg.maxFutureDrift
    && (|| (e.tx.id in r.gate.ids && e.record <= r.gate.ids[e.tx.id])
        || r.clock > e.tx.timestamp + cfg.maxPastAge)
  }

  ghost predicate SameTx(a: Entry, b: Entry) {
    a.tx.id == b.tx.id && a.tx.timestamp == b.tx.timestamp
  }

  ghost predicate ReplayInv(cfg: Config, maxAge: nat, r: Run) {
    && (forall i :: 0 <= i < |r.accepted| && maxAge > Lifetime(cfg, r.accepted[i].tx) ==>
          Guarded(cfg, r, r.accepted[i]))
    && (forall id :: id in r.gate.ids ==> r.gate.ids[id] <= r.clock)
    && (forall i, j :: 0 <= i < j < |r.accepted| && maxAge > Lifetime(cfg, r.accepted[i].tx) ==>
          !SameTx(r.accepted[i], r.accepted[j]))
  }

  lemma {:induction false} SubmitKeepsInv(cfg: Config, digest: Digest, maxAge: nat, r: Run, tx: Tx,
                                          check: nat, record: nat)
    requires ReplayInv(cfg, maxAge, r) && r.clock <= check <= record
    ensures ReplayInv(cfg, maxAge, Next(cfg, digest, r, Submit(tx, check, record)))
  {
    var r' := Next(cfg, digest, r, Submit(tx, check, record));
    forall i | 0 <= i < |r'.accepted| && maxAge > Lifetime(cfg, r'.accepted[i].tx)
      ensures Guarded(cfg, r', r'.accepted[i])
    {
      if i < |r.accepted| {
        assert Guarded(cfg, r, r.accepted[i]);
      }
    }
    if Refusal(cfg, digest, r.gate, tx, check).None? {
      forall i | 0 <= i < |r.accepted| && maxAge > Lifetime(cfg, r.accepted[i].tx)
        ensures !SameTx(r.accepted[i], Entry(tx, check, record))
      {
        assert Guarded(cfg, r, r.accepted[i]);
      }
    }
  }

  lemma {:induction false} CleanUpKeepsInv(cfg: Config, digest: Digest, maxAge: nat, r: Run, age: nat, now: nat)
    requires ReplayInv(cfg, maxAge, r) && r.clock <= now && age >= maxAge
    ensures ReplayInv(cfg, maxAge, Next(cfg, digest, r, CleanUp(age, now)))
  {
    var r' := Next(cfg, digest, r, CleanUp(age, now));
    forall i | 0 <= i < |r'.accepted| && maxAge > Lifetime(cfg, r'.accepted[i].tx)
      ensures Guarded(cfg, r', r'.accepted[i])
    {
      assert Guarded(cfg, r, r.accepted[i]);
    }
  }

  lemma {:induction false} RunKeepsInv(cfg: Config, digest: Digest, maxAge: nat, steps: seq<Step>)
    requires WellTimed(cfg, digest, steps) && CleanUpsFrom(steps, maxAge)
    ensures ReplayInv(cfg, maxAge, After(cfg, digest, steps))
  {
    if steps != [] {
      var front := steps[..|steps| - 1];
      RunKeepsInv(cfg, digest, maxAge, front);
      var r := After(cfg, digest, front);
      match steps[|steps| - 1]
      case Submit(tx, check, record) => SubmitKeepsInv(cfg, digest, maxAge, r, tx, check, record);
      case Confirmed(tx) =>
        var r' := Next(cfg, digest, r, Confirmed(tx));
        forall i | 0 <= i < |r'.accepted| && maxAge > Lifetime(cfg, r'.accepted[i].tx)
          ensures Guarded(cfg, r', r'.accepted[i])
        {
          assert Guarded(cfg, r, r.accepted[i]);
        }
      case CleanUp(age, now) => CleanUpKeepsInv(cfg, digest, maxAge, r, age, now);
    }
  }

  /** No transaction is accepted twice in a run whose clean-ups keep records beyond its lifetime. */
  lemma {:induction false} NoReplay(cfg: Config, digest: Digest, maxAge: nat, steps: seq<Step>, i: nat, j: nat)
    requires WellTimed(cfg, digest, steps) && CleanUpsFrom(steps, maxAge)
    requires i < j < |After(cfg, digest, steps).accepted|
    requires maxAge > Lifetime(cfg, After(cfg, digest, steps).accepted[i].tx)
    ensures !SameTx(After(cfg, digest, steps).accepted[i], After(cfg, digest, steps).accepted[j])
  {
    RunKeepsInv(cfg, digest, maxAge, steps);
  }

  // ---------------------------------------------------------------------------------------------
  // When a replay is possible

  /** What a transaction needs besides a fresh id, a fresh content and an acceptable timestamp. */
  predicate WellFormed(cfg: Config, tx: Tx) {
    && FormatError(tx).None? && AmountError(cfg, tx.payload).None? && AddressError(cfg, tx.payload).None?
    && (cfg.trackSequence ==> tx.timestamp > 0)
  }

  ghost predicate Positive(s: seq<nat>) {
    forall i :: 0 <= i < |s| ==> s[i] > 0
  }

  ghost predicate PositiveAt(g: Gate, who: string) {
    Positive(SenderOf(g, who).pending)
  }

  /** What accepted transactions have in common. */
  ghost predicate Sound(cfg: Config, g: Gate, e: Entry) {
    WellFormed(cfg, e.tx) && e.tx.payload.sender in g.senders
  }

  ghost predicate SoundInv(cfg: Config, r: Run) {
    && (forall i :: 0 <= i < |r.accepted| ==> Sound(cfg, r.gate, r.accepted[i]))
    && (cfg.trackSequence ==> forall who :: PositiveAt(r.gate, who))
    && (cfg.maxPending == 0 ==> forall i, j :: 0 <= i < j < |r.accepted| ==>
          r.accepted[i].tx.payload.sender != r.accepted[j].tx.payload.sender)
  }

  lemma {:induction false} WithoutMembers(s: seq<nat>, x: nat)
    requires Positive(s)
    ensures Positive(Without(s, x))
  {
    if s != [] {
      WithoutMembers(s[1..], x);
    }
  }

  lemma {:induction false} StepIsSound(cfg: Config, digest: Digest, r: Run, step: Step)
    requires SoundInv(cfg, r)
    ensures SoundInv(cfg, Next(cfg, digest, r, step))
  {
    var r' := Next(cfg, digest, r, step);
    if step.Submit? && cfg.trackSequence {
      assert PositiveAt(r.gate, step.tx.payload.sender);
    }
    if cfg.trackSequence {
      forall who ensures PositiveAt(r'.gate, who) {
        assert PositiveAt(r.gate, who);
        if step.Confirmed? {
          WithoutMembers(SenderOf(r.gate, who).pending, step.tx.timestamp);
        }
      }
    }
    forall i | 0 <= i < |r'.accepted| ensures Sound(cfg, r'.gate, r'.accepted[i]) {
      if i < |r.accepted| {
        assert Sound(cfg, r.gate, r.accepted[i]);
      }
    }
    if cfg.maxPending == 0 && |r'.accepted| > |r.accepted| {
      forall i | 0 <= i < |r.accepted| ensures r.accepted[i].tx.payload.sender != step.tx.payload.sender {
        assert Sound(cfg, r.gate, r.accepted[i]);
      }
    }
  }

  lemma {:induction false} RunIsSound(cfg: Config, digest: Digest, steps: seq<Step>)
    ensures SoundInv(cfg, After(cfg, digest, steps))
  {
    if steps != [] {
      RunIsSound(cfg, digest, steps[..|steps| - 1]);
      StepIsSound(cfg, digest, After(cfg, digest, steps[..|steps| - 1]), steps[|steps| - 1]);
    }
  }

  lemma {:induction false} FreshIsAccepted(cfg: Config, digest: Digest, g: Gate, tx: Tx, now: nat)
    requires WellFormed(cfg, tx) && tx.id !in g.ids && digest(tx.payload) !in g.contents
    requires tx.timestamp <= now + cfg.maxFutureDrift && now <= tx.timestamp + cfg.maxPastAge
    requires SenderOf(g, tx.payload.sender) == NEW_SENDER && (tx.payload.sender in g.senders ==> cfg.maxPending >= 1)
    ensures Refusal(cfg, digest, g, tx, now).None?
  {
  }

  lemma {:induction false} AfterExtends(cfg: Config, digest: Digest, steps: seq<Step>, step: Step)
    requires WellTimed(cfg, digest, steps) && Timely(After(cfg, digest, steps).clock, step)
    ensures After(cfg, digest, steps + [step]) == Next(cfg, digest, After(cfg, digest, steps), step)
    ensures WellTimed(cfg, digest, steps + [step])
  {
    assert (steps + [step])[..|steps|] == steps;
  }

  /** The first moment at which the timestamp is not too far ahead. */
  function Earliest(cfg: Config, tx: Tx): nat {
    if tx.timestamp < cfg.maxFutureDrift then 0 else tx.timestamp - cfg.maxFutureDrift
  }

  /** The transaction is accepted and confirmed, and then one that its sender dated at zero is confirmed. */
  function Prelude(cfg: Config, tx: Tx): seq<Step> {
    [Submit(tx, Earliest(cfg, tx), Earliest(cfg, tx))] + [Confirmed(tx)] + [Confirmed(tx.(timestamp := 0))]
  }

  /** Then its records are cleaned up and it is submitted again. */
  function ReplayRun(cfg: Config, tx: Tx, maxAge: nat): seq<Step> {
    var later := Earliest(cfg, tx) + maxAge;
    Prelude(cfg, tx) + [CleanUp(maxAge, later)] + [Submit(tx, later, later)]
  }

  lemma {:induction false} PreludeClearsSender(cfg: Config, digest: Digest, tx: Tx)
    requires WellFormed(cfg, tx)
    ensures WellTimed(cfg, digest, Prelude(cfg, tx))
    ensures var (r, t0) := (After(cfg, digest, Prelude(cfg, tx)), Earliest(cfg, tx));
            && r.accepted == [Entry(tx, t0, t0)] && r.clock == t0 && SenderOf(r.gate, tx.payload.sender) == NEW_SENDER
            && r.gate.ids == map[tx.id := t0] && r.gate.contents == map[digest(tx.payload) := t0]
  {
    var t0 := Earliest(cfg, tx);
    var first, second, third := Submit(tx, t0, t0), Confirmed(tx), Confirmed(tx.(timestamp := 0));
    FreshIsAccepted(cfg, digest, EMPTY, tx, t0);
    AfterExtends(cfg, digest, [], first);
    assert [] + [first] == [first];
    AfterExtends(cfg, digest, [first], second);
    AfterExtends(cfg, digest, [first] + [second], third);
    assert [] + [tx.timestamp] == [tx.timestamp] && Without([tx.timestamp], tx.timestamp) == [];
  }

  lemma {:induction false} ReplayRunAcceptsTwice(cfg: Config, digest: Digest, tx: Tx, maxAge: nat)
    requires WellFormed(cfg, tx) && cfg.maxPending >= 1 && maxAge <= Lifetime(cfg, tx)
    ensures AcceptsTwice(cfg, digest, tx, maxAge, ReplayRun(cfg, tx, maxAge), 0, 1)
  {
    var steps, later := Prelude(cfg, tx), Earliest(cfg, tx) + maxAge;
    PreludeClearsSender(cfg, digest, tx);
    var r := After(cfg, digest, steps);
    AfterExtends(cfg, digest, steps, CleanUp(maxAge, later));
    assert Keep(r.gate.ids, maxAge, later) == map[] && Keep(r.gate.contents, maxAge, later) == map[];
    AfterExtends(cfg, digest, steps + [CleanUp(maxAge, later)], Submit(tx, later, later));
    FreshIsAccepted(cfg, digest, Forget(r.gate, maxAge, later), tx, later);
  }

  ghost predicate AcceptsTwice(cfg: Config, digest: Digest, tx: Tx, maxAge: nat, steps: seq<Step>, i: nat, j: nat) {
    && WellTimed(cfg, digest, steps) && CleanUpsFrom(steps, maxAge)
    && i < j < |After(cfg, digest, steps).accepted|
    && After(cfg, digest, steps).accepted[i].tx == tx == After(cfg, digest, steps).accepted[j].tx
  }

  /**
   * Some run whose clean-ups keep records for `maxAge` accepts a transaction twice if and only if it
   * is well formed, senders may have a pending transaction, and its lifetime is no shorter.
   */
  lemma {:induction false} ReplayExactly(cfg: Config, digest: Digest, tx: Tx, maxAge: nat)
    ensures (exists steps, i: nat, j: nat :: AcceptsTwice(cfg, digest, tx, maxAge, steps, i, j))
       <==> WellFormed(cfg, tx) && cfg.maxPending >= 1 && maxAge <= Lifetime(cfg, tx)
  {
    forall steps, i: nat, j: nat | AcceptsTwice(cfg, digest, tx, maxAge, steps, i, j)
      ensures WellFormed(cfg, tx) && cfg.maxPending >= 1 && maxAge <= Lifetime(cfg, tx)
    {
      var r := After(cfg, digest, steps);
      RunIsSound(cfg, digest, steps);
      assert Sound(cfg, r.gate, r.accepted[i]);
      if maxAge > Lifetime(cfg, tx) {
        NoReplay(cfg, digest, maxAge, steps, i, j);
      }
    }
    if WellFormed(cfg, tx) && cfg.maxPending >= 1 && maxAge <= Lifetime(cfg, tx) {
      ReplayRunAcceptsTwice(cfg, digest, tx, maxAge);
    }
  }

  // ---------------------------------------------------------------------------------------------
  // Between clean-ups

  ghost predicate AllSeen(digest: Digest, r: Run) {
    && (forall i :: 0 <= i < |r.accepted| ==>
          r.accepted[i].tx.id in r.gate.ids && digest(r.accepted[i].tx.payload) in r.gate.contents)
    && (forall i, j :: 0 <= i < j < |r.accepted| ==>
          r.accepted[i].tx.id != r.accepted[j].tx.id && r.accepted[i].tx.payload != r.accepted[j].tx.payload)
  }

  /** Without clean-ups no two accepted transactions share an id or a content, whatever the digest collides on. */
  lemma {:induction false} NoDuplicates(cfg: Config, digest: Digest, steps: seq<Step>)
    requires forall i :: 0 <= i < |steps| ==> !steps[i].CleanUp?
    ensures AllSeen(digest, After(cfg, digest, steps))
  {
    if steps != [] {
      NoDuplicates(cfg, digest, steps[..|steps| - 1]);
    }
  }

  // ---------------------------------------------------------------------------------------------
  // The gate object

  class TransactionValidator {
    const cfg: Config
    const digest: Digest
    var ids: map<string, nat>
    var contents: map<string, nat>
    var senders: map<string, Sender>

    ghost function View(): Gate
      reads this
    {
      Gate(ids, contents, senders)
    }

    constructor (cfg: Config, digest: Digest)
      ensures View() == EMPTY && this.cfg == cfg && this.digest == digest
    {
      this.cfg, this.digest := cfg, digest;
      ids, contents, senders := map[], map[], map[];
    }

    /** `validate`: the first failed check, or none and the transaction is recorded. */
    method Validate(tx: Tx, check: nat, record: nat) returns (e: Option<Error>)
      requires check <= record
      modifies this
      ensures e == Refusal(cfg, digest, old(View()), tx, check)
      ensures View() == if e.None? then Record(cfg, digest, old(View()), tx, record) else old(View())
    {
      e := FormatError(tx);
      if e.Some? {
        return;
      }
      if tx.id in ids {
        return Some(DuplicateId);
      }
      var key := digest(tx.payload);
      if key in contents {
        return Some(DuplicateContent);
      }
      e := TimestampError(cfg, tx, check);
      if e.None? {
        e := AmountError(cfg, tx.payload);
      }
      if e.None? {
        e := AddressError(cfg, tx.payload);
      }
      if e.None? {
        e := SenderError(cfg, Gate(ids, contents, senders), tx);
      }
      if e.Some? {
        return;
      }
      ids := ids[tx.id := record];
      contents := contents[key := record];
      var who := tx.payload.sender;
      if who !in senders {
        senders := senders[who := NEW_SENDER];
      }
      if cfg.trackSequence && |senders[who].pending| < 100 {
        senders := senders[who := senders[who].(pending := senders[who].pending + [tx.timestamp])];
      }
    }

    method ConfirmTransaction(tx: Tx)
      modifies this
      ensures View() == Confirm(old(View()), tx)
    {
      var who := tx.payload.sender;
      if who in senders {
        senders := senders[who := Sender(tx.timestamp, Without(senders[who].pending, tx.timestamp))];
      }
    }

    /** Drop every record that is at least `maxAge` old. */
    method CleanupOldRecords(maxAge: nat, now: nat)
      requires forall id :: id in ids ==> ids[id] <= now
      requires forall key :: key in contents ==> contents[key] <= now
      modifies this
      ensures View() == Forget(old(View()), maxAge, now)
    {
      ids := map k | k in ids && now - ids[k] < maxAge :: ids[k];
      contents := map k | k in contents && now - contents[k] < maxAge :: contents[k];
    }
  }
}
