/**
 * Replays in runs that confirm only what was accepted (`confirm_transaction` in
 * src/transaction_validation.rs takes any transaction). With sequence tracking and room for a single
 * pending transaction the sequence then moves forward only, so the condition of
 * `ReplayGate.ReplayExactly` gets stricter by one pending transaction.
 */
module ReplayConfirmations {
  import opened Wrappers
  import opened Words
  import opened ReplayGate

  /** What has been accepted and not been confirmed yet. */
  ghost function WaitingAfter(cfg: Config, digest: Digest, r: Run, waiting: multiset<Tx>, step: Step): multiset<Tx> {
    match step
    case Submit(tx, check, _) =>
      if Refusal(cfg, digest, r.gate, tx, check).None? then waiting + multiset{tx} else waiting
    case Confirmed(tx) => waiting - multiset{tx}
    case CleanUp(_, _) => waiting
  }

  ghost function Waiting(cfg: Config, digest: Digest, steps: seq<Step>): multiset<Tx> {
    if steps == [] then multiset{}
    else
      var front := steps[..|steps| - 1];
      WaitingAfter(cfg, digest, After(cfg, digest, front), Waiting(cfg, digest, front), steps[|steps| - 1])
  }

  ghost predicate MayConfirm(waiting: multiset<Tx>, step: Step) {
    step.Confirmed? ==> step.tx in waiting
  }

  /** Every confirmation is of a transaction that was accepted and is waiting for it. */
  ghost predicate ConfirmsAccepted(cfg: Config, digest: Digest, steps: seq<Step>) {
    steps == [] || (
      && ConfirmsAccepted(cfg, digest, steps[..|steps| - 1])
      && MayConfirm(Waiting(cfg, digest, steps[..|steps| - 1]), steps[|steps| - 1]))
  }

  // ---------------------------------------------------------------------------------------------
  // One pending transaction

  /** The latest timestamp accepted from a sender with at most one pending transaction. */
  function Top(s: Sender): nat {
    if s.pending == [] then s.lastConfirmed else s.pending[0]
  }

  ghost predicate FromBelow(e: Entry, who: string, top: nat) {
    e.tx.payload.sender == who ==> e.tx.timestamp <= top
  }

  /** All of a sender's accepted transactions are at most at its top, and only the top one can wait. */
  ghost predicate SingleFor(r: Run, waiting: multiset<Tx>, who: string) {
    var s := SenderOf(r.gate, who);
    && |s.pending| <= 1
    && (forall i :: 0 <= i < |r.accepted| ==> FromBelow(r.accepted[i], who, Top(s)))
    && (forall tx :: tx in waiting && tx.payload.sender == who ==> s.pending == [tx.timestamp] && waiting[tx] == 1)
    && (forall t, u :: t in waiting && u in waiting && t.payload.sender == u.payload.sender == who ==> t == u)
  }

  ghost predicate Rising(a: Entry, b: Entry) {
    a.tx.payload.sender == b.tx.payload.sender ==> a.tx.timestamp < b.tx.timestamp
  }

  /** The timestamps accepted from one sender rise. */
  ghost predicate SingleInv(r: Run, waiting: multiset<Tx>) {
    && (forall who :: SingleFor(r, waiting, who))
    && (forall i, j :: 0 <= i < j < |r.accepted| ==> Rising(r.accepted[i], r.accepted[j]))
  }

  ghost predicate Tracks(cfg: Config) {
    cfg.trackSequence && cfg.maxPending <= 1
  }

  /** A transaction is accepted only from a sender with nothing pending, and above its top. */
  lemma {:induction false} AcceptedIsAbove(cfg: Config, digest: Digest, r: Run, waiting: multiset<Tx>, tx: Tx, now: nat)
    requires Tracks(cfg) && SingleFor(r, waiting, tx.payload.sender) && Refusal(cfg, digest, r.gate, tx, now).None?
    ensures SenderOf(r.gate, tx.payload.sender).pending == []
    ensures tx.timestamp > Top(SenderOf(r.gate, tx.payload.sender))
  {
  }

  lemma {:induction false} SubmitKeepsSingle(cfg: Config, digest: Digest, r: Run, waiting: multiset<Tx>, step: Step,
                                             who: string)
    requires Tracks(cfg) && step.Submit? && SingleFor(r, waiting, who)
    ensures SingleFor(Next(cfg, digest, r, step), WaitingAfter(cfg, digest, r, waiting, step), who)
  {
    if Refusal(cfg, digest, r.gate, step.tx, step.check).None? {
      var r', w' := Next(cfg, digest, r, step), WaitingAfter(cfg, digest, r, waiting, step);
      if who == step.tx.payload.sender {
        AcceptedIsAbove(cfg, digest, r, waiting, step.tx, step.check);
        assert SenderOf(r'.gate, who).pending == [step.tx.timestamp];
      }
      forall i | 0 <= i < |r'.accepted| ensures FromBelow(r'.accepted[i], who, Top(SenderOf(r'.gate, who))) {
        if i < |r.accepted| {
          assert FromBelow(r.accepted[i], who, Top(SenderOf(r.gate, who)));
        }
      }
    }
  }

  lemma {:induction false} ConfirmKeepsSingle(cfg: Config, digest: Digest, r: Run, waiting: multiset<Tx>, tx: Tx,
                                              who: string)
    requires tx in waiting && SingleFor(r, waiting, who) && SingleFor(r, waiting, tx.payload.sender)
    ensures SingleFor(Next(cfg, digest, r, Confirmed(tx)), waiting - multiset{tx}, who)
  {
    var r' := Next(cfg, digest, r, Confirmed(tx));
    if who == tx.payload.sender {
      assert SenderOf(r.gate, who).pending == [tx.timestamp];
      assert Without([tx.timestamp], tx.timestamp) == [];
    }
    assert Top(SenderOf(r'.gate, who)) == Top(SenderOf(r.gate, who));
    forall i | 0 <= i < |r'.accepted| ensures FromBelow(r'.accepted[i], who, Top(SenderOf(r'.gate, who))) {
      assert FromBelow(r.accepted[i], who, Top(SenderOf(r.gate, who)));
    }
  }

  lemma {:induction false} StepKeepsRising(cfg: Config, digest: Digest, r: Run, waiting: multiset<Tx>, step: Step)
    requires Tracks(cfg) && SingleInv(r, waiting)
    ensures var r' := Next(cfg, digest, r, step);
            forall i, j :: 0 <= i < j < |r'.accepted| ==> Rising(r'.accepted[i], r'.accepted[j])
  {
    var r' := Next(cfg, digest, r, step);
    if |r'.accepted| > |r.accepted| {
      assert SingleFor(r, waiting, step.tx.payload.sender);
      AcceptedIsAbove(cfg, digest, r, waiting, step.tx, step.check);
      forall i, j | 0 <= i < j < |r'.accepted| ensures Rising(r'.accepted[i], r'.accepted[j]) {
        if j == |r.accepted| {
          assert FromBelow(r.accepted[i], step.tx.payload.sender, Top(SenderOf(r.gate, step.tx.payload.sender)));
        } else {
          assert Rising(r.accepted[i], r.accepted[j]);
        }
      }
    }
  }

  lemma {:induction false} StepKeepsSingle(cfg: Config, digest: Digest, r: Run, waiting: multiset<Tx>, step: Step)
    requires Tracks(cfg) && SingleInv(r, waiting) && MayConfirm(waiting, step)
    ensures SingleInv(Next(cfg, digest, r, step), WaitingAfter(cfg, digest, r, waiting, step))
  {
    StepKeepsRising(cfg, digest, r, waiting, step);
    forall who ensures SingleFor(Next(cfg, digest, r, step), WaitingAfter(cfg, digest, r, waiting, step), who) {
      assert SingleFor(r, waiting, who);
      match step
      case Submit(_, _, _) => SubmitKeepsSingle(cfg, digest, r, waiting, step, who);
      case Confirmed(tx) =>
        assert SingleFor(r, waiting, tx.payload.sender);
        ConfirmKeepsSingle(cfg, digest, r, waiting, tx, who);
      case CleanUp(_, _) =>
    }
  }

  lemma {:induction false} RunKeepsSingle(cfg: Config, digest: Digest, steps: seq<Step>)
    requires Tracks(cfg) && ConfirmsAccepted(cfg, digest, steps)
    ensures SingleInv(After(cfg, digest, steps), Waiting(cfg, digest, steps))
  {
    if steps != [] {
      var front := steps[..|steps| - 1];
      RunKeepsSingle(cfg, digest, front);
      StepKeepsSingle(cfg, digest, After(cfg, digest, front), Waiting(cfg, digest, front), steps[|steps| - 1]);
    }
  }

  // ---------------------------------------------------------------------------------------------
  // When a replay is possible

  /** How many pending transactions of a sender it takes. */
  function Needed(cfg: Config): nat {
    if cfg.trackSequence then 2 else 1
  }

  /** Accepted, cleaned up and submitted again, with no confirmation in between. */
  function PlainReplay(cfg: Config, tx: Tx, maxAge: nat): seq<Step> {
    var later := Earliest(cfg, tx) + maxAge;
    [Submit(tx, Earliest(cfg, tx), Earliest(cfg, tx))] + [CleanUp(maxAge, later)] + [Submit(tx, later, later)]
  }

  lemma {:induction false} NoConfirmationNeeded(cfg: Config, digest: Digest, steps: seq<Step>)
    requires forall i :: 0 <= i < |steps| ==> !steps[i].Confirmed?
    ensures ConfirmsAccepted(cfg, digest, steps)
  {
    if steps != [] {
      NoConfirmationNeeded(cfg, digest, steps[..|steps| - 1]);
    }
  }

  lemma {:induction false} FirstSubmit(cfg: Config, digest: Digest, tx: Tx, t0: nat)
    requires WellFormed(cfg, tx) && t0 == Earliest(cfg, tx)
    ensures var steps := [Submit(tx, t0, t0)];
            && WellTimed(cfg, digest, steps)
            && After(cfg, digest, steps) == Run(Record(cfg, digest, EMPTY, tx, t0), t0, [Entry(tx, t0, t0)])
  {
    var first := Submit(tx, t0, t0);
    FreshIsAccepted(cfg, digest, EMPTY, tx, t0);
    AfterExtends(cfg, digest, [], first);
    assert [] + [first] == [first];
  }

  lemma {:induction false} FirstRecord(cfg: Config, digest: Digest, tx: Tx, t0: nat, maxAge: nat)
    ensures var g := Forget(Record(cfg, digest, EMPTY, tx, t0), maxAge, t0 + maxAge);
            && g.ids == map[] && g.contents == map[]
            && SenderOf(g, tx.payload.sender) == Sender(0, if cfg.trackSequence then [tx.timestamp] else [])
  {
    assert [] + [tx.timestamp] == [tx.timestamp];
  }

  lemma {:induction false} SubmitThenForget(cfg: Config, digest: Digest, tx: Tx, t0: nat, maxAge: nat)
    requires WellFormed(cfg, tx) && t0 == Earliest(cfg, tx)
    ensures var steps := [Submit(tx, t0, t0)] + [CleanUp(maxAge, t0 + maxAge)];
            var r := After(cfg, digest, steps);
            && WellTimed(cfg, digest, steps) && r.accepted == [Entry(tx, t0, t0)] && r.clock == t0 + maxAge
            && r.gate.ids == map[] && r.gate.contents == map[]
            && SenderOf(r.gate, tx.payload.sender) == Sender(0, if cfg.trackSequence then [tx.timestamp] else [])
  {
    FirstSubmit(cfg, digest, tx, t0);
    FirstRecord(cfg, digest, tx, t0, maxAge);
    AfterExtends(cfg, digest, [Submit(tx, t0, t0)], CleanUp(maxAge, t0 + maxAge));
  }

  lemma {:induction false} AcceptedAgain(cfg: Config, digest: Digest, g: Gate, tx: Tx, now: nat)
    requires WellFormed(cfg, tx) && cfg.maxPending >= Needed(cfg) && g.ids == map[] && g.contents == map[]
    requires tx.timestamp <= now + cfg.maxFutureDrift && now <= tx.timestamp + cfg.maxPastAge
    requires SenderOf(g, tx.payload.sender) == Sender(0, if cfg.trackSequence then [tx.timestamp] else [])
    ensures Refusal(cfg, digest, g, tx, now).None?
  {
  }

  lemma {:induction false} PlainReplayAcceptsTwice(cfg: Config, digest: Digest, tx: Tx, maxAge: nat)
    requires WellFormed(cfg, tx) && cfg.maxPending >= Needed(cfg) && maxAge <= Lifetime(cfg, tx)
    ensures AcceptsTwice(cfg, digest, tx, maxAge, PlainReplay(cfg, tx, maxAge), 0, 1)
  {
    var t0 := Earliest(cfg, tx);
    var steps, again := [Submit(tx, t0, t0)] + [CleanUp(maxAge, t0 + maxAge)], Submit(tx, t0 + maxAge, t0 + maxAge);
    SubmitThenForget(cfg, digest, tx, t0, maxAge);
    AcceptedAgain(cfg, digest, After(cfg, digest, steps).gate, tx, t0 + maxAge);
    AfterExtends(cfg, digest, steps, again);
  }

  ghost predicate AcceptsTwiceInOrder(cfg: Config, digest: Digest, tx: Tx, maxAge: nat, steps: seq<Step>,
                                      i: nat, j: nat)
  {
    AcceptsTwice(cfg, digest, tx, maxAge, steps, i, j) && ConfirmsAccepted(cfg, digest, steps)
  }

  /**
   * Some run that confirms only what was accepted, with clean-ups that keep records for `maxAge`,
   * accepts a transaction twice if and only if it is well formed, its lifetime is no shorter, and a
   * sender may have two pending transactions, or one without sequence tracking.
   */
  lemma {:induction false} OrderlyReplayExactly(cfg: Config, digest: Digest, tx: Tx, maxAge: nat)
    ensures (exists steps, i: nat, j: nat :: AcceptsTwiceInOrder(cfg, digest, tx, maxAge, steps, i, j))
       <==> WellFormed(cfg, tx) && cfg.maxPending >= Needed(cfg) && maxAge <= Lifetime(cfg, tx)
  {
    forall steps, i: nat, j: nat | AcceptsTwiceInOrder(cfg, digest, tx, maxAge, steps, i, j)
      ensures WellFormed(cfg, tx) && cfg.maxPending >= Needed(cfg) && maxAge <= Lifetime(cfg, tx)
    {
      ReplayExactly(cfg, digest, tx, maxAge);
      if Tracks(cfg) {
        RunKeepsSingle(cfg, digest, steps);
        assert Rising(After(cfg, digest, steps).accepted[i], After(cfg, digest, steps).accepted[j]);
      }
    }
    if WellFormed(cfg, tx) && cfg.maxPending >= Needed(cfg) && maxAge <= Lifetime(cfg, tx) {
      PlainReplayAcceptsTwice(cfg, digest, tx, maxAge);
      NoConfirmationNeeded(cfg, digest, PlainReplay(cfg, tx, maxAge));
      assert AcceptsTwiceInOrder(cfg, digest, tx, maxAge, PlainReplay(cfg, tx, maxAge), 0, 1);
    }
  }
}
