/**
 * The collateral and dispute registry (src/oracle_collateral.rs): oracles deposit and lock
 * collateral, a challenge moves all of it into dispute, and the vote either restores it or forfeits
 * it, with a slash recorded and the challenger rewarded. Operations are functions on registry
 * values; `Books` is the ledger an auditor would keep beside them, and `Inv` ties the two together
 * in every state a run can reach.
 */
module Bonding {
  import opened Wrappers
  import opened MapSums
  import opened Words

  const SLASHING_FACTOR := 10
  const CAP := 10_000

  datatype Pool = Pool(locked: nat, available: nat, disputed: nat, slashed: nat)
  const EMPTY_POOL := Pool(0, 0, 0, 0)

  datatype BondStatus = Pending | Active | Released
  datatype Bond = Bond(oracle: string, amount: nat, timestamp: nat, status: BondStatus)

  datatype ChallengeStatus = Waiting | Voting | Resolved | Rejected
  datatype Challenge = Challenge(
    id: nat, oracle: string, challenger: string, status: ChallengeStatus,
    votesFor: nat, votesAgainst: nat, votingEnd: nat)

  datatype Registry = Registry(
    pools: map<string, Pool>,
    bonds: seq<Bond>,
    challenges: seq<Challenge>,
    slashedTotal: nat,
    rewards: map<string, nat>,
    minCollateral: nat,
    votingPeriod: nat,
    counter: nat)

  datatype Op =
    | CreatePool(oracle: string)
    | Deposit(oracle: string, amount: nat)
    | Lock(oracle: string, amount: nat, now: nat)
    | Activate(oracle: string)
    | Dispute(oracle: string, challenger: string, now: nat)
    | Vote(id: nat, voter: string, yes: bool)
    | Resolve(id: nat, now: nat)
    | Release(oracle: string)
    | Withdraw(oracle: string, amount: nat)
    | Claim(challenger: string)
    | SetVotingPeriod(period: nat)
    | SetMinCollateral(minimum: nat)

  datatype Error =
    | PoolExists | PoolNotFound | BelowMinimum | InsufficientAvailable | InsufficientLocked
    | InsufficientDisputed | BondNotFound | NotBonded
    | AlreadyChallenged | ChallengeNotFound | NotVoting | VotingNotEnded | ActiveDisputes
    | CannotWithdraw | NoRewards

  function New(minCollateral: nat): Registry {
    Registry(map[], [], [], 0, map[], minCollateral, 259_200_000, 0)
  }

  // ---------------------------------------------------------------------------------------------
  // Lookups

  predicate OpenAt(c: Challenge, oracle: string) {
    c.oracle == oracle && c.status == Voting
  }

  predicate HasOpen(cs: seq<Challenge>, oracle: string) {
    exists i :: 0 <= i < |cs| && OpenAt(cs[i], oracle)
  }

  predicate HasUnresolved(cs: seq<Challenge>, oracle: string) {
    exists i :: 0 <= i < |cs| && cs[i].oracle == oracle && cs[i].status != Resolved
  }

  predicate HasActiveBond(bonds: seq<Bond>, oracle: string) {
    exists i :: 0 <= i < |bonds| && bonds[i].oracle == oracle && bonds[i].status == Active
  }

  /** The position of the first challenge with this id, or the length when there is none. */
  function IndexOf(cs: seq<Challenge>, id: nat): (i: nat)
    ensures i <= |cs|
    ensures i < |cs| ==> cs[i].id == id
    ensures forall k :: 0 <= k < i ==> cs[k].id != id
  {
    if cs == [] then 0
    else if cs[0].id == id then 0
    else
      var rest := cs[1..];
      assert forall k :: 1 <= k < |cs| ==> cs[k] == rest[k - 1];
      1 + IndexOf(rest, id)
  }

  function BondOf(bonds: seq<Bond>, oracle: string): (i: nat)
    ensures i <= |bonds|
    ensures i < |bonds| ==> bonds[i].oracle == oracle
    ensures forall k :: 0 <= k < i ==> bonds[k].oracle != oracle
  {
    if bonds == [] then 0
    else if bonds[0].oracle == oracle then 0
    else
      var rest := bonds[1..];
      assert forall k :: 1 <= k < |bonds| ==> bonds[k] == rest[k - 1];
      1 + BondOf(rest, oracle)
  }

  function StillPending(bonds: seq<Bond>): seq<Bond> {
    if bonds == [] then []
    else
      var last := bonds[|bonds| - 1];
      StillPending(bonds[..|bonds| - 1]) + (if last.status == Pending then [last] else [])
  }

  function StillVoting(cs: seq<Challenge>): seq<Challenge> {
    if cs == [] then []
    else
      var last := cs[|cs| - 1];
      StillVoting(cs[..|cs| - 1]) + (if last.status == Voting then [last] else [])
  }

  function Weight(pools: map<string, Pool>, voter: string): (w: nat)
    ensures 1 <= w <= 10
  {
    if voter in pools then
      var p := pools[voter];
      var total := p.locked + p.available + p.disputed;
      var reputation := (if total < 1 then 1 else total) / 100;
      if 1 + reputation < 10 then 1 + reputation else 10
    else 1
  }

  // ---------------------------------------------------------------------------------------------
  // One operation

  function Refusal(s: Registry, op: Op): Option<Error> {
    match op
    case CreatePool(oracle) => if oracle in s.pools then Some(PoolExists) else None
    case Deposit(_, _) => None
    case Lock(oracle, amount, _) =>
      if amount < s.minCollateral then Some(BelowMinimum)
      else if oracle !in s.pools then Some(PoolNotFound)
      else if s.pools[oracle].available < amount then Some(InsufficientAvailable)
      else None
    case Activate(oracle) => if BondOf(s.bonds, oracle) < |s.bonds| then None else Some(BondNotFound)
    case Dispute(oracle, _, _) =>
      if !HasActiveBond(s.bonds, oracle) then Some(NotBonded)
      else if HasOpen(s.challenges, oracle) then Some(AlreadyChallenged)
      else None
    case Vote(id, _, _) =>
      var i := IndexOf(s.challenges, id);
      if i == |s.challenges| then Some(ChallengeNotFound)
      else if s.challenges[i].status != Voting then Some(NotVoting)
      else None
    case Resolve(id, now) =>
      var i := IndexOf(s.challenges, id);
      if i == |s.challenges| then Some(ChallengeNotFound)
      else if s.challenges[i].status != Voting then Some(NotVoting)
      else if now < s.challenges[i].votingEnd then Some(VotingNotEnded)
      else None
    case Release(oracle) =>
      if HasUnresolved(s.challenges, oracle) then Some(ActiveDisputes)
      else if oracle !in s.pools then Some(PoolNotFound)
      else None
    case Withdraw(oracle, amount) =>
      if oracle !in s.pools then Some(PoolNotFound)
      else if !(s.pools[oracle].available >= amount && s.pools[oracle].disputed == 0) then Some(CannotWithdraw)
      else None
    case Claim(challenger) => if challenger in s.rewards then None else Some(NoRewards)
    case SetVotingPeriod(_) => None
    case SetMinCollateral(_) => None
  }

  function PoolOf(s: Registry, oracle: string): Pool {
    if oracle in s.pools then s.pools[oracle] else EMPTY_POOL
  }

  function RewardOf(s: Registry, challenger: string): nat {
    if challenger in s.rewards then s.rewards[challenger] else 0
  }

  /** All locked collateral goes into dispute. */
  function Disputed(p: Pool): Pool {
    Pool(0, p.available, p.disputed + p.locked, p.slashed)
  }

  /** All disputed collateral becomes available again. */
  function Restored(p: Pool): Pool {
    Pool(p.locked, p.available + p.disputed, 0, p.slashed)
  }

  function SlashOf(disputed: nat): nat {
    disputed * SLASHING_FACTOR / 100
  }

  /** All disputed collateral is gone; a tenth of it is recorded as slashed. */
  function Forfeited(p: Pool): Pool {
    Pool(p.locked, p.available, 0, p.slashed + SlashOf(p.disputed))
  }

  function Locked(s: Registry, oracle: string, amount: nat, now: nat): Registry
    requires oracle in s.pools && s.pools[oracle].available >= amount
  {
    var p := s.pools[oracle];
    var kept := if |s.bonds| >= CAP then StillPending(s.bonds) else s.bonds;
    s.(pools := s.pools[oracle := p.(available := p.available - amount, locked := p.locked + amount)],
       bonds := kept + [Bond(oracle, amount, now, Pending)])
  }

  function Challenged(s: Registry, oracle: string, challenger: string, now: nat): Registry {
    var kept := if |s.challenges| >= CAP then StillVoting(s.challenges) else s.challenges;
    s.(pools := if oracle in s.pools then s.pools[oracle := Disputed(s.pools[oracle])] else s.pools,
       challenges := kept + [Challenge(s.counter, oracle, challenger, Voting, 0, 0, now + s.votingPeriod)],
       counter := s.counter + 1)
  }

  function Voted(s: Registry, i: nat, voter: string, yes: bool): Registry
    requires i < |s.challenges|
  {
    var c := s.challenges[i];
    var w := Weight(s.pools, voter);
    s.(challenges := s.challenges[i :=
         if yes then c.(votesFor := c.votesFor + w) else c.(votesAgainst := c.votesAgainst + w)])
  }

  predicate Accepted(c: Challenge) {
    c.votesFor > c.votesAgainst
  }

  /** The challenger's share: a twentieth of the slash. */
  function RewardFor(disputed: nat): nat {
    SlashOf(disputed) * 5 / 100
  }

  function Slashed(s: Registry, oracle: string, challenger: string): Registry
    requires oracle in s.pools
  {
    var disputed := s.pools[oracle].disputed;
    s.(pools := s.pools[oracle := Forfeited(s.pools[oracle])],
       rewards := s.rewards[challenger := RewardOf(s, challenger) + RewardFor(disputed)],
       slashedTotal := s.slashedTotal + SlashOf(disputed))
  }

  function Closed(s: Registry, i: nat): Registry
    requires i < |s.challenges|
  {
    s.(challenges := s.challenges[i := s.challenges[i].(status := Resolved)])
  }

  function Settled(s: Registry, i: nat): Registry
    requires i < |s.challenges|
  {
    var c := s.challenges[i];
    var closed := Closed(s, i);
    if c.oracle !in s.pools then closed
    else if Accepted(c) then Slashed(closed, c.oracle, c.challenger)
    else closed.(pools := s.pools[c.oracle := Restored(s.pools[c.oracle])])
  }

  function Effect(s: Registry, op: Op): Registry
    requires Refusal(s, op).None?
  {
    match op
    case CreatePool(oracle) => s.(pools := s.pools[oracle := EMPTY_POOL])
    case Deposit(oracle, amount) =>
      s.(pools := s.pools[oracle := PoolOf(s, oracle).(available := PoolOf(s, oracle).available + amount)])
    case Lock(oracle, amount, now) => Locked(s, oracle, amount, now)
    case Activate(oracle) =>
      var i := BondOf(s.bonds, oracle);
      s.(bonds := s.bonds[i := s.bonds[i].(status := Active)])
    case Dispute(oracle, challenger, now) => Challenged(s, oracle, challenger, now)
    case Vote(id, voter, yes) => Voted(s, IndexOf(s.challenges, id), voter, yes)
    case Resolve(id, now) => Settled(s, IndexOf(s.challenges, id))
    case Release(oracle) => s.(pools := s.pools[oracle := Restored(s.pools[oracle])])
    case Withdraw(oracle, amount) =>
      s.(pools := s.pools[oracle := s.pools[oracle].(available := s.pools[oracle].available - amount)])
    case Claim(challenger) => s.(rewards := s.rewards - {challenger})
    case SetVotingPeriod(period) => s.(votingPeriod := period)
    case SetMinCollateral(minimum) => s.(minCollateral := minimum)
  }

  function Next(s: Registry, op: Op): Registry {
    if Refusal(s, op).None? then Effect(s, op) else s
  }

  // ---------------------------------------------------------------------------------------------
  // The books beside the registry

  datatype Book = Book(deposited: nat, withdrawn: nat, forfeited: nat)
  const EMPTY_BOOK := Book(0, 0, 0)

  /** Per-oracle books, the rewards paid out and the ids of the challenges that slashed. */
  datatype Books = Books(books: map<string, Book>, claimed: nat, slashes: seq<nat>)
  const NO_BOOKS := Books(map[], 0, [])

  function Lost(book: Book, amount: nat): Book {
    book.(forfeited := book.forfeited + amount)
  }

  function BookOf(b: Books, oracle: string): Book {
    if oracle in b.books then b.books[oracle] else EMPTY_BOOK
  }

  /** What the accepted operation `op` moved in or out, seen from outside. */
  function Entered(s: Registry, b: Books, op: Op): Books
    requires Refusal(s, op).None?
  {
    match op
    case CreatePool(oracle) => b.(books := b.books[oracle := EMPTY_BOOK])
    case Deposit(oracle, amount) =>
      b.(books := b.books[oracle := BookOf(b, oracle).(deposited := BookOf(b, oracle).deposited + amount)])
    case Withdraw(oracle, amount) =>
      b.(books := b.books[oracle := BookOf(b, oracle).(withdrawn := BookOf(b, oracle).withdrawn + amount)])
    case Resolve(id, _) =>
      var c := s.challenges[IndexOf(s.challenges, id)];
      if Accepted(c) && c.oracle in s.pools then
        b.(books := b.books[c.oracle := Lost(BookOf(b, c.oracle), s.pools[c.oracle].disputed)],
           slashes := b.slashes + [id])
      else b
    case Claim(challenger) => b.(claimed := b.claimed + s.rewards[challenger])
    case _ => b
  }

  datatype State = State(registry: Registry, books: Books)

  function Step(t: State, op: Op): State {
    if Refusal(t.registry, op).None? then State(Effect(t.registry, op), Entered(t.registry, t.books, op)) else t
  }

  function Run(minCollateral: nat, ops: seq<Op>): State {
    if ops == [] then State(New(minCollateral), NO_BOOKS)
    else Step(Run(minCollateral, ops[..|ops| - 1]), ops[|ops| - 1])
  }

  // ---------------------------------------------------------------------------------------------
  // Invariants

  /** Ids ascend, and one oracle never has two challenges in voting. */
  ghost predicate Apart(a: Challenge, b: Challenge) {
    a.id < b.id && !(a.status == Voting && b.status == Voting && a.oracle == b.oracle)
  }

  ghost predicate Orderly(cs: seq<Challenge>, counter: nat) {
    && (forall i, j :: 0 <= i < j < |cs| ==> Apart(cs[i], cs[j]))
    && (forall i :: 0 <= i < |cs| ==> cs[i].id < counter)
  }

  ghost predicate Covered(s: Registry) {
    && (forall i :: 0 <= i < |s.bonds| ==> s.bonds[i].oracle in s.pools)
    && (forall i :: 0 <= i < |s.challenges| ==> s.challenges[i].oracle in s.pools)
  }

  /** Collateral is in dispute only while a challenge is open. */
  ghost predicate DisputeOpen(pools: map<string, Pool>, cs: seq<Challenge>, o: string) {
    o in pools && pools[o].disputed > 0 ==> HasOpen(cs, o)
  }

  ghost predicate DisputesOpen(pools: map<string, Pool>, cs: seq<Challenge>) {
    forall o :: DisputeOpen(pools, cs, o)
  }

  predicate Balanced(p: Pool, b: Book) {
    && b.deposited == p.locked + p.available + p.disputed + b.withdrawn + b.forfeited
    && 10 * p.slashed <= b.forfeited
  }

  ghost predicate AuditedAt(pools: map<string, Pool>, books: map<string, Book>, o: string) {
    (o in pools <==> o in books) && (o in pools && o in books ==> Balanced(pools[o], books[o]))
  }

  ghost predicate Audited(pools: map<string, Pool>, books: map<string, Book>) {
    forall o :: AuditedAt(pools, books, o)
  }

  function SlashedPart(): Pool -> nat {
    (p: Pool) => p.slashed
  }

  function ForfeitedPart(): Book -> nat {
    (b: Book) => b.forfeited
  }

  function Whole(): nat -> nat {
    (n: nat) => n
  }

  ghost predicate Totalled(s: Registry, b: Books) {
    && s.slashedTotal == SumBy(s.pools, SlashedPart())
    && 10 * s.slashedTotal <= SumBy(b.books, ForfeitedPart())
    && 20 * (SumBy(s.rewards, Whole()) + b.claimed) <= s.slashedTotal
  }

  ghost predicate SlashedOnce(cs: seq<Challenge>, counter: nat, slashes: seq<nat>) {
    && (forall i, j :: 0 <= i < j < |slashes| ==> slashes[i] != slashes[j])
    && (forall i :: 0 <= i < |slashes| ==> slashes[i] < counter)
    && (forall i :: 0 <= i < |cs| && cs[i].status == Voting ==> cs[i].id !in slashes)
  }

  ghost predicate Inv(t: State) {
    && Orderly(t.registry.challenges, t.registry.counter)
    && Covered(t.registry)
    && DisputesOpen(t.registry.pools, t.registry.challenges)
    && Audited(t.registry.pools, t.books.books)
    && Totalled(t.registry, t.books)
    && SlashedOnce(t.registry.challenges, t.registry.counter, t.books.slashes)
  }

  // ---------------------------------------------------------------------------------------------
  // Trimming the lists

  lemma {:induction false} KeptVoting(cs: seq<Challenge>, i: nat)
    requires i < |StillVoting(cs)|
    ensures StillVoting(cs)[i] in cs && StillVoting(cs)[i].status == Voting
  {
    var front := cs[..|cs| - 1];
    if i < |StillVoting(front)| {
      KeptVoting(front, i);
    }
  }

  lemma {:induction false} VotingKept(cs: seq<Challenge>, oracle: string)
    requires HasOpen(cs, oracle)
    ensures HasOpen(StillVoting(cs), oracle)
  {
    var i :| 0 <= i < |cs| && OpenAt(cs[i], oracle);
    var front := cs[..|cs| - 1];
    var kept := StillVoting(front);
    if i < |cs| - 1 {
      assert OpenAt(front[i], oracle);
      VotingKept(front, oracle);
      var k :| 0 <= k < |kept| && OpenAt(kept[k], oracle);
      assert OpenAt(StillVoting(cs)[k], oracle);
    } else {
      assert OpenAt(StillVoting(cs)[|kept|], oracle);
    }
  }

  lemma {:induction false} TrimmedIsOrderly(cs: seq<Challenge>, counter: nat)
    requires Orderly(cs, counter)
    ensures Orderly(StillVoting(cs), counter)
  {
    if cs != [] {
      var front, last := cs[..|cs| - 1], cs[|cs| - 1];
      assert Orderly(front, counter);
      TrimmedIsOrderly(front, counter);
      var kept := StillVoting(front);
      forall i | 0 <= i < |kept| ensures Apart(kept[i], last) {
        KeptVoting(front, i);
        var k :| 0 <= k < |front| && front[k] == kept[i];
        assert Apart(cs[k], cs[|cs| - 1]);
      }
    }
  }

  lemma {:induction false} KeptPending(bonds: seq<Bond>, i: nat)
    requires i < |StillPending(bonds)|
    ensures StillPending(bonds)[i] in bonds
  {
    var front := bonds[..|bonds| - 1];
    if i < |StillPending(front)| {
      KeptPending(front, i);
    }
  }

  // ---------------------------------------------------------------------------------------------
  // Changing one challenge, one pool, one book

  /** Replacing a challenge by one with the same id and oracle and no new vote keeps the order. */
  lemma {:induction false} ReplaceKeepsOrder(cs: seq<Challenge>, counter: nat, i: nat, c: Challenge)
    requires Orderly(cs, counter) && i < |cs|
    requires c.id == cs[i].id && c.oracle == cs[i].oracle && (c.status == Voting ==> cs[i].status == Voting)
    ensures Orderly(cs[i := c], counter)
  {
    var cs' := cs[i := c];
    forall j, k | 0 <= j < k < |cs'| ensures Apart(cs'[j], cs'[k]) {
      assert Apart(cs[j], cs[k]);
    }
  }

  lemma {:induction false} ReplaceKeepsOpen(cs: seq<Challenge>, i: nat, c: Challenge, oracle: string)
    requires i < |cs| && HasOpen(cs, oracle)
    requires c.oracle == cs[i].oracle && (c.status == cs[i].status || oracle != c.oracle)
    ensures HasOpen(cs[i := c], oracle)
  {
    var k :| 0 <= k < |cs| && OpenAt(cs[k], oracle);
    assert OpenAt(cs[i := c][k], oracle);
  }

  lemma {:induction false} TotalsAfter(s: Registry, b: Books, oracle: string, p: Pool, book: Book)
    requires Totalled(s, b)
    requires p.slashed == PoolOf(s, oracle).slashed && book.forfeited == BookOf(b, oracle).forfeited
    ensures Totalled(s.(pools := s.pools[oracle := p]), b.(books := b.books[oracle := book]))
  {
    SumUpdate(s.pools, SlashedPart(), oracle, p);
    SumUpdate(b.books, ForfeitedPart(), oracle, book);
  }

  /** Replacing one pool and its book by a balanced pair keeps the audit. */
  lemma {:induction false} AuditAfter(pools: map<string, Pool>, books: map<string, Book>, oracle: string, p: Pool,
                                      book: Book)
    requires Audited(pools, books) && Balanced(p, book)
    ensures Audited(pools[oracle := p], books[oracle := book])
  {
    var pools', books' := pools[oracle := p], books[oracle := book];
    forall o ensures AuditedAt(pools', books', o) {
      assert AuditedAt(pools, books, o);
    }
  }

  // ---------------------------------------------------------------------------------------------
  // Each operation keeps the invariant

  ghost function Moved(t: State, oracle: string, p: Pool, book: Book): State {
    State(t.registry.(pools := t.registry.pools[oracle := p]), t.books.(books := t.books.books[oracle := book]))
  }

  /** Moves within one pool, or in and out of it, that leave its disputed and slashed parts alone. */
  lemma {:induction false} MoveKeepsInv(t: State, oracle: string, p: Pool, book: Book)
    requires Inv(t) && Balanced(p, book)
    requires p.disputed == PoolOf(t.registry, oracle).disputed && p.slashed == PoolOf(t.registry, oracle).slashed
    requires book.forfeited == BookOf(t.books, oracle).forfeited
    ensures Inv(Moved(t, oracle, p, book))
  {
    var s, pools' := t.registry, t.registry.pools[oracle := p];
    TotalsAfter(s, t.books, oracle, p, book);
    AuditAfter(s.pools, t.books.books, oracle, p, book);
    forall o ensures DisputeOpen(pools', s.challenges, o) {
      assert DisputeOpen(s.pools, s.challenges, o);
    }
  }

  lemma {:induction false} DepositMoves(t: State, oracle: string, amount: nat)
    ensures var p, book := PoolOf(t.registry, oracle), BookOf(t.books, oracle);
            Step(t, Deposit(oracle, amount))
            == Moved(t, oracle, p.(available := p.available + amount), book.(deposited := book.deposited + amount))
  {
  }

  lemma {:induction false} WithdrawMoves(t: State, oracle: string, amount: nat)
    requires Refusal(t.registry, Withdraw(oracle, amount)).None?
    ensures var p, book := PoolOf(t.registry, oracle), BookOf(t.books, oracle);
            Step(t, Withdraw(oracle, amount))
            == Moved(t, oracle, p.(available := p.available - amount), book.(withdrawn := book.withdrawn + amount))
  {
  }

  lemma {:induction false} DepositKeepsInv(t: State, oracle: string, amount: nat)
    requires Inv(t)
    ensures Inv(Step(t, Deposit(oracle, amount)))
  {
    var p, book := PoolOf(t.registry, oracle), BookOf(t.books, oracle);
    assert AuditedAt(t.registry.pools, t.books.books, oracle);
    var p', book' := p.(available := p.available + amount), book.(deposited := book.deposited + amount);
    MoveKeepsInv(t, oracle, p', book');
    DepositMoves(t, oracle, amount);
  }

  lemma {:induction false} WithdrawKeepsInv(t: State, oracle: string, amount: nat)
    requires Inv(t) && Refusal(t.registry, Withdraw(oracle, amount)).None?
    ensures Inv(Step(t, Withdraw(oracle, amount)))
  {
    var p, book := PoolOf(t.registry, oracle), BookOf(t.books, oracle);
    assert AuditedAt(t.registry.pools, t.books.books, oracle);
    var p', book' := p.(available := p.available - amount), book.(withdrawn := book.withdrawn + amount);
    MoveKeepsInv(t, oracle, p', book');
    WithdrawMoves(t, oracle, amount);
  }

  lemma {:induction false} LockKeepsInv(t: State, oracle: string, amount: nat, now: nat)
    requires Inv(t) && Refusal(t.registry, Lock(oracle, amount, now)).None?
    ensures Inv(Step(t, Lock(oracle, amount, now)))
  {
    assert AuditedAt(t.registry.pools, t.books.books, oracle);
    var p, book := t.registry.pools[oracle], t.books.books[oracle];
    var p' := p.(available := p.available - amount, locked := p.locked + amount);
    MoveKeepsInv(t, oracle, p', book);
    assert t.books.books[oracle := book] == t.books.books;
    var s' := Locked(t.registry, oracle, amount, now);
    forall i | 0 <= i < |s'.bonds| ensures s'.bonds[i].oracle in s'.pools {
      if i < |s'.bonds| - 1 && |t.registry.bonds| >= CAP {
        KeptPending(t.registry.bonds, i);
      }
    }
  }

  lemma {:induction false} DisputeKeepsChallenges(t: State, oracle: string, challenger: string, now: nat)
    requires Inv(t) && Refusal(t.registry, Dispute(oracle, challenger, now)).None?
    ensures var s' := Challenged(t.registry, oracle, challenger, now);
            && Orderly(s'.challenges, s'.counter)
            && SlashedOnce(s'.challenges, s'.counter, t.books.slashes)
            && (forall i :: 0 <= i < |s'.challenges| ==> s'.challenges[i].oracle in t.registry.pools)
  {
    var s, cs := t.registry, t.registry.challenges;
    if |cs| >= CAP {
      TrimmedIsOrderly(cs, s.counter);
      forall i | 0 <= i < |StillVoting(cs)| ensures StillVoting(cs)[i] in cs && StillVoting(cs)[i].status == Voting {
        KeptVoting(cs, i);
      }
    }
    var kept := if |cs| >= CAP then StillVoting(cs) else cs;
    assert forall i :: 0 <= i < |kept| ==> kept[i] in cs;
    forall i | 0 <= i < |kept| ensures !OpenAt(kept[i], oracle) {
      var k :| 0 <= k < |cs| && cs[k] == kept[i];
      assert !OpenAt(cs[k], oracle);
    }
  }

  lemma {:induction false} DisputeKeepsOpen(t: State, oracle: string, challenger: string, now: nat)
    requires Inv(t) && Refusal(t.registry, Dispute(oracle, challenger, now)).None?
    ensures var s' := Challenged(t.registry, oracle, challenger, now); DisputesOpen(s'.pools, s'.challenges)
  {
    var s' := Challenged(t.registry, oracle, challenger, now);
    var n := |s'.challenges| - 1;
    forall o ensures DisputeOpen(s'.pools, s'.challenges, o) {
      if o == oracle {
        assert OpenAt(s'.challenges[n], o);
      } else if o in s'.pools && s'.pools[o].disputed > 0 {
        var cs := t.registry.challenges;
        assert DisputeOpen(t.registry.pools, cs, o);
        if |cs| >= CAP {
          VotingKept(cs, o);
        }
        var kept := if |cs| >= CAP then StillVoting(cs) else cs;
        var k :| 0 <= k < |kept| && OpenAt(kept[k], o);
        assert OpenAt(s'.challenges[k], o);
      }
    }
  }

  lemma {:induction false} DisputeKeepsInv(t: State, oracle: string, challenger: string, now: nat)
    requires Inv(t) && Refusal(t.registry, Dispute(oracle, challenger, now)).None?
    ensures Inv(Step(t, Dispute(oracle, challenger, now)))
  {
    var s := t.registry;
    var i :| 0 <= i < |s.bonds| && s.bonds[i].oracle == oracle && s.bonds[i].status == Active;
    DisputeKeepsChallenges(t, oracle, challenger, now);
    DisputeKeepsOpen(t, oracle, challenger, now);
    assert AuditedAt(s.pools, t.books.books, oracle);
    var p, book := s.pools[oracle], t.books.books[oracle];
    assert t.books.books[oracle := book] == t.books.books;
    TotalsAfter(s, t.books, oracle, Disputed(p), book);
    AuditAfter(s.pools, t.books.books, oracle, Disputed(p), book);
  }

  lemma {:induction false} VoteKeepsInv(t: State, id: nat, voter: string, yes: bool)
    requires Inv(t) && Refusal(t.registry, Vote(id, voter, yes)).None?
    ensures Inv(Step(t, Vote(id, voter, yes)))
  {
    var s := t.registry;
    var i := IndexOf(s.challenges, id);
    var s' := Voted(s, i, voter, yes);
    ReplaceKeepsOrder(s.challenges, s.counter, i, s'.challenges[i]);
    forall o ensures DisputeOpen(s.pools, s'.challenges, o) {
      assert DisputeOpen(s.pools, s.challenges, o);
      if HasOpen(s.challenges, o) {
        ReplaceKeepsOpen(s.challenges, i, s'.challenges[i], o);
      }
    }
  }

  /** Closing the open challenge of an oracle whose pool has nothing left in dispute. */
  lemma {:induction false} CloseKeepsOpen(t: State, i: nat, p: Pool)
    requires Inv(t) && i < |t.registry.challenges| && p.disputed == 0
    ensures var s := t.registry;
            DisputesOpen(s.pools[s.challenges[i].oracle := p], Closed(s, i).challenges)
  {
    var s := t.registry;
    var oracle := s.challenges[i].oracle;
    var pools' := s.pools[oracle := p];
    forall o ensures DisputeOpen(pools', Closed(s, i).challenges, o) {
      assert DisputeOpen(s.pools, s.challenges, o);
      if o != oracle && HasOpen(s.challenges, o) {
        ReplaceKeepsOpen(s.challenges, i, s.challenges[i].(status := Resolved), o);
      }
    }
  }

  lemma {:induction false} SlashShares(disputed: nat)
    ensures 10 * SlashOf(disputed) <= disputed
    ensures 20 * RewardFor(disputed) <= SlashOf(disputed)
  {
  }

  lemma {:induction false} RewardTotal(s: Registry, challenger: string, reward: nat)
    ensures SumBy(s.rewards[challenger := RewardOf(s, challenger) + reward], Whole())
         == SumBy(s.rewards, Whole()) + reward
  {
    SumUpdate<string, nat>(s.rewards, Whole(), challenger, RewardOf(s, challenger) + reward);
  }

  lemma {:induction false} SlashTotal(pools: map<string, Pool>, oracle: string)
    requires oracle in pools
    ensures SumBy(pools[oracle := Forfeited(pools[oracle])], SlashedPart())
            == SumBy(pools, SlashedPart()) + SlashOf(pools[oracle].disputed)
  {
    SumUpdate(pools, SlashedPart(), oracle, Forfeited(pools[oracle]));
  }

  lemma {:induction false} ForfeitTotal(books: map<string, Book>, oracle: string, amount: nat)
    requires oracle in books
    ensures SumBy(books[oracle := Lost(books[oracle], amount)], ForfeitedPart())
         == SumBy(books, ForfeitedPart()) + amount
  {
    SumUpdate(books, ForfeitedPart(), oracle, Lost(books[oracle], amount));
  }

  lemma {:induction false} SlashTotals(s: Registry, b: Books, oracle: string, challenger: string)
    requires Totalled(s, b) && oracle in s.pools && oracle in b.books
    ensures Totalled(Slashed(s, oracle, challenger),
                     b.(books := b.books[oracle := Lost(b.books[oracle], s.pools[oracle].disputed)]))
  {
    var disputed := s.pools[oracle].disputed;
    SlashShares(disputed);
    SlashTotal(s.pools, oracle);
    ForfeitTotal(b.books, oracle, disputed);
    RewardTotal(s, challenger, RewardFor(disputed));
  }

  lemma {:induction false} AcceptedStep(t: State, id: nat, now: nat)
    requires Refusal(t.registry, Resolve(id, now)).None?
    requires var c := t.registry.challenges[IndexOf(t.registry.challenges, id)];
             Accepted(c) && c.oracle in t.registry.pools
    ensures var s := t.registry;
            var i := IndexOf(s.challenges, id);
            var c := s.challenges[i];
            Step(t, Resolve(id, now)) == State(
              Slashed(Closed(s, i), c.oracle, c.challenger),
              t.books.(books := t.books.books[c.oracle := Lost(BookOf(t.books, c.oracle), s.pools[c.oracle].disputed)],
                       slashes := t.books.slashes + [id]))
  {
  }

  lemma {:induction false} AcceptKeepsInv(t: State, id: nat, now: nat)
    requires Inv(t) && Refusal(t.registry, Resolve(id, now)).None?
    requires Accepted(t.registry.challenges[IndexOf(t.registry.challenges, id)])
    ensures Inv(Step(t, Resolve(id, now)))
  {
    var s := t.registry;
    var i := IndexOf(s.challenges, id);
    var c := s.challenges[i];
    assert AuditedAt(s.pools, t.books.books, c.oracle);
    var p, book := s.pools[c.oracle], t.books.books[c.oracle];
    AcceptedStep(t, id, now);
    ReplaceKeepsOrder(s.challenges, s.counter, i, c.(status := Resolved));
    CloseKeepsOpen(t, i, Forfeited(p));
    SlashTotals(Closed(s, i), t.books, c.oracle, c.challenger);
    SlashShares(p.disputed);
    AuditAfter(s.pools, t.books.books, c.oracle, Forfeited(p), Lost(book, p.disputed));
    ClosedIsSlashedOnce(s.challenges, s.counter, t.books.slashes, i);
  }

  lemma {:induction false} ClosedIsSlashedOnce(cs: seq<Challenge>, counter: nat, slashes: seq<nat>, i: nat)
    requires Orderly(cs, counter) && SlashedOnce(cs, counter, slashes) && i < |cs| && cs[i].status == Voting
    ensures SlashedOnce(cs[i := cs[i].(status := Resolved)], counter, slashes + [cs[i].id])
  {
    var cs' := cs[i := cs[i].(status := Resolved)];
    forall k | 0 <= k < |cs'| && cs'[k].status == Voting ensures cs'[k].id !in slashes + [cs[i].id] {
      if k < i {
        assert Apart(cs[k], cs[i]);
      } else {
        assert Apart(cs[i], cs[k]);
      }
    }
  }

  lemma {:induction false} RejectKeepsInv(t: State, id: nat, now: nat)
    requires Inv(t) && Refusal(t.registry, Resolve(id, now)).None?
    requires !Accepted(t.registry.challenges[IndexOf(t.registry.challenges, id)])
    ensures Inv(Step(t, Resolve(id, now)))
  {
    var s := t.registry;
    var i := IndexOf(s.challenges, id);
    var c := s.challenges[i];
    assert AuditedAt(s.pools, t.books.books, c.oracle);
    var p, book := s.pools[c.oracle], t.books.books[c.oracle];
    ReplaceKeepsOrder(s.challenges, s.counter, i, c.(status := Resolved));
    CloseKeepsOpen(t, i, Restored(p));
    assert t.books.books[c.oracle := book] == t.books.books;
    TotalsAfter(s, t.books, c.oracle, Restored(p), book);
    AuditAfter(s.pools, t.books.books, c.oracle, Restored(p), book);
  }

  /** `release_collateral` never has anything to move: no challenge of the oracle is open. */
  lemma {:induction false} ReleaseMovesNothing(t: State, oracle: string)
    requires Inv(t) && Refusal(t.registry, Release(oracle)).None?
    ensures t.registry.pools[oracle].disputed == 0 && Step(t, Release(oracle)) == t
  {
    var s := t.registry;
    assert DisputeOpen(s.pools, s.challenges, oracle);
    assert HasOpen(s.challenges, oracle) ==> HasUnresolved(s.challenges, oracle);
    assert s.pools[oracle := Restored(s.pools[oracle])] == s.pools;
  }

  lemma {:induction false} ClaimKeepsInv(t: State, challenger: string)
    requires Inv(t) && challenger in t.registry.rewards
    ensures Inv(Step(t, Claim(challenger)))
  {
    SumRemove<string, nat>(t.registry.rewards, Whole(), challenger);
  }

  lemma {:induction false} StepKeepsInv(t: State, op: Op)
    requires Inv(t)
    ensures Inv(Step(t, op))
  {
    if Refusal(t.registry, op).None? {
      match op
      case CreatePool(oracle) =>
        assert AuditedAt(t.registry.pools, t.books.books, oracle);
        MoveKeepsInv(t, oracle, EMPTY_POOL, EMPTY_BOOK);
      case Deposit(oracle, amount) => DepositKeepsInv(t, oracle, amount);
      case Lock(oracle, amount, now) => LockKeepsInv(t, oracle, amount, now);
      case Activate(_) =>
      case Dispute(oracle, challenger, now) => DisputeKeepsInv(t, oracle, challenger, now);
      case Vote(id, voter, yes) => VoteKeepsInv(t, id, voter, yes);
      case Resolve(id, now) =>
        if Accepted(t.registry.challenges[IndexOf(t.registry.challenges, id)]) {
          AcceptKeepsInv(t, id, now);
        } else {
          RejectKeepsInv(t, id, now);
        }
      case Release(oracle) => ReleaseMovesNothing(t, oracle);
      case Withdraw(oracle, amount) => WithdrawKeepsInv(t, oracle, amount);
      case Claim(challenger) => ClaimKeepsInv(t, challenger);
      case SetVotingPeriod(_) =>
      case SetMinCollateral(_) =>
    }
  }

  /** Every reachable state satisfies the invariant. */
  lemma {:induction false} RunKeepsInv(minCollateral: nat, ops: seq<Op>)
    ensures Inv(Run(minCollateral, ops))
  {
    if ops != [] {
      RunKeepsInv(minCollateral, ops[..|ops| - 1]);
      StepKeepsInv(Run(minCollateral, ops[..|ops| - 1]), ops[|ops| - 1]);
    }
  }

  /** In every run challenge ids are distinct and an oracle has at most one open challenge. */
  lemma {:induction false} DisputesAreExclusive(minCollateral: nat, ops: seq<Op>, i: nat, j: nat, oracle: string)
    requires i < j < |Run(minCollateral, ops).registry.challenges|
    ensures var cs := Run(minCollateral, ops).registry.challenges;
            cs[i].id != cs[j].id && !(OpenAt(cs[i], oracle) && OpenAt(cs[j], oracle))
  {
    RunKeepsInv(minCollateral, ops);
    var cs := Run(minCollateral, ops).registry.challenges;
    assert Apart(cs[i], cs[j]);
  }

  /** In every run collateral is in dispute only while a challenge of its oracle is open. */
  lemma {:induction false} DisputedOnlyWhileOpen(minCollateral: nat, ops: seq<Op>, oracle: string)
    ensures var s := Run(minCollateral, ops).registry;
            oracle in s.pools && s.pools[oracle].disputed > 0 ==> HasOpen(s.challenges, oracle)
  {
    RunKeepsInv(minCollateral, ops);
    var s := Run(minCollateral, ops).registry;
    assert DisputeOpen(s.pools, s.challenges, oracle);
  }

  /** What an oracle deposited is what its pool holds, plus what it withdrew, plus what it forfeited. */
  lemma {:induction false} Conservation(minCollateral: nat, ops: seq<Op>, oracle: string)
    requires oracle in Run(minCollateral, ops).registry.pools
    ensures var t := Run(minCollateral, ops);
            && oracle in t.books.books
            && Balanced(t.registry.pools[oracle], t.books.books[oracle])
  {
    RunKeepsInv(minCollateral, ops);
    var t := Run(minCollateral, ops);
    assert AuditedAt(t.registry.pools, t.books.books, oracle);
  }

  /** The totals over a run, despite every slash and reward being rounded down on its own. */
  lemma {:induction false} SlashingIsBounded(minCollateral: nat, ops: seq<Op>)
    ensures var t := Run(minCollateral, ops);
            && t.registry.slashedTotal == SumBy(t.registry.pools, SlashedPart())
            && 10 * t.registry.slashedTotal <= SumBy(t.books.books, ForfeitedPart())
            && 20 * (SumBy(t.registry.rewards, Whole()) + t.books.claimed) <= t.registry.slashedTotal
            && (forall i, j :: 0 <= i < j < |t.books.slashes| ==> t.books.slashes[i] != t.books.slashes[j])
  {
    RunKeepsInv(minCollateral, ops);
  }

  /** Balances and the slashing product fit 64 bits while deposits stay below a tenth of the range. */
  lemma {:induction false} BalancesFitWords(minCollateral: nat, ops: seq<Op>, oracle: string)
    requires oracle in Run(minCollateral, ops).registry.pools
    requires 10 * BookOf(Run(minCollateral, ops).books, oracle).deposited <= U64_MAX
    ensures var p := Run(minCollateral, ops).registry.pools[oracle];
            p.locked + p.available + p.disputed <= U64_MAX
            && p.disputed * SLASHING_FACTOR <= U64_MAX && p.slashed <= U64_MAX
  {
    Conservation(minCollateral, ops, oracle);
  }

  // ---------------------------------------------------------------------------------------------
  // Ballots

  /** `after` is the ballot of `before` with `yes` and `no` added to its two sides. */
  predicate SameBallot(before: Challenge, after: Challenge, yes: nat, no: nat) {
    && after.id == before.id && after.oracle == before.oracle && after.challenger == before.challenger
    && after.votingEnd == before.votingEnd
    && after.votesFor == before.votesFor + yes && after.votesAgainst == before.votesAgainst + no
  }

  function YesAdded(s: Registry, op: Op, id: nat): nat {
    if op.Vote? && op.id == id && op.yes then Weight(s.pools, op.voter) else 0
  }

  function NoAdded(s: Registry, op: Op, id: nat): nat {
    if op.Vote? && op.id == id && !op.yes then Weight(s.pools, op.voter) else 0
  }

  /**
   * Any accepted operation leaves a challenge's ballot alone, except for a vote on it, which adds the
   * voter's weight to the side voted for; a challenge that was not there before starts at zero.
   */
  lemma {:induction false} BallotsMoveByVotesOnly(s: Registry, op: Op, c: Challenge)
    requires Orderly(s.challenges, s.counter) && Refusal(s, op).None? && c in Effect(s, op).challenges
    ensures || (op.Dispute? && c.id == s.counter && c.votesFor == c.votesAgainst == 0)
            || exists b :: b in s.challenges && SameBallot(b, c, YesAdded(s, op, c.id), NoAdded(s, op, c.id))
  {
    if op.Dispute? {
      DisputeKeepsBallot(s, op.oracle, op.challenger, op.now, c);
    } else if op.Vote? || op.Resolve? {
      ReplacedBallot(s, op, c);
    } else {
      assert Effect(s, op).challenges == s.challenges;
      assert SameBallot(c, c, 0, 0);
    }
  }

  lemma {:induction false} DisputeKeepsBallot(s: Registry, oracle: string, challenger: string, now: nat, c: Challenge)
    requires c in Challenged(s, oracle, challenger, now).challenges
    ensures (c.id == s.counter && c.votesFor == c.votesAgainst == 0) || (c in s.challenges && SameBallot(c, c, 0, 0))
  {
    var kept := if |s.challenges| >= CAP then StillVoting(s.challenges) else s.challenges;
    if c in kept && |s.challenges| >= CAP {
      var i :| 0 <= i < |kept| && kept[i] == c;
      KeptVoting(s.challenges, i);
    }
  }

  lemma {:induction false} ReplacedBallot(s: Registry, op: Op, c: Challenge)
    requires Orderly(s.challenges, s.counter) && (op.Vote? || op.Resolve?)
    requires Refusal(s, op).None? && c in Effect(s, op).challenges
    ensures exists b :: b in s.challenges && SameBallot(b, c, YesAdded(s, op, c.id), NoAdded(s, op, c.id))
  {
    var i, cs' := IndexOf(s.challenges, op.id), Effect(s, op).challenges;
    var k :| 0 <= k < |cs'| && cs'[k] == c;
    var b := s.challenges[k];
    if k < i {
      assert Apart(s.challenges[k], s.challenges[i]);
    } else if i < k {
      assert Apart(s.challenges[i], s.challenges[k]);
    }
    assert b in s.challenges && SameBallot(b, c, YesAdded(s, op, c.id), NoAdded(s, op, c.id));
  }

  // ---------------------------------------------------------------------------------------------
  // The registry object

  /** What a pool holds in its three balances. */
  function Held(p: Pool): nat {
    p.locked + p.available + p.disputed
  }

  function LockPool(p: Pool, amount: nat): (r: Result<Pool, Error>)
    ensures r.Ok? <==> amount <= p.available
    ensures r.Ok? ==> Held(r.value) == Held(p) && r.value.locked == p.locked + amount && r.value.disputed == p.disputed
  {
    if p.available < amount then Err(InsufficientAvailable)
    else Ok(p.(available := p.available - amount, locked := p.locked + amount))
  }

  function DisputePool(p: Pool, amount: nat): (r: Result<Pool, Error>)
    ensures r.Ok? <==> amount <= p.locked
    ensures r.Ok? ==> Held(r.value) == Held(p) && r.value.disputed == p.disputed + amount
                      && r.value.available == p.available
  {
    if p.locked < amount then Err(InsufficientLocked)
    else Ok(p.(locked := p.locked - amount, disputed := p.disputed + amount))
  }

  /** `restore_collateral` and `release_collateral`, which do the same. */
  function RestorePool(p: Pool, amount: nat): (r: Result<Pool, Error>)
    ensures r.Ok? <==> amount <= p.disputed
    ensures r.Ok? ==> Held(r.value) == Held(p) && r.value.available == p.available + amount
                      && r.value.locked == p.locked
  {
    if p.disputed < amount then Err(InsufficientDisputed)
    else Ok(p.(disputed := p.disputed - amount, available := p.available + amount))
  }

  function SlashPool(p: Pool, amount: nat): (r: Result<(Pool, nat), Error>)
    ensures r.Ok? <==> amount <= p.disputed
    ensures r.Ok? ==> var (after, slash) := r.value;
                      && Held(after) + amount == Held(p) && after.disputed + amount == p.disputed
                      && after.slashed == p.slashed + slash && 10 * slash <= amount < 10 * slash + 10
  {
    if p.disputed < amount then Err(InsufficientDisputed)
    else
      var slash := amount * SLASHING_FACTOR / 100;
      Ok((p.(disputed := p.disputed - amount, slashed := p.slashed + slash), slash))
  }

  class BondingRegistry {
    var pools: map<string, Pool>
    var bonds: seq<Bond>
    var challenges: seq<Challenge>
    var slashedTotal: nat
    var rewards: map<string, nat>
    var minCollateral: nat
    var votingPeriod: nat
    var counter: nat

    ghost function View(): Registry
      reads this
    {
      Registry(pools, bonds, challenges, slashedTotal, rewards, minCollateral, votingPeriod, counter)
    }

    constructor (minCollateral: nat)
      ensures View() == New(minCollateral)
    {
      pools, bonds, challenges, slashedTotal, rewards := map[], [], [], 0, map[];
      this.minCollateral, votingPeriod, counter := minCollateral, 259_200_000, 0;
    }

    method AddPool(oracle: string) returns (e: Option<Error>)
      modifies this
      ensures e == Refusal(old(View()), CreatePool(oracle))
      ensures View() == Next(old(View()), CreatePool(oracle))
    {
      if oracle in pools {
        return Some(PoolExists);
      }
      pools := pools[oracle := EMPTY_POOL];
      e := None;
    }

    method DepositCollateral(oracle: string, amount: nat)
      modifies this
      ensures View() == Next(old(View()), Deposit(oracle, amount))
    {
      if oracle !in pools {
        var _ := AddPool(oracle);
      }
      pools := pools[oracle := pools[oracle].(available := pools[oracle].available + amount)];
    }

    method LockCollateral(oracle: string, amount: nat, now: nat) returns (e: Option<Error>)
      modifies this
      ensures e == Refusal(old(View()), Lock(oracle, amount, now))
      ensures View() == Next(old(View()), Lock(oracle, amount, now))
    {
      if amount < minCollateral {
        return Some(BelowMinimum);
      }
      if oracle !in pools {
        return Some(PoolNotFound);
      }
      var locked := LockPool(pools[oracle], amount);
      if locked.Err? {
        return Some(locked.error);
      }
      pools := pools[oracle := locked.value];
      if |bonds| >= CAP {
        bonds := StillPending(bonds);
      }
      bonds := bonds + [Bond(oracle, amount, now, Pending)];
      e := None;
    }

    method ActivateBond(oracle: string) returns (e: Option<Error>)
      modifies this
      ensures e == Refusal(old(View()), Activate(oracle))
      ensures View() == Next(old(View()), Activate(oracle))
    {
      var i := BondOf(bonds, oracle);
      if i == |bonds| {
        return Some(BondNotFound);
      }
      bonds := bonds[i := bonds[i].(status := Active)];
      e := None;
    }

    method ChallengeOracle(oracle: string, challenger: string, now: nat) returns (r: Result<nat, Error>)
      modifies this
      ensures var refusal := Refusal(old(View()), Dispute(oracle, challenger, now));
              r == if refusal.Some? then Err(refusal.value) else Ok(old(counter))
      ensures View() == Next(old(View()), Dispute(oracle, challenger, now))
    {
      if !HasActiveBond(bonds, oracle) {
        return Err(NotBonded);
      }
      if HasOpen(challenges, oracle) {
        return Err(AlreadyChallenged);
      }
      if oracle in pools {
        var disputed := DisputePool(pools[oracle], pools[oracle].locked);
        pools := pools[oracle := disputed.value];
      }
      var id := counter;
      counter := counter + 1;
      if |challenges| >= CAP {
        challenges := StillVoting(challenges);
      }
      challenges := challenges + [Challenge(id, oracle, challenger, Voting, 0, 0, now + votingPeriod)];
      r := Ok(id);
    }

    method VoteOnChallenge(id: nat, voter: string, yes: bool) returns (e: Option<Error>)
      modifies this
      ensures e == Refusal(old(View()), Vote(id, voter, yes))
      ensures View() == Next(old(View()), Vote(id, voter, yes))
    {
      var i := IndexOf(challenges, id);
      if i == |challenges| {
        return Some(ChallengeNotFound);
      }
      var c := challenges[i];
      if c.status != Voting {
        return Some(NotVoting);
      }
      var w := Weight(pools, voter);
      challenges := challenges[i := if yes then c.(votesFor := c.votesFor + w)
                                 else c.(votesAgainst := c.votesAgainst + w)];
      e := None;
    }

    /** Once the challenge is marked resolved, slashing or restoring cannot fail any more. */
    method ResolveChallenge(id: nat, now: nat) returns (r: Result<bool, Error>)
      modifies this
      ensures var refusal := Refusal(old(View()), Resolve(id, now));
              && (r.Err? <==> refusal.Some?)
              && (r.Err? ==> r.error == refusal.value)
              && (r.Ok? ==> r.value == Accepted(old(challenges)[IndexOf(old(challenges), id)]))
      ensures View() == Next(old(View()), Resolve(id, now))
    {
      var i := IndexOf(challenges, id);
      if i == |challenges| {
        return Err(ChallengeNotFound);
      }
      var c := challenges[i];
      if c.status != Voting {
        return Err(NotVoting);
      }
      if now < c.votingEnd {
        return Err(VotingNotEnded);
      }
      challenges := challenges[i := c.(status := Resolved)];
      if Accepted(c) {
        ExecuteSlashing(c.oracle, c.challenger);
      } else if c.oracle in pools {
        var restored := RestorePool(pools[c.oracle], pools[c.oracle].disputed);
        pools := pools[c.oracle := restored.value];
      }
      r := Ok(Accepted(c));
    }

    method ExecuteSlashing(oracle: string, challenger: string)
      modifies this
      ensures View() == if oracle in old(pools) then Slashed(old(View()), oracle, challenger) else old(View())
    {
      if oracle !in pools {
        return;
      }
      var slashed := SlashPool(pools[oracle], pools[oracle].disputed);
      pools := pools[oracle := slashed.value.0];
      var slash := slashed.value.1;
      var reward := slash * 5 / 100;
      if challenger !in rewards {
        rewards := rewards[challenger := 0];
      }
      rewards := rewards[challenger := rewards[challenger] + reward];
      slashedTotal := slashedTotal + slash;
    }

    method ReleaseCollateral(oracle: string) returns (e: Option<Error>)
      modifies this
      ensures e == Refusal(old(View()), Release(oracle))
      ensures View() == Next(old(View()), Release(oracle))
    {
      if HasUnresolved(challenges, oracle) {
        return Some(ActiveDisputes);
      }
      if oracle !in pools {
        return Some(PoolNotFound);
      }
      var released := RestorePool(pools[oracle], pools[oracle].disputed);
      pools := pools[oracle := released.value];
      e := None;
    }

    method WithdrawCollateral(oracle: string, amount: nat) returns (e: Option<Error>)
      modifies this
      ensures e == Refusal(old(View()), Withdraw(oracle, amount))
      ensures View() == Next(old(View()), Withdraw(oracle, amount))
    {
      if oracle !in pools {
        return Some(PoolNotFound);
      }
      var p := pools[oracle];
      if !(p.available >= amount && p.disputed == 0) {
        return Some(CannotWithdraw);
      }
      pools := pools[oracle := p.(available := p.available - amount)];
      e := None;
    }

    method ClaimSlasherReward(challenger: string) returns (r: Result<nat, Error>)
      modifies this
      ensures r == if challenger in old(rewards) then Ok(old(rewards)[challenger]) else Err(NoRewards)
      ensures View() == Next(old(View()), Claim(challenger))
    {
      if challenger !in rewards {
        return Err(NoRewards);
      }
      r := Ok(rewards[challenger]);
      rewards := rewards - {challenger};
    }
  }
}
