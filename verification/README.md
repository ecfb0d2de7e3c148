# Cerulean Ledger: a verified model of its core

This project models the decision-making core of the ledger in Dafny and proves properties of it over
all inputs, all runs and all reachable states. Each component is written twice over: once as
functions on values, about which the theorems are proved, and once as a class or a method with the
fields, loops and early returns of the program, whose contract says that it takes exactly the steps
of those functions.

| files | component |
|---|---|
| `Mvcc`, `WaveSchedule`, `BlockExecutor` | world state, read-set validation, conflict waves, and the two wave executors against the sequential commit |
| `BftQuorum`, `BftRound`, `BftNetwork`, `BftProgress`, `BftTimeouts`, `BftNode` | votes, certificates, the round state machine, a network of correct and faulty validators, what it can decide, and the back-off |
| `OraclePrices`, `OracleRegistry` | price aggregation with outlier filtering, reputation and fees |
| `Bonding`, `BondingVotes` | collateral, challenges, slashing and slasher rewards, and what one voter can do |
| `Addresses`, `Erc20`, `Nft`, `NftRules`, `SmartContract` | fungible balances and allowances, the NFT structures and rules, and `execute` |
| `DependencyGraph`, `SlidingWindow`, `RateLimits` | the recursive cycle guard, and both rate limiters |
| `ReplayGate`, `ReplayConfirmations` | the transaction validation gate, its clean-up and its confirmations |
| `Merkle`, `LegacyBlocks`, `LegacyChain`, `LegacyLedger` | Merkle roots, block and chain validity, appending and fork adoption, balances |
| `Staking`, `Governance`, `MultiSig` | stake-weighted selection, proposals and votes, threshold signatures |
| `MiningRewards`, `Mining` | the halving schedule, mining over the store, replay |
| `Plugins` | the plugin hook index |
| `Base64Bits`, `Base64`, `Pem` | the certificate encoder |
| `Wrappers`, `Words`, `MapSums`, `Sorting` | shared definitions |

What lies outside the program is a parameter: the clock (one argument per reading), hash functions
and signature checks (unknown functions), and the iteration order of hash maps (any order). Where a
collision matters, a lemma asks only that the strings actually hashed in its own computation do not
collide. Strings are sequences of characters, so byte lengths are lengths of ASCII text.

The consensus theorems rest on two assumptions about correct validators that the code itself does not
enforce: in one round they sign votes only for the block their round holds, and they never go back to
a round they have left, although `start_round` accepts any round number.

Several properties one would expect turn out not to hold of the code as it stands. In each case the
code is modelled as it is, and the condition under which the property does hold is proved:

* Decisions of one round agree in every reachable state exactly for 3f + 1 validators; for every other
  number a run with two different decisions is constructed (`BftProgress.AgreementExactly`,
  `BftQuorum.QuorumsIntersectExactly`). Across rounds nothing is carried over: the first decisions of all
  nodes agree only where there are no two validators to differ (`BftProgress.FirstDecisionsAgreeExactly`).
* The back-off after a time-out is the intended one exactly while its product fits the word, or what is
  left of it reaches the maximum (`BftTimeouts.BackoffIsExact`, `BftTimeouts.BackoffWraps`).
* The NFT integrity check accepts some states whose reverse index is incomplete
  (`Nft.ChecksExactly`, `Nft.ChecksAreIncomplete`). A call keeps owners within the cap on tokens exactly
  when it does not transfer to one who has reached it (`NftRules.CapIsKeptExactly`). In a run every
  approval was given by the present owner and has stood since, exactly when no owner transfers a token
  that has one (`NftRules.ApprovalsStandExactly`, `NftRules.ApprovalOutlivesOwner`).
* The search of the dependency graph returns only on the condition of `DependencyGraph.SearchEndsExactly`.
  The cycle validator accepts exactly the graphs in which no edge between two different nodes leads into
  a cycle (`DependencyGraph.AcceptedExactly`). So it accepts a graph whose only cycles are self-loops that
  no other node reaches (`DependencyGraph.SelfLoopIsAccepted`); every other cyclic graph is rejected or
  gets no answer at all (`DependencyGraph.ValidatorMayNotReturn`).
* The limiter of the contract validator keeps its promise exactly in runs that start after time zero, for
  a positive limit and period (`RateLimits.PromiseHoldsExactly`, `RateLimits.TimeZeroIsUnlimited`).
* Evicting an address from the request limiter keeps its hourly count exactly when nothing was accepted
  from it within the hour (`RateLimits.EvictionKeepsHourExactly`); 50,001 addresses are enough for a
  breach (`RateLimits.EvictionLosesHour`).
* A transaction can be accepted twice exactly when it is well formed, senders may have a pending
  transaction, and clean-ups forget it within its lifetime (`ReplayGate.ReplayExactly`). In runs that
  confirm only what was accepted it takes one pending transaction more where sequences are tracked
  (`ReplayConfirmations.OrderlyReplayExactly`).
* Some oracles pin the median, whatever the others report, exactly when they filed more than half of the
  reports (`OracleRegistry.OraclesPinMedianExactly`). With one report from each these are the majorities
  (`OracleRegistry.OracleMajorityPinsMedian`), but an oracle may file any number
  (`OracleRegistry.RepeatedReportsMoveMedian`).
* The weight of a vote on a challenge is capped, but not the votes of one voter: whoever votes often enough
  decides (`BondingVotes.VotesDecideExactly`, `BondingVotes.OneVoterDecides`).
* The supply check can overflow exactly when the cap lies within one largest amount of the 64-bit range
  (`Erc20.SupplyOverflowsExactly`).
* The genesis block is valid exactly when its difficulty is zero and the first hash empty, or the first
  nonce that meets the difficulty and the one after it hash alike (`LegacyBlocks.CreateGenesis`). The
  difficulty rises when blocks come slowly and falls when they come fast
  (`LegacyChain.AdjustmentDirection`). A rewarded block is refused for a second coinbase exactly when its
  fees are at least two or it carried a coinbase already (`LegacyChain.BurningFeesIsRefused`). A longer
  chain that shares a confirmed user transaction with ours is never adopted
  (`LegacyChain.SharedHistoryIsNotAdopted`). A balance is what came in less what went out exactly when
  every spend was covered as it came (`LegacyLedger.BalanceIsHistoryExactly`), which a block sees to for
  accounts that spend once in it and not always for others (`LegacyLedger.OneSpendIsCovered`,
  `LegacyLedger.TwoSpendsAreNotCovered`). User ids occur once on a chain exactly when no block repeats one
  (`LegacyChain.IdsOccurOnceExactly`, `LegacyChain.RepeatInBlockPasses`), and adopting a chain keeps
  replays out exactly when that chain has none (`LegacyChain.RepeatIsAdopted`).
* The rewards stay under their bound for 64 halving intervals and then only as long as further full rewards
  fit under it (`MiningRewards.BoundHoldsExactly`, `MiningRewards.BoundFailsLater`).
* The record of a coinbase survives exactly when no later transaction carries its id
  (`Mining.CoinbaseSurvivesExactly`, `Mining.CoinbaseCanBeReplaced`).
* A repeated vote with another power leaves a tally off, except in one case
  (`Governance.RevoteIsExact`).
* The multi-signature threshold stays at least one exactly when the owner is a member
  (`MultiSig.ThresholdStaysReachable`). Signatures of members that have left still count; enough present
  members have signed exactly when no more have left than the operation could spare
  (`MultiSig.MembersSufficeExactly`, `MultiSig.DepartedSignerCounts`).
* Installing a plugin keeps the hook index exact exactly when it comes disabled
  (`Plugins.InstallKeepsInvExactly`).
* A completed withdrawal pays the stake at the request less later slashes, so it pays what was asked for
  exactly when that is the whole stake then left (`Staking.CompletionPaysEverything`,
  `Staking.PartialRequestPaysAll`). A slash follows a validation of the block it is for, except that a
  report for block zero slashes a validator that has validated nothing (`Staking.SlashFollowsValidation`,
  `Staking.SlashWithoutValidation`). `release_collateral` never has anything to move
  (`Bonding.ReleaseMovesNothing`).

## Model

| member | source | states |
|---|---|---|
| `Mvcc.WorldState.Put` | src/storage/world_state.rs:82-107 | The new version is the old one plus one (one for a new key); no other key changes. |
| `Mvcc.WorldState.ValidateRwset` | src/transaction/mvcc.rs:48-68 | The first read, in order, whose version is not the current one, or none. |
| `Mvcc.WorldState.CommitTransaction` | src/transaction/mvcc.rs:81-102 | One transaction is checked against the world as it is and its writes are applied exactly when no read is stale. |
| `Mvcc.CommitBlock` | src/transaction/mvcc.rs:81-102 | The world after the block is the sequential execution's, and the transactions come back unchanged except for their conflict marks. |
| `Mvcc.OutcomeUnaffected` | src/transaction/mvcc.rs:48-68 | The check of a transaction gives the same answer before and after a commit that writes none of its read keys. |
| `WaveSchedule.WavesSeparateConflicts` | src/transaction/parallel.rs:60-145 | Of two conflicting transactions the later one is in a later wave. |
| `WaveSchedule.WavesAreLeast` | src/transaction/parallel.rs:60-145 | No assignment of waves that separates conflicts puts any transaction in an earlier wave. |
| `WaveSchedule.WaveEndsChain` | src/transaction/parallel.rs:60-145 | A transaction in wave w ends a chain of w + 1 transactions, each conflicting with the next. |
| `WaveSchedule.Dependencies` | src/transaction/parallel.rs:60-145 | The dependency sets are exactly the earlier conflicting transactions. |
| `WaveSchedule.AssignWaves` | src/transaction/parallel.rs:60-145 | The computed waves are the longest-path waves. |
| `WaveSchedule.ScheduleBatch` | src/transaction/parallel.rs:60-145 | The batch is grouped into exactly those waves, each in batch order. |
| `WaveSchedule.WaveOrderContents` | src/transaction/parallel.rs:60-145 | The waves in order contain every batch position exactly when its wave is among them. |
| `BlockExecutor.StepsCommute` | src/transaction/parallel.rs:150-162 | Two transactions that do not conflict have the same joint effect, outcomes included, in either order. |
| `BlockExecutor.OrderIsSerial` | src/transaction/executor.rs:56-98 | Conflict serializability: any execution order that keeps the order of conflicting pairs gives the world and the outcomes of the batch order. |
| `BlockExecutor.WaveOrderIsSerial` | src/transaction/executor.rs:56-98 | The order of the waves is one of those orders. |
| `BlockExecutor.WholeWaveIsStepwise` | src/transaction/executor.rs:111-180 | Checking a whole wave against the world at its start and then applying it equals checking and applying one by one. |
| `BlockExecutor.ScheduleBlock` | src/transaction/executor.rs:184-196 | The schedule of a block lists every transaction in the wave computed for it. |
| `BlockExecutor.ExecuteBlockParallel` | src/transaction/executor.rs:56-98 | The world and every reported outcome are those of the sequential commit. |
| `BlockExecutor.ExecuteBlockConcurrent` | src/transaction/executor.rs:111-180 | The same for the executor that validates a wave at once. |
| `BlockExecutor.LegacyResultsAgree` | src/transaction/executor.rs:217-234 | The legacy form of an executor's report is what `commit_block` returns on the same block. |
| `BftQuorum.PayloadInjective` | src/consensus/bft/types.rs:55-61 | A signed payload determines phase, block and round. |
| `BftQuorum.NewCertificate` | src/consensus/bft/types.rs:90-122 | A certificate is formed exactly from votes for its phase, block and round. |
| `BftQuorum.ValidateQc` | src/consensus/bft/quorum.rs:106-129 | Accepted exactly when all votes are valid, voters are distinct and they form a quorum. |
| `BftQuorum.CommonCorrect` | src/consensus/bft/quorum.rs:66-80 | With 3f + 1 validators two quorums share a correct validator. |
| `BftQuorum.QuorumsIntersectExactly` | src/consensus/bft/quorum.rs:66-80 | That holds for all fault sets and quorums if and only if the number of validators leaves remainder one modulo three. |
| `BftQuorum.SixValidatorsDoNotIntersect` | src/consensus/bft/quorum.rs:75-80 | With six validators two quorums can be disjoint. |
| `BftQuorum.CorrectValidatorsSuffice` | src/consensus/bft/quorum.rs:66-80 | The correct validators alone always form a quorum. |
| `BftRound.CollectedCertificate` | src/consensus/bft/vote_collector.rs:63-131 | A certificate formed by a collector consists of valid votes for its phase, block and round from a quorum of distinct voters. |
| `BftRound.ProcessKeepsInv` | src/consensus/bft/round.rs:168-298 | Every event keeps the collectors, the certificates and the state of a round consistent. |
| `BftRound.BlockIsFixed` | src/consensus/bft/round.rs:180-285 | The block of a round never changes once set, and the terminal states never change at all. |
| `BftRound.DecisionIsTheRounds` | src/consensus/bft/round.rs:223-278 | A decision is taken once, from the commit phase, with the commit certificate of the round's own block. |
| `BftRound.DecisionHasQuorum` | src/consensus/bft/round.rs:223-278 | The commit votes behind a decision come from a quorum. |
| `BftNetwork.EveryoneLeads` | src/consensus/bft/round_manager.rs:89-95 | In any n consecutive rounds every one of n validators leads. |
| `BftNetwork.ReachableInv` | src/consensus/bft/round_manager.rs:128-193 | In every reachable network state correct validators sign at most one block per round and phase, and every decision is backed by a quorum. |
| `BftNetwork.Agreement` | tests/bft_e2e.rs:252-274 | With 3f + 1 validators and at most f faulty ones that vote as they like, all decisions correct nodes ever make in one round are for one block. |
| `BftNetwork.HighestCertificatesAgree` | tests/bft_e2e.rs:252-274 | The highest commit certificates of two correct nodes for the same round name the same block. |
| `BftProgress.CorrectValidatorsDecide` | src/consensus/bft/round.rs:168-298 | Whatever the faulty validators do, once every correct validator has been given the same block in a round, steps of the correct ones alone can lead any of them to decide it. |
| `BftProgress.AgreementExactly` | tests/bft_e2e.rs:252-274 | With correct validators that vote phase after phase, decisions of one round agree in all reachable states and for all tolerated fault sets if and only if the number of validators leaves remainder one modulo three, or there are none. |
| `BftProgress.FirstDecisionsAgreeExactly` | src/consensus/bft/round_manager.rs:128-193 | The first decisions of all nodes agree in all reachable states and for all tolerated fault sets if and only if there is at most one validator. |
| `BftProgress.RoundsDisagree` | src/consensus/bft/round_manager.rs:175-193 | Any two correct validators can be led to their first decisions in rounds 0 and 1, for different blocks. |
| `BftTimeouts.BackoffIsExact` | src/consensus/bft/round_manager.rs:107-110 | The time-out is the base doubled for each time-out in a row, up to the maximum, if and only if the product fits the word or what is left of it is at least the maximum. |
| `BftTimeouts.BackoffDoubles` | src/consensus/bft/round_manager.rs:107-110 | While the product fits, one more time-out doubles the wait, up to the maximum. |
| `BftTimeouts.BackoffWraps` | src/consensus/bft/round_manager.rs:24-31 | With the default configuration 61 time-outs in a row leave no time at all. |
| `BftNode.Collect` | src/consensus/bft/vote_collector.rs:63-131 | The collector object follows the specification, and building its certificate never fails. |
| `BftNode.RoundMachine.HandleEvent` | src/consensus/bft/round.rs:168-298 | The round object takes exactly the specified step and keeps its invariant. |
| `BftNode.RoundManager.Begin` | src/consensus/bft/round_manager.rs:128-146 | A new round starts afresh with its own leader, keeps the highest certificate, and reports round, leader and time-out. |
| `BftNode.RoundManager.HandleEvent` | src/consensus/bft/round_manager.rs:154-169 | An event reaches the current round only; a decision updates the highest certificate and resets the back-off. |
| `BftNode.RoundManager.OnTimeout` | src/consensus/bft/round_manager.rs:175-184 | A timeout fails the round, counts, and starts the next one with the longer wait. |
| `BftNode.RoundManager.AdvanceAfterDecide` | src/consensus/bft/round_manager.rs:189-193 | The next round starts with the back-off reset. |
| `OraclePrices.CalculateMedian` | src/oracle_system.rs:300-307 | The middle element of the sorted prices, zero for none. |
| `OraclePrices.CalculateAverage` | src/oracle_system.rs:310-317 | The exact sum divided once, rounded down; the 128-bit sum never wraps and the cut to 64 bits loses nothing. |
| `OraclePrices.MajorityPinsMedian` | src/oracle_system.rs:300-307 | A strict majority of reports in a range puts the median in that range, whatever the others say. |
| `OraclePrices.HalfDoesNotPinMedian` | src/oracle_system.rs:300-307 | When all others report more, a range that holds no more than half of the reports does not hold the median. |
| `OraclePrices.AverageBounds` | src/oracle_system.rs:310-317 | The average stays within any bounds on the prices. |
| `OraclePrices.SomethingIsKept` | src/oracle_system.rs:320-399 | Filtering never removes every report, so the average is always defined. |
| `OraclePrices.ConsensusNearMedian` | src/oracle_system.rs:320-399 | The published price is within the tolerance of the median. |
| `OraclePrices.MajorityPinsConsensus` | src/oracle_system.rs:327-399 | A strict majority pins the published price to its range, widened by the tolerance. |
| `OraclePrices.MajorityIsKept` | src/oracle_system.rs:320-324 | A majority no wider than the tolerance loses none of its reports to the filter. |
| `OraclePrices.OrderDoesNotMatter` | src/oracle_system.rs:327-399 | Median, published price and number of sources do not depend on the order of the reports. |
| `OracleRegistry.OraclesPinMedianExactly` | src/oracle_system.rs:240-307 | Whatever the others report, some oracles keep the median in their range if and only if they filed more than half of the reports. |
| `OracleRegistry.AggregationFollows` | src/oracle_system.rs:327-399 | So the median of an aggregation stays in the range of oracles with more than half of its reports. |
| `OracleRegistry.OracleMajorityPinsMedian` | src/oracle_system.rs:240-307 | With one report from each oracle, some of them pin the median if and only if they are a majority. |
| `OracleRegistry.RepeatedReportsMoveMedian` | src/oracle_system.rs:240-307 | Two reports from one of three oracles can carry the median away from the other two. |
| `OracleRegistry.Rated` | src/oracle_system.rs:52-71 | Reputation stays within its bounds and moves in the right direction; correct reports never exceed all reports. |
| `OracleRegistry.ReportsSplit` | src/oracle_system.rs:327-399 | Every pending report is either aggregated or kept, none is lost or doubled. |
| `OracleRegistry.SettleAccounts` | src/oracle_system.rs:327-399 | Over an aggregation every report is counted once, exactly the kept ones as correct, and each of those pays one fee. |
| `OracleRegistry.Evaluate` | src/oracle_system.rs:327-399 | Median and published data of the reports; at least one source and a confidence of at most 100. |
| `OracleRegistry.Registry.RegisterOracle` | src/oracle_system.rs:169-175 | A new oracle is added once; a second registration changes nothing. |
| `OracleRegistry.Registry.SubmitPriceReport` | src/oracle_system.rs:240-297 | Accepted exactly from a known oracle with a valid signature and a timestamp within the drift limits; the queue holds the last 10,000 in order. |
| `OracleRegistry.Registry.SettleReports` | src/oracle_system.rs:327-399 | Each report is settled with its oracle, in order. |
| `OracleRegistry.Registry.AggregateReports` | src/oracle_system.rs:327-399 | Fails only without reports; otherwise publishes the consensus of exactly the symbol's reports, settles them and removes only them. |
| `OracleRegistry.Registry.PenalizeOracle` | src/oracle_system.rs:429-441 | Takes reputation away, never below zero. |
| `OracleRegistry.Registry.RewardOracle` | src/oracle_system.rs:444-457 | Adds the fee and a tenth of it as reputation, up to the maximum. |
| `OracleRegistry.Registry.SetOutlierThreshold` | src/oracle_system.rs:502-508 | Accepts percentages up to 100 only. |
| `Bonding.RunKeepsInv` | src/oracle_collateral.rs:181-570 | All invariants of the registry and its books hold after every run of operations. |
| `Bonding.DisputesAreExclusive` | src/oracle_collateral.rs:285-345 | In every run challenge ids are distinct and an oracle has at most one open challenge. |
| `Bonding.DisputedOnlyWhileOpen` | src/oracle_collateral.rs:285-462 | In every run collateral is in dispute only while a challenge of its oracle is open. |
| `Bonding.Conservation` | src/oracle_collateral.rs:82-146 | In every run deposits are the locked, available and disputed balances plus what was withdrawn and forfeited, for each oracle. |
| `Bonding.SlashingIsBounded` | src/oracle_collateral.rs:403-480 | In every run the slashed total is the sum over the pools, at most a tenth of what was forfeited; rewards outstanding and claimed are at most a twentieth of it; no challenge slashes twice. |
| `Bonding.BallotsMoveByVotesOnly` | src/oracle_collateral.rs:361-400 | Only a vote on a challenge changes its ballot, by the voter's weight on the side voted for; a new challenge starts at zero. |
| `BondingVotes.VotesDecideExactly` | src/oracle_collateral.rs:361-400 | How an open challenge stands after k votes of one voter: by k times its weight more on one side. |
| `BondingVotes.OneVoterDecides` | src/oracle_collateral.rs:361-400 | In any reachable state more votes of one voter than there are on the ballot decide an open challenge either way. |
| `BondingVotes.ShareIsBoundedByVotes` | src/oracle_collateral.rs:349-400 | In every run a voter's share of a ballot is between one and ten for each of its votes. |
| `Bonding.ReleaseMovesNothing` | src/oracle_collateral.rs:490-512 | In a reachable state an accepted release leaves everything as it is. |
| `Bonding.BalancesFitWords` | src/oracle_collateral.rs:82-125 | While an oracle's deposits are below a tenth of the 64-bit range, its balances and the slashing product fit the range. |
| `Bonding.Weight` | src/oracle_collateral.rs:349-358 | A vote weighs between one and ten. |
| `Bonding.IndexOf` | src/oracle_collateral.rs:369-372 | The first challenge with the id, if there is one. |
| `Bonding.LockPool` | src/oracle_collateral.rs:87-94 | Succeeds exactly up to the available balance, moves it to the locked one and keeps the sum of the balances. |
| `Bonding.DisputePool` | src/oracle_collateral.rs:97-104 | Succeeds exactly up to the locked balance, moves it to the disputed one and keeps the sum. |
| `Bonding.RestorePool` | src/oracle_collateral.rs:107-135 | Succeeds exactly up to the disputed balance, moves it to the available one and keeps the sum. |
| `Bonding.SlashPool` | src/oracle_collateral.rs:117-125 | Succeeds exactly up to the disputed balance, takes it out of the pool and records a tenth of it, rounded down, as slashed. |
| `Bonding.BondingRegistry.AddPool` | src/oracle_collateral.rs:181-190 | Takes exactly the step of `create_pool`. |
| `Bonding.BondingRegistry.DepositCollateral` | src/oracle_collateral.rs:193-204 | Always succeeds and takes exactly the step of a deposit, creating the pool if needed. |
| `Bonding.BondingRegistry.LockCollateral` | src/oracle_collateral.rs:207-237 | Takes exactly the step of a lock, or reports the first failed check and changes nothing. |
| `Bonding.BondingRegistry.ActivateBond` | src/oracle_collateral.rs:240-251 | Activates the oracle's first bond. |
| `Bonding.BondingRegistry.ChallengeOracle` | src/oracle_collateral.rs:285-345 | Takes exactly the step of a challenge and returns its new id; moving the collateral cannot fail. |
| `Bonding.BondingRegistry.VoteOnChallenge` | src/oracle_collateral.rs:361-400 | Adds the voter's weight to one side of an open challenge. |
| `Bonding.BondingRegistry.ResolveChallenge` | src/oracle_collateral.rs:403-462 | Fails only before the challenge is marked; afterwards slashing or restoring always succeeds, and an error means nothing changed. |
| `Bonding.BondingRegistry.ExecuteSlashing` | src/oracle_collateral.rs:465-480 | Forfeits the disputed collateral, records the slash and credits the challenger. |
| `Bonding.BondingRegistry.ReleaseCollateral` | src/oracle_collateral.rs:490-512 | Refused exactly while some challenge of the oracle is unresolved or without a pool. |
| `Bonding.BondingRegistry.WithdrawCollateral` | src/oracle_collateral.rs:515-527 | Pays out only what is available and only while nothing is in dispute. |
| `Bonding.BondingRegistry.ClaimSlasherReward` | src/oracle_collateral.rs:530-534 | Pays a challenger's rewards once and removes them. |
| `Addresses.CheckAddress` | src/smart_contracts.rs:329-357 | The first failed address check, if any. |
| `Erc20.SupplyIsHistory` | src/smart_contracts.rs:652-725 | After any run the supply is everything minted minus everything burned, and never above the cap. |
| `Erc20.BalanceIsHistory` | src/smart_contracts.rs:396-518 | After any run a balance is what the account received minus what it gave. |
| `Erc20.AllowanceIsHistory` | src/smart_contracts.rs:523-585 | After any run an allowance is the last approval minus what was spent under it since. |
| `Erc20.NoOverflowUnderCap` | src/smart_contracts.rs:396-518 | With a supply cap no balance overflows in any run, and the supply does not when the cap leaves room for one more largest amount. |
| `Erc20.SupplyOverflowsExactly` | src/smart_contracts.rs:652-690 | Some run is refused for supply overflow if and only if the cap leaves less room than that. |
| `Erc20.SupplyAfter` | src/smart_contracts.rs:396-725 | Only minting and burning change the supply, by exactly their amount. |
| `Erc20.BalanceAfter` | src/smart_contracts.rs:396-725 | One accepted call changes each balance by what it credits and debits. |
| `Erc20.AllowanceAfter` | src/smart_contracts.rs:450-585 | One accepted call changes an allowance only by approval or by spending it. |
| `Nft.CallKeepsInv` | src/smart_contracts.rs:756-1332 | Every accepted token call keeps the owner map, the counters, the reverse index and the enumeration in agreement and the side tables on live tokens. |
| `Nft.ReachableInv` | src/smart_contracts.rs:756-1332 | So they agree after every run. |
| `Nft.ChecksExactly` | src/smart_contracts.rs:1139-1196 | The integrity check, together with two facts it does not look at, is equivalent to that agreement. |
| `Nft.ReachablePassesChecks` | src/smart_contracts.rs:1139-1196 | The integrity check passes after every run. |
| `Nft.ChecksAreIncomplete` | src/smart_contracts.rs:1139-1196 | A concrete state that passes the check although a token is missing from its owner's entry. |
| `NftRules.CapIsKeptExactly` | src/smart_contracts.rs:756-1065 | An accepted call keeps every owner within the cap if and only if it is not a transfer to one who has reached it. |
| `NftRules.TransferPassesCap` | src/smart_contracts.rs:756-925 | A run that fills one owner up to the cap and then transfers one token more to it. |
| `NftRules.ApprovalsStandExactly` | src/smart_contracts.rs:840-1065 | After every call of a run each approval on record was given by the present owner and has stood since, if and only if no owner transfers a token that has one. |
| `NftRules.ApprovalOutlivesOwner` | src/smart_contracts.rs:840-1065 | A run in which the approval of the first owner still moves the token of the second. |
| `SmartContract.CallKeepsGood` | src/smart_contracts.rs:275-322 | Every call keeps the token structures in agreement and the supply under the cap. |
| `SmartContract.RunsAreIndependent` | src/smart_contracts.rs:275-322 | A run of `execute` is a run of its fungible operations beside a run of its token operations. |
| `SmartContract.Contract.Execute` | src/smart_contracts.rs:275-322 | A refused call changes nothing; an accepted one takes exactly its operation's step and advances the sequence number. |
| `SmartContract.Contract.CurrentSupply` | src/smart_contracts.rs:1401-1403 | The sum of all balances, in whatever order they are visited. |
| `SmartContract.Contract.CallFungible` | src/smart_contracts.rs:396-725 | The in-place updates of the fungible operations follow the specification, errors included. |
| `SmartContract.Contract.CallToken` | src/smart_contracts.rs:756-1332 | The in-place updates of the token operations follow the specification, errors included. |
| `SmartContract.Contract.RemoveFromIndex` | src/smart_contracts.rs:1270-1332 | The first occurrence of the token leaves the enumeration, the order of the others stays. |
| `SmartContract.Contract.TokensOfOwner` | src/smart_contracts.rs:1103-1113 | The owner's tokens, each once, in ascending order. |
| `SmartContract.Contract.VerifyNftIntegrity` | src/smart_contracts.rs:1139-1196 | True exactly when the five checks hold, and always true on a valid contract. |
| `DependencyGraph.SearchIsSound` | src/contract_validation.rs:444-458 | On any graph, whenever the recursive search returns, its answer is whether the target is reachable. |
| `DependencyGraph.SearchEndsExactly` | src/contract_validation.rs:444-458 | For any target and on any graph, the search returns if and only if its start neither reaches the target nor a cycle, or the walk along the first neighbors that are not such dead ends comes to the target. |
| `DependencyGraph.FailingSearchEnds` | src/contract_validation.rs:444-458 | A search for a node out of reach returns if and only if no cycle is in reach. |
| `DependencyGraph.AcyclicSearch` | src/contract_validation.rs:444-458 | Where no cycle is in reach the search returns within as many nested calls as there are nodes with edges, plus one. |
| `DependencyGraph.GuardIsExact` | src/contract_validation.rs:438-441 | On an acyclic graph the guard refuses an edge if and only if it would close a cycle. |
| `DependencyGraph.GuardedIsAcyclic` | src/contract_validation.rs:433-441 | A graph grown under the guard is acyclic after any sequence of offered edges. |
| `DependencyGraph.ValidatorMissesOnlySelfLoops` | src/contract_validation.rs:461-475 | Acceptance, in any order of the edges, together with the absence of self-loops is equivalent to acyclicity. |
| `DependencyGraph.AcceptedExactly` | src/contract_validation.rs:461-475 | The validator accepts, in any order of the edges, if and only if no edge between two different nodes leads into a cycle. |
| `DependencyGraph.RejectedHasCycle` | src/contract_validation.rs:461-475 | Whenever it rejects, the graph has a cycle. |
| `DependencyGraph.GuardedIsAccepted` | src/contract_validation.rs:433-475 | Every graph grown under the guard is accepted, within as many nested calls as it has nodes, plus one. |
| `DependencyGraph.SelfLoopIsAccepted` | src/contract_validation.rs:461-475 | A self-loop alone is accepted. |
| `DependencyGraph.ValidatorMayNotReturn` | src/contract_validation.rs:444-475 | On a concrete graph without a self-loop the validator never answers, at any depth. |
| `DependencyGraph.CanReach` | src/contract_validation.rs:444-458 | The recursion returns the truth whenever it ends. |
| `DependencyGraph.Dependencies.Add` | src/contract_validation.rs:433-435 | One edge is appended, nothing else changes. |
| `DependencyGraph.Dependencies.WouldCreateCycle` | src/contract_validation.rs:438-441 | Whenever the search returns, true exactly when the source is reachable from the target; on an acyclic graph, exactly when adding the edge would close a cycle. |
| `DependencyGraph.Dependencies.AddGuarded` | src/contract_validation.rs:433-441 | Adds the edge exactly when the graph stays acyclic. |
| `DependencyGraph.Dependencies.ValidateNoCycles` | src/contract_validation.rs:461-475 | Whenever its searches return, accepts exactly the graphs in which no edge between two different nodes leads into a cycle. |
| `RateLimits.RateLimiter.CheckAndRecord` | src/contract_validation.rs:213-231 | Accepted exactly when fewer than the limit are remembered in the window ending now, and then recorded. |
| `RateLimits.RateLimiter.CurrentCount` | src/contract_validation.rs:234-240 | The number of operations remembered in the window. |
| `RateLimits.RateLimiter.CountIsAccepted` | src/contract_validation.rs:234-240 | After time zero that is the number of operations accepted in the window. |
| `RateLimits.RateLimiter.LimitHolds` | src/contract_validation.rs:196-241 | In a run after time zero every window of one period, wherever it lies, contains at most the limit. |
| `RateLimits.TimeZeroIsUnlimited` | src/contract_validation.rs:213-231 | One operation more than the limit, all at time zero, are all accepted. |
| `RateLimits.PromiseHoldsExactly` | src/contract_validation.rs:196-241 | All runs from a starting time on keep every window within the limit if and only if that time is after zero, or the limit or the period is zero. |
| `SlidingWindow.SpacedExactly` | src/contract_validation.rs:213-231 | Every window is within the limit if and only if each operation is at least a period after the one that many places before it. |
| `RateLimits.CheckLimit` | src/middleware.rs:63-108 | The staged check follows the specification, with a clock reading per stage. |
| `RateLimits.CheckKeepsInv` | src/middleware.rs:63-108 | A checked request keeps the limits per second and per minute over the whole history. |
| `RateLimits.CheckKeepsHour` | src/middleware.rs:63-108 | And the limit per hour. |
| `RateLimits.EvictionKeepsInv` | src/middleware.rs:211-232 | Forgetting a stale address loses nothing the second and minute limits need. |
| `RateLimits.EvictionKeepsHourExactly` | src/middleware.rs:211-232 | Forgetting an address keeps what the hourly limit needs if and only if nothing on record is from the last hour. |
| `RateLimits.EvictionLosesHour` | src/middleware.rs:211-232 | After 50,001 addresses the first one is evicted and exceeds its hourly limit. |
| `RateLimits.RateLimitTable.Evict` | src/middleware.rs:211-232 | Above the size limit exactly the stale addresses are dropped. |
| `RateLimits.RateLimitTable.Request` | src/middleware.rs:194-236 | One request: eviction above the size limit, check and record, with the history extended exactly when it is let through. |
| `RateLimits.RateLimitTable.LimitsHold` | src/middleware.rs:72-108 | For every address every window keeps the second and minute limits, and the hour limit unless the address was evicted within an hour of an accepted request. |
| `ReplayGate.TimestampError` | src/transaction_validation.rs:365-388 | No error exactly for timestamps within the drift ahead and the age behind. |
| `ReplayGate.NoReplay` | src/transaction_validation.rs:246-581 | In every run with a clock that does not go back, a transaction whose lifetime is shorter than what every clean-up keeps is not accepted twice. |
| `ReplayGate.ReplayExactly` | src/transaction_validation.rs:246-581 | Some run with clean-ups of at least a given age accepts a transaction twice if and only if it is well formed, senders may have a pending transaction, and its lifetime is at least that age. |
| `ReplayConfirmations.OrderlyReplayExactly` | src/transaction_validation.rs:246-581 | In runs that confirm only accepted transactions a replay is possible if and only if, besides that, a sender may have two pending transactions, or one without sequence tracking. |
| `ReplayGate.NoDuplicates` | src/transaction_validation.rs:246-362 | Between clean-ups no two accepted transactions share an id or a content, whatever the content hash collides on. |
| `ReplayGate.TransactionValidator.Validate` | src/transaction_validation.rs:246-347 | The first failed check in order, or acceptance with both records and the sender's pending list updated. |
| `ReplayGate.TransactionValidator.ConfirmTransaction` | src/transaction_validation.rs:548-552 | The sender's confirmed sequence moves and the pending entry goes. |
| `ReplayGate.TransactionValidator.CleanupOldRecords` | src/transaction_validation.rs:566-581 | Exactly the records of at least the given age are dropped. |
| `Merkle.UpKeepsRoot` | src/blockchain.rs:80-103 | Folding one level leaves the root of the tree unchanged. |
| `Merkle.NextLevel` | src/blockchain.rs:88-99 | One level is joined in pairs with an odd last hash carried up. |
| `Merkle.FoldLevels` | src/blockchain.rs:305-328 | The loop ends and leaves the root of the tree that splits its leaves at the largest power of two below their number. |
| `Merkle.RootBindsLeaves` | src/blockchain.rs:80-103 | For equally many leaves equal roots mean equal leaves in order, unless two of the strings hashed collide. |
| `Merkle.CountIsNotBound` | src/blockchain.rs:80-103 | With different counts it fails: a pair and the single leaf that is its hash have one root. |
| `LegacyBlocks.CalculateMerkleRoot` | src/blockchain.rs:80-103 | The root of the transaction hashes, empty for no transactions. |
| `LegacyBlocks.RootFixesTransactions` | src/blockchain.rs:108-157 | Two valid blocks with one root and one count hold the same transaction hashes. |
| `LegacyBlocks.CheckBlock` | src/blockchain.rs:150-157 | True exactly when hash, difficulty and root are right. |
| `LegacyBlocks.IsChainValid` | src/blockchain.rs:490-524 | Accepts exactly the non-empty chains of valid, linked blocks; the check for repeated indices never decides. |
| `LegacyBlocks.IsValidChainStatic` | src/blockchain.rs:574-601 | Accepts exactly the same chains. |
| `LegacyBlocks.IndicesCountUp` | src/blockchain.rs:490-524 | The indices of a valid chain count up from its first. |
| `LegacyBlocks.Mine` | src/blockchain.rs:133-145 | The first nonce whose hash meets the difficulty, with nothing else changed. |
| `LegacyBlocks.CreateGenesis` | src/blockchain.rs:244-300 | The block built in each case, that the fallback is never valid, and that the block is valid if and only if the difficulty is zero and the first hash empty, or the first nonce that meets it and the next one hash alike. |
| `LegacyBlocks.CalculateBalance` | src/blockchain.rs:631-648 | The balance as the fold of all transactions in chain order. |
| `LegacyBlocks.ValidateTransaction` | src/blockchain.rs:698-752 | The first failed check of a transaction against the chain. |
| `LegacyChain.AdjustmentDirection` | src/blockchain.rs:194-239 | A difficulty between 1 and 20 stays there, moves by at most one, rises exactly when the interval took more than a quarter longer than expected and falls exactly when it took less than five sixths. |
| `LegacyChain.AppendIsValidExactly` | src/blockchain.rs:377-425 | Appending a block as `add_block` does gives a valid chain if and only if the chain was valid and started at index zero. |
| `LegacyChain.BuiltIsValidFromGenesis` | src/blockchain.rs:377-425 | A chain grown by appending is valid if and only if its first block is. |
| `LegacyChain.AppendKeepsNoReplay` | src/blockchain.rs:757-764 | No user transaction of an appended block repeats an id of an earlier block. |
| `LegacyChain.IdsOccurOnceExactly` | src/blockchain.rs:757-764 | On a chain without replays between blocks every user id occurs once if and only if no block repeats one. |
| `LegacyChain.RepeatInBlockPasses` | src/blockchain.rs:398-411 | A block that holds one passing transaction twice passes. |
| `LegacyChain.RepeatIsAdopted` | src/blockchain.rs:543-569 | A longer chain that holds one passing transaction in two blocks is adopted. |
| `LegacyChain.RewardCoinbases` | src/blockchain.rs:452-484 | A rewarded block carries one coinbase more than its transactions, and two when the fees are at least two. |
| `LegacyChain.BurningFeesIsRefused` | src/blockchain.rs:398-484 | A rewarded block that passes every other check is refused for two coinbases if and only if its fees are at least two or it carried one already, and accepted otherwise. |
| `LegacyChain.SharedHistoryIsNotAdopted` | src/blockchain.rs:543-569 | A chain that contains a user transaction confirmed in ours is never adopted. |
| `LegacyChain.Blockchain.constructor` | src/blockchain.rs:177-188 | A new chain holds the genesis block only, counts as checked, and is valid exactly under the condition of the genesis block. |
| `LegacyChain.Blockchain.AdjustDifficulty` | src/blockchain.rs:194-239 | The in-place adjustment gives the adjusted difficulty, moves by at most one within 1 to 20, and reports whether it moved. |
| `LegacyChain.Blockchain.CheckTransactions` | src/blockchain.rs:398-411 | The first refused transaction, or the number of coinbases. |
| `LegacyChain.Blockchain.AddBlock` | src/blockchain.rs:377-425 | Refused exactly for the stated reasons; otherwise one valid block is appended, validity, freedom from replays and the record of checked blocks are kept, and user ids stay unique exactly when the block repeats none. |
| `LegacyChain.Blockchain.ResolveConflict` | src/blockchain.rs:543-569 | Adopts exactly the longer valid chains all of whose non-coinbase transactions pass against our chain; replays stay out, and blocks checked, exactly when that chain is so. |
| `LegacyLedger.BalanceIsHistoryExactly` | src/blockchain.rs:631-648 | On any chain a balance is what came in less what went out if and only if no spend was larger than what was there. |
| `LegacyLedger.OneSpendIsCovered` | src/blockchain.rs:398-411 | In a block whose transactions all pass, the spend of an account that spends once is covered. |
| `LegacyLedger.CheckedBalanceIsExact` | src/blockchain.rs:377-425 | On a chain grown by `add_block`, the balance of an account that the genesis block does not spend from and that spends at most once in every other block is what came in less what went out. |
| `LegacyLedger.TwoSpendsAreNotCovered` | src/blockchain.rs:398-411 | Two spends of 7 in one block both pass on a balance of 10, and the second is not covered. |
| `Staking.RunConserves` | src/staking.rs:134-379 | Over every run the tokens staked are those held, returned and slashed. |
| `Staking.StepConserves` | src/staking.rs:81-93 | So they are over every single operation. |
| `Staking.CompletionPaysEverything` | src/staking.rs:204-243 | In any run, a completed withdrawal pays the stake at the request less the slashes since, and that is the amount asked for if and only if the amount asked for and those slashes add up to the stake at the request. |
| `Staking.PartialRequestPaysAll` | src/staking.rs:169-243 | With the default parameters a request for 1000 of 5000 tokens pays 5000. |
| `Staking.SlashFollowsValidation` | src/staking.rs:339-379 | In every run the validator slashed for a block had validated it if and only if it had validated anything, and for every block after the first it had. |
| `Staking.SlashWithoutValidation` | src/staking.rs:355-379 | A report for block zero slashes a validator that has only just staked. |
| `Staking.ChosenExactly` | src/staking.rs:284-291 | A position is chosen for exactly the residues in its own slice of the total. |
| `Staking.ShareIsStake` | src/staking.rs:250-295 | For any enumeration order each candidate is chosen for exactly as many residues as it has stake. |
| `Staking.CandidatesAreEligible` | src/staking.rs:254-259 | The candidates are exactly the eligible validators with their stakes. |
| `Staking.CandidatesAreDistinct` | src/staking.rs:254-259 | No validator is a candidate twice. |
| `Staking.StakingManager.AddStake` | src/staking.rs:134-161 | Takes exactly the step of staking, or reports the first failed check. |
| `Staking.StakingManager.Unstake` | src/staking.rs:169-197 | Marks the validator as leaving and reports the amount asked for. |
| `Staking.StakingManager.Complete` | src/staking.rs:204-243 | Pays out after the lock period and not before. |
| `Staking.StakingManager.Validated` | src/staking.rs:339-345 | Counts the validation and the reward. |
| `Staking.StakingManager.DetectAndSlashDoubleSign` | src/staking.rs:355-379 | Slashes exactly when the block index is the last one validated, never more than the stake. |
| `Staking.StakingManager.SelectValidator` | src/staking.rs:250-295 | The eligible validator whose slice contains the hash word modulo the total; the fallback is never reached. |
| `Governance.ExecutedProposalHistory` | src/governance_contracts.rs:184-374 | In any run an executed proposal was passed by one step on majority and quorum after the voting period, executed by a later one after the time lock, and its ballot has not moved since the first. |
| `Governance.ClosedWasPassed` | src/governance_contracts.rs:291-312 | The first half of that story, for succeeded proposals too. |
| `Governance.ExecutedIsFinal` | src/governance_contracts.rs:315-374 | An executed proposal never changes again. |
| `Governance.TalliesAreRecounts` | src/governance_contracts.rs:247-288 | When each voter's power is fixed per proposal, every tally in every state of a run is a recount of the recorded votes. |
| `Governance.RevoteIsExact` | src/governance_contracts.rs:269-277 | Otherwise a repeated vote leaves the earlier choice's tally right if and only if the powers agree or the tally held only a smaller earlier share. |
| `Governance.RevoteDrifts` | src/governance_contracts.rs:269-277 | A concrete repeated vote that leaves six votes behind. |
| `Governance.ExecutedIsCounted` | src/governance_contracts.rs:315-355 | The counter is the number of executed proposals. |
| `Governance.GovernanceContract.CreateProposal` | src/governance_contracts.rs:184-225 | Takes exactly the step of a creation and returns the new id. |
| `Governance.GovernanceContract.ActivateProposal` | src/governance_contracts.rs:228-244 | Activates a pending proposal and no other. |
| `Governance.GovernanceContract.CastVote` | src/governance_contracts.rs:247-288 | Takes exactly the step of a vote within the voting period. |
| `Governance.GovernanceContract.FinalizeVoting` | src/governance_contracts.rs:291-312 | Closes an active proposal after the voting period with the outcome of the ballot. |
| `Governance.GovernanceContract.ExecuteProposal` | src/governance_contracts.rs:315-355 | Executes a succeeded proposal after the time lock, once. |
| `Governance.GovernanceContract.CancelProposal` | src/governance_contracts.rs:358-374 | Only the owner cancels, and nothing that was executed. |
| `Governance.GovernanceContract.SetConfig` | src/governance_contracts.rs:382-397 | Only the owner changes the configuration, with a quorum of at most 100. |
| `MultiSig.ThresholdStaysReachable` | src/multisig_contracts.rs:127-338 | In every state of every run the threshold is between one and the number of members if and only if the owner is a member at the start. |
| `MultiSig.ExecutedWasApproved` | src/multisig_contracts.rs:208-263 | An executed operation was executed by one step with the signatures it still has, enough for the threshold at that moment and before its expiry. |
| `MultiSig.ExecutedIsFinal` | src/multisig_contracts.rs:208-281 | It is kept unchanged from then on and never executed again. |
| `MultiSig.SignersWereMembers` | src/multisig_contracts.rs:178-205 | Every signature on record was given, as recorded, by an accepted step of someone who was a member at that moment. |
| `MultiSig.MembersSufficeExactly` | src/multisig_contracts.rs:208-263 | An accepted execution has enough signatures of present members if and only if no more signers have left than it could spare. |
| `MultiSig.DepartedWereRemoved` | src/multisig_contracts.rs:298-320 | In every run a signer that is no member any more was removed by an accepted step after it had signed. |
| `MultiSig.DepartedSignerCounts` | src/multisig_contracts.rs:208-320 | A run that executes on two signatures, one of a member that has left. |
| `MultiSig.IdsAreAccounted` | src/multisig_contracts.rs:159-370 | Ids issued are the entries kept and the entries cleaned up. |
| `MultiSig.ExecutedIsCounted` | src/multisig_contracts.rs:208-370 | The counter is the number of executed entries. |
| `MultiSig.MultiSigContract.constructor` | src/multisig_contracts.rs:127-156 | A new contract has a threshold between one and its members. |
| `MultiSig.MultiSigContract.ProposeOperation` | src/multisig_contracts.rs:159-175 | Only the owner proposes; the new id is returned. |
| `MultiSig.MultiSigContract.SignOperation` | src/multisig_contracts.rs:178-205 | Takes exactly the step of a signature, or reports the first failed check. |
| `MultiSig.MultiSigContract.ExecuteOperation` | src/multisig_contracts.rs:208-263 | Takes exactly the step of an execution, or reports the first failed check. |
| `MultiSig.MultiSigContract.RevokeSignature` | src/multisig_contracts.rs:266-281 | Removes a signature from an operation that was not executed. |
| `MultiSig.MultiSigContract.InsertMember` | src/multisig_contracts.rs:284-295 | Appends a member that is not there yet. |
| `MultiSig.MultiSigContract.DropMember` | src/multisig_contracts.rs:298-320 | Removes the first occurrence of a member other than the owner and lowers the threshold if needed. |
| `MultiSig.MultiSigContract.SetThreshold` | src/multisig_contracts.rs:323-338 | Accepts thresholds between one and the number of members. |
| `MultiSig.MultiSigContract.CleanupExpired` | src/multisig_contracts.rs:355-370 | Drops exactly the expired operations that were not executed and counts them. |
| `MiningRewards.EpochIsQuotient` | src/mining.rs:155-158 | Repeated halving is one division by a power of two. |
| `MiningRewards.TotalIsExact` | src/mining.rs:155-158 | The rewards of k whole intervals, up to 64, and r further blocks are the interval times the sum of the first k rewards, plus r times the next. |
| `MiningRewards.TotalIsBounded` | src/mining.rs:155-158 | All rewards of the first 64 intervals are at most twice the first interval's. |
| `MiningRewards.TotalPastTheSchedule` | src/mining.rs:155-158 | With a shift by the word's width taken modulo it, every block past 64 intervals pays the base again. |
| `MiningRewards.BoundHoldsExactly` | src/mining.rs:155-158 | The bound then survives if and only if those blocks fit into what the schedule left under it. |
| `MiningRewards.BoundFailsLater` | src/mining.rs:155-158 | It fails for every configuration two intervals and one block later. |
| `Mining.MiningService.WriteBlock` | src/storage/memory.rs:97-112 | A committed height is never overwritten. |
| `Mining.MiningService.MineBlock` | src/mining.rs:57-152 | Takes exactly one mining step at the next height, or reports the failed store access and changes nothing. |
| `Mining.MiningSucceeds` | src/mining.rs:57-152 | On a store of n linked blocks mining succeeds at height n and links to the block before. |
| `Mining.RunIsMined` | src/mining.rs:57-152 | Every run of n requests leaves n linked blocks. |
| `Mining.CoinbaseIdInjective` | src/mining.rs:57-152 | Every height has a coinbase id of its own. |
| `Mining.CoinbaseSurvivesExactly` | src/mining.rs:57-152 | After any run whose transactions do not name the coinbase source, the coinbase of a height is on record with its scheduled reward if and only if no transaction mined from then on carries its id. |
| `Mining.MintedIsSchedule` | src/mining.rs:57-158 | If none is overwritten, the coinbases on record add up to the reward schedule. |
| `Mining.CoinbaseCanBeReplaced` | src/mining.rs:57-152 | A transaction with the id of its own block's coinbase takes the place of that record. |
| `Mining.ReplayBlocks` | src/forensic.rs:387-428 | Consistent exactly when heights have no gap; every mismatch is a gap and every transaction is counted. |
| `Mining.MinedReplays` | src/forensic.rs:387-428 | Every mined chain, from any run, replays consistently from height zero. |
| `Plugins.RunKeepsInv` | src/plugin_contracts.rs:161-358 | In every run that installs plugins disabled, an id is listed under a hook exactly when that plugin is installed, enabled and declares the hook, and the enabled list is exact and free of duplicates. |
| `Plugins.InstallKeepsInvExactly` | src/plugin_contracts.rs:161-187 | An accepted installation keeps this if and only if the plugin comes disabled. |
| `Plugins.NothingIsSkipped` | src/plugin_contracts.rs:257-275 | In such a registry every entry of a hook is executed, in order. |
| `Plugins.RegistrationAddsOneRun` | src/plugin_contracts.rs:312-335 | Registering a hook again for an enabled plugin makes it run once more. |
| `Plugins.StatisticsNeverUnderflow` | src/plugin_contracts.rs:391-404 | In every run at all, the enabled list is no longer than the plugin map. |
| `Plugins.StatisticsAreExact` | src/plugin_contracts.rs:391-404 | In an exact registry the two counts are the enabled and the disabled plugins. |
| `Plugins.PluginRegistry.InstallPlugin` | src/plugin_contracts.rs:161-187 | Takes exactly the step of an installation, or reports the first failed check. |
| `Plugins.PluginRegistry.EnablePlugin` | src/plugin_contracts.rs:190-213 | Lists the plugin under each hook it declares, in whatever order they come. |
| `Plugins.PluginRegistry.DisablePlugin` | src/plugin_contracts.rs:216-238 | Removes it from each of them. |
| `Plugins.PluginRegistry.UninstallPlugin` | src/plugin_contracts.rs:241-254 | Only a disabled plugin can go. |
| `Plugins.PluginRegistry.Register` | src/plugin_contracts.rs:312-335 | Declares the hook and lists an enabled plugin once more under it. |
| `Plugins.PluginRegistry.Unregister` | src/plugin_contracts.rs:338-358 | Withdraws the hook and every entry of the plugin under it. |
| `Plugins.PluginRegistry.ExecuteHook` | src/plugin_contracts.rs:257-275 | One result and one counted run for every entry whose plugin is installed and enabled, in order. |
| `Plugins.PluginRegistry.EnabledAndDisabled` | src/plugin_contracts.rs:391-404 | The two counts add up to the plugins, and are exact in an exact registry. |
| `Base64.Base64Encode` | src/pki.rs:235-265 | The chunk loop produces the encoding of all bytes. |
| `Base64Bits.SecondIndex` | src/pki.rs:251 | The second index, computed with shifts and masks, takes two bits of one byte and four of the next. |
| `Base64Bits.ThirdIndex` | src/pki.rs:252-256 | The third takes four bits and two. |
| `Base64.EncodeChunk` | src/pki.rs:238-261 | One chunk gives the four characters of its group, padded when bytes are missing. |
| `Base64.RoundTrip` | src/pki.rs:235-265 | A strict decoder after section 4 of RFC 4648 gives every byte string back. |
| `Base64.EncodingIsCanonical` | src/pki.rs:235-265 | The encoding is the only text that decoder reads as those bytes. |
| `Base64.EncodedLength` | src/pki.rs:235-265 | Four characters for every three bytes begun. |
| `Base64.EncodedPadding` | src/pki.rs:250-261 | Padding stands exactly in the last places, as many as bytes are missing. |
| `Pem.DerToPemCert` | src/pki.rs:222-232 | The header, the wrapped encoding and the footer. |
| `Pem.LinesAreFull` | src/pki.rs:225-229 | Every line but the last has exactly 64 columns. |
| `Pem.UnwrapWrap` | src/pki.rs:225-229 | Removing the newlines gives the text back. |
| `Pem.PemRoundTrip` | src/pki.rs:222-232 | The certificate comes back byte for byte from its PEM text. |

## Left out

- BlockExecutor.ExecuteBlockConcurrent: a worker task that panics, which the program counts as a conflict, is not modelled; the report's totals are computed at the end instead of wave by wave.
- Addresses.CheckAddress: letters and digits are the ASCII ones, and the contract says when an address passes, not which error comes first.
- Histories, deletions and range queries of the world state; the locks and shared ownership around every store.
- Wrap-around of 64-bit counters and of unchecked additions where no bound is stated: versions, ids, vote tallies, stakes, chain indices and balances of the legacy chain.
- ReplayGate.TransactionValidator.Validate: the congestion multiplier and the minimum fee are one number, because the product is a floating-point one; the optional persistent store is not modelled.
- LegacyChain.AdjustmentDirection: the ratio of expected to actual time is compared exactly, not in floating point.
- Governance.GovernanceContract.FinalizeVoting: the quorum is compared exactly, not in floating point.
- Governance.GovernanceContract.CreateProposal: the proposal threshold is rounded down exactly, not in floating point.
- LegacyBlocks.Mine: the search may never end in the program; the model takes a nonce that meets the difficulty as a ghost argument and shows that the search stops no later.
- DependencyGraph.Dependencies.ValidateNoCycles: the recursion may never end in the program; the method takes a depth at which its searches do as a ghost argument, and the lemmas say on which graphs there is one.
- BftTimeouts.BackoffIsExact: the product is the wrapping one of an optimised build; a build with overflow checks stops there.
- MiningRewards.TotalPastTheSchedule: the shift by 64 is the masked one of an optimised build; a build with overflow checks stops there.
- Mining.MiningService.MineBlock: signatures and a store that fails for reasons of its own are not modelled.
- Base64.Base64Encode: the lookup table is given by the ranges of the alphabet instead of a literal of 64 characters.
- Contract events, integrity hashes, timestamps, metadata contents and custom functions; roles, audit log and the other validators of `contract_validation.rs`.
- Loading validators from a database, uptime and reward rates (`staking_rewards.rs`), permissions of plugins, proposal and operation texts.
- The integrity scan of the forensic engine: it hashes other fields than mining does, so it says nothing about mined chains.
- The mempool, wallets, checkpoints, caches, billing, airdrops, access lists and network security: counters and lookups that would add only easy members.
- The HTTP interface, peer-to-peer networking, TLS, certificate issuing, chaincode and metrics: input, output and wiring.
- Cryptography itself: hashes and signatures are unknown functions.
