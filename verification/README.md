# Verified cores of the mesh

A Dafny model of six state-carrying parts of the system, each with its own step semantics and with the properties its
design promises, proved for all inputs, all runs or all reachable states.

* **Training coordinator** (`Aggregation`, `RobustMeans`, `Majority`, `Statistics`, `Collection`, `RoundVerdicts`,
  `HonestRounds`, `OverrunRound`, `HonestMajority`, `TopK`, `Coordinator`): collecting, filtering, averaging and compressing
  gradients. The main results are the Byzantine bound, which holds exactly for a strict majority of the contributions and,
  over whole rounds, exactly if twice the dishonest workers are fewer than the gradients asked for; the discrete Chebyshev
  bound of the outlier pass; and top-k as the best sparse approximation.
* **Governance engine** (`Delegation`, `GovernanceModel`, `GovernanceProofs`, `VotingPowers`, `PowerCounting`,
  `EmptyAddress`, `Quorum`, `GovernanceRuns`, `GovernanceEngine`): delegations with their reverse index, ballots with cached
  totals, execution and treasury. One invariant links the maps over every run, and a ghost record of whose power each vote
  contains says when a power counts twice.
* **Pareto archive** (`Pareto`, `Weights`, `GepaOptimizer`): incremental pruning agrees with "the maximal elements of
  everything ever offered" and loses no optimum.
* **Manufacturing** (`EscrowModel`, `EscrowTerms`, `TrackingModel`, `StageTimes`, `OrdersModel`, `OrderTerms`,
  `OrderRecords`, `OrderTracking`, `OrderPayments` and the three services): orders drive escrows and tracking records; a call
  that throws half-way leaves what it had changed. The guards of the three objects fit together over every run.
* **Deduplication index and chunker** (`Similarity`, `DedupIndex`, `IngestAnswers`, `SemanticDedup`; `Text`, `Chunking`,
  `ChunkSizes`, `ChunkCoverage`, `CodeChunker`): separation of stored embeddings, agreement of the two search paths, and
  chunks that partition the lines of a source text and keep to their size.
* **Protocol guards** (`SlidingWindow`, `VaryingWindow`, `Allowances`, `DoubleVotes`, `NetworkHardening`; `VoteRounds`,
  `ConsensusEngine`): window limiters, double-vote detection and vote rounds as step systems.

Each part has the same shape. A module of functions says what one call does to a value (`Step`, `Run` over a sequence of
calls); lemmas prove what every step keeps and what every run satisfies; a class holds the fields the program updates in
place, and each of its methods is proved equal to the step function, guards in order and throwing calls included. Where the
theorems are about runs, `Valid()` of the class says that its state is what some run leaves, and lemmas of the class carry
the theorems over to the object. What a step function computes is also stated without it, by what it means for a caller:
sums over exactly the right entries, conditions for acceptance, amounts by index.
`Sums`, `Vectors`, `Sorting` and `Wrappers` are shared mathematics.

Conventions. Every asynchronous call is one atomic step with one clock reading, passed as a parameter. Floats are exact
reals, and the square root is a function constrained only by being non-negative and squaring back (`IsSqrt`). Bigints are
unbounded integers with division towards zero. Maps whose order matters are sequences of entries in insertion order.
A thrown error is a result; random draws, generated ids and hashes are parameters or left open.

Where the code differs from what its documentation or configuration says, the model follows the code:

* The tally applies neither the quorum nor the critical threshold that the repository's README.md (lines 187 to 189)
  documents (`HonorsQuorumIff` and `CriticalThresholdIsNotApplied` say exactly when that matters; `HalfOfQuorumPasses` and
  `CriticalProposalPasses` are runs that pass against them).
* A delegator may withdraw or redirect a delegation after the delegatee has voted with that power, and the power then
  counts twice (`WithdrawnDelegatorCountsTwice`; exactly when: `CountsTwiceNextIff`; never: `LoyalRunsCountOnce`).
  In simplified mode without quadratic voting a delegator may simply vote as well (`DelegatorVotesToo`).
* An honest majority of the workers that report does not keep any bound, because honest gradients may be refused on the
  way; fewer than half of the minimum that aggregation asks for being dishonest does (`WithstandsIff`).
* "No worker sees the full model" fails for one worker, or for more workers than weights (`NoShardIsWhole`).
* Removing a delegation tests the stored address for truth, so a delegation to the empty address stays
  (`RemovalRemoves`, `EmptyDelegationStays`), and the list of that address keeps everybody who ever was on it
  (`EmptyListKeepsEveryone`, `IndexIsExactIff`).
* A vote round counts votes, not nodes, and a timed-out round can still pass (`ApprovalsCountNodes`, `FailedMayPass`).
* Double-vote detection stops at the first contradiction and forgets the votes behind it (`VotesBehindAReportAreLost`;
  what it still detects: `ReportsIff`).
* A limiter whose window grows can overfill it (`SafeSwitchIff`).
* Escrow payouts are not conserved once an escrow has been settled (`NextCallOverpaysIff`, `OverpaysIff`), and an order
  marks a milestone before the escrow agrees to pay it (`CompletionPaysIff`, `EarlyCompletionFreezesEscrow`).

`dafny verify dfyconfig.toml` checks the whole project.

## Model

| member | source | states |
|---|---|---|
| Aggregation.ByzantineBound | src/training/coordinator.ts:302-331 | If strictly more than half of the contributions have norm at most h and the recorded norms are those of collection, the mean has L2 norm at most 3h, and so every coordinate lies in [-3h, 3h], whatever the others send |
| Majority.ToleratesIff | src/training/coordinator.ts:302-331 | For every number n of contributions, every k and every honest norm: k honest ones guarantee 3h, whatever the others send, exactly if they are a strict majority |
| HonestMajority.WithstandsIff | src/training/coordinator.ts:217-331 | For every b, every minimum of at least five, every positive honest norm h and every bound of at least 3h: at most b dishonest reporters, a strict minority of those who report, cannot move the mean of any round of any job beyond the bound, whatever earlier rounds were like, exactly if 2b is less than the minimum |
| HonestRounds.FewDishonestWithinTriple | src/training/coordinator.ts:217-343 | If twice the dishonest reporters are fewer than the minimum, a round that hands over the minimum aggregates within 3h at every compression level, whatever they send and whatever is on record |
| OverrunRound.Verdicts | src/training/coordinator.ts:397-429 | In the round that breaks the bound exactly the first 2b gradients pass the preliminary check: b too large and b honest; the last three honest ones are refused |
| OverrunRound.NobodyIsFar | src/training/coordinator.ts:252-265 | Its outlier pass removes nobody: a third of values that large makes three deviations reach beyond them |
| HonestRounds.RoundWithinTriple | src/training/coordinator.ts:217-343 | A second sufficient condition, for any number of gradients handed over: if at every turn of collection a strict majority of the known norms is at most h, the aggregate is within 3h at every compression level, also where honest gradients were refused |
| Aggregation.FilterKeepsHalf | src/training/coordinator.ts:302-325 | The three-times-median filter lets at least half of the gradients through, so the division is over a non-empty set |
| Aggregation.CutBelowTriple | src/training/coordinator.ts:307-310 | With an honest majority of norm at most h the cut is between 0 and 3h |
| Aggregation.MeanNorm | src/training/coordinator.ts:320-331 | The mean of vectors of norm at most r has norm at most r, whatever their lengths |
| RobustMeans.MeanAt | src/training/coordinator.ts:302-331 | At every coordinate the mean, times the number of entries whose recorded norm is at most three medians, is the sum of that coordinate over exactly those entries |
| RobustMeans.MeanBetween | src/training/coordinator.ts:302-331 | If all of them lie in an interval at a coordinate, so does the mean |
| RobustMeans.AggregateAt | src/training/coordinator.ts:302-349 | Without compression the answer is that mean, and each weight of the model decreases by the learning rate times it |
| RobustMeans.CompressionKeeps | src/training/coordinator.ts:362-394 | Compression keeps a hundredth of the coordinates, the largest, or a tenth of them, at least one, unchanged and clears the others |
| RobustMeans.ExcludedAreBeyond | src/training/coordinator.ts:310-317 | Excluded are exactly the workers whose recorded norm is beyond the cut |
| RobustMeans.NormIsEuclidean | src/training/coordinator.ts:768-776 | The norm is the Euclidean one |
| Statistics.MedianInMajority | src/training/coordinator.ts:781-786 | The median lies in every interval that holds a strict majority of the values |
| RoundVerdicts.MedianOfRanks | src/training/coordinator.ts:781-786 | Twice the median is the sum of the two middle values of the list in rising order, which for an odd number are one |
| Statistics.HalfWithinTriple | src/training/coordinator.ts:781-786 | At least half of a list of non-negative numbers is at most three times its median |
| Statistics.FewBeyondThreeSigma | src/training/coordinator.ts:252-265 | Discrete Chebyshev about the median: none, or strictly fewer than a ninth of the values, deviate by more than three deviations |
| RoundVerdicts.OutlierIff | src/training/coordinator.ts:252-265 | A norm is an outlier exactly if its squared distance from the median times the number of reports exceeds nine times the sum of all these squares |
| Collection.OutlierPassRemovesFew | src/training/coordinator.ts:217-269 | The outlier pass of a round removes nobody, or strictly fewer than one ninth of the workers that reported |
| Collection.CollectRecords | src/training/coordinator.ts:223-246 | After k turns each live worker among the first k carries the norm of what it sent, and nothing but their own gradients was accepted, at most one each |
| RoundVerdicts.AcceptedIff | src/training/coordinator.ts:223-246 | In every round a gradient is accepted exactly if its worker is live and no positive norm is known at its turn, its own included, or its norm is at most three times their median; the other live workers are rejected |
| RoundVerdicts.KnownAreThePositive | src/training/coordinator.ts:403-409 | The known norms are the positive ones on record, each as often as it is there |
| RoundVerdicts.ReportedNorms | src/training/coordinator.ts:223-246 | The norms the outlier pass looks at are those of all live workers, accepted or not, one each |
| RoundVerdicts.HandedOverIff | src/training/coordinator.ts:252-269 | An accepted gradient is handed over unless enough were accepted and it is an outlier |
| RoundVerdicts.ScoresFollow | src/training/coordinator.ts:223-265 | Ten points for a rejected gradient, then twenty more, not below zero, for an outlier |
| Collection.OutcomeIsSound | src/training/coordinator.ts:217-269 | What collection hands to aggregation has one entry per worker and recorded norms equal to the real ones: the premise of the Byzantine bound |
| Collection.ShardsPartition | src/training/coordinator.ts:187-196 | The shards, put together in worker order, are the model |
| RoundVerdicts.ShardIs | src/training/coordinator.ts:187-196 | Every worker but the last holds the same number of weights, the next ones of the model |
| Collection.NoShardIsWhole | src/training/coordinator.ts:187-196 | No worker holds the whole model exactly if there are at least two workers and no more workers than weights |
| Coordinator.AggregateWithinTriple | src/training/coordinator.ts:302-343 | The bound of three times the honest norm survives every compression level |
| Coordinator.ModelMovesLittle | src/training/coordinator.ts:302-349 | With an honest majority of norm at most h among the contributions a round moves no weight of the global model by more than the learning rate times 3h, at every compression level |
| Coordinator.TrainingCoordinator.FromConfig | src/training/coordinator.ts:133-164 | A full configuration is refused exactly if it asks for fewer than five workers; anything else gets the stated or default settings |
| Coordinator.TrainingCoordinator.DistributeModel | src/training/coordinator.ts:171-208 | An unknown job is refused and nothing changes; otherwise every worker of the job ends idle with its slice of the (existing or initial) model, nothing else changes, and the coordinator stays valid |
| Coordinator.TrainingJob.HandOutShards | src/training/coordinator.ts:187-202 | The loop leaves worker i with shard i of the model |
| Coordinator.TrainingCoordinator.ValidateGradient | src/training/coordinator.ts:397-429 | Accepts exactly if no positive norm is known or the norm is at most three times their median; a refusal costs ten points |
| Coordinator.TrainingCoordinator.CollectAll | src/training/coordinator.ts:223-246 | The loop performs one turn per worker in order: recorded norms, accepted gradients, penalties and statuses are those of the round |
| Coordinator.TrainingCoordinator.DropOutliers | src/training/coordinator.ts:252-265 | Removes exactly the outliers about the median and takes twenty points, not below zero, from each of them and nobody else |
| Coordinator.TrainingCoordinator.CollectGradients | src/training/coordinator.ts:217-269 | The buffer, the recorded norms, every status and every reputation after a round are those of the round on values, and the coordinator stays valid |
| Coordinator.TrainingCoordinator.SumSurvivors | src/training/coordinator.ts:302-325 | The in-place loop sums exactly the survivors of the filter and excludes exactly the others, thirty points each |
| Coordinator.TrainingCoordinator.AddInto | src/training/coordinator.ts:319-323 | Adds a gradient into the typed array position by position; positions beyond its end are dropped |
| Coordinator.TrainingCoordinator.AggregateGradients | src/training/coordinator.ts:281-356 | Fails for an unknown job or too few gradients; otherwise answers the compressed mean of the survivors with the excluded workers, penalises them once, moves the global model by the learning rate times the answer and counts one epoch |
| Coordinator.CompressTopK | src/training/coordinator.ts:362-375 | The copying loop yields the top-k vector: the kept coordinates unchanged, zero elsewhere |
| Coordinator.CompressRandom | src/training/coordinator.ts:376-394 | For every outcome of the shuffle exactly min(k, n) coordinates are kept unchanged and the rest are zero |
| Coordinator.Shuffle | src/training/coordinator.ts:381-386 | The in-place shuffle permutes the positions, whatever is drawn |
| TopK.SparsifiedIsClosest | src/training/coordinator.ts:362-375 | No vector with at most k non-zero coordinates is closer to the input than the top-k vector |
| TopK.KeptAreLargest | src/training/coordinator.ts:362-375 | Exactly min(k, n) positions are kept, and none outside them is larger in magnitude |
| TopK.CompressionIsBest | src/training/coordinator.ts:619-631 | The sparse form lists min(k, n) original values at strictly increasing positions, and no set of k positions carries more energy |
| TopK.KeepCountIs | src/training/coordinator.ts:619-631 | The number kept is the greatest that does not exceed the share, but at least one |
| Delegation.DelegateKeepsAcyclic | src/governance/engine.ts:176-215 | A delegation whose delegatee does not lead back to the delegator keeps the graph acyclic |
| Delegation.RemovalKeepsAcyclic | src/governance/engine.ts:203-208 | Removing a delegation keeps the graph acyclic |
| Delegation.DelegateKeepsInverse | src/governance/engine.ts:203-215 | Re-pointing a delegation keeps the reverse index the inverse of the delegations |
| Delegation.RemovalKeepsInverse | src/governance/engine.ts:168-176 | Removing a delegation keeps the reverse index the inverse of the delegations |
| Delegation.DelegateKeepsExact | src/governance/engine.ts:203-215 | The index stays exact also at the empty address unless the call replaces a delegation to the empty address by another one |
| EmptyAddress.EmptyListKeepsEveryone | src/governance/engine.ts:167-215 | After every run the list of the empty address holds exactly those who have ever delegated to it |
| EmptyAddress.IndexIsExactIff | src/governance/engine.ts:167-215 | After every run the index is the exact inverse of the delegations if and only if everybody who has ever delegated to the empty address does so still |
| EmptyAddress.StaleEntry | src/governance/engine.ts:203-215 | A run that delegates to the empty address and then to x leaves the delegator on both lists |
| Delegation.WalkNeverRepeats | src/governance/engine.ts:182-194 | In an acyclic graph the walk never meets an address twice, so only the delegator can end it early |
| VotingPowers.DelegationAcceptedIff | src/governance/engine.ts:167-215 | In every reachable state a delegation is accepted exactly if it closes no circle and the delegator has no vote in a running ballot; then it replaces the one there was |
| GovernanceProofs.ReachableIsSound | src/governance/engine.ts:167-579 | Every reachable state: acyclic delegations, the index their inverse for every non-empty address, cached totals equal to the recorded powers by direction, timely proposals with fresh ids, no full-mode voter of a running ballot delegating, treasury equal to its ledger and never negative |
| GovernanceProofs.StepKeepsInv | src/governance/engine.ts:167-579 | Every call, successful or throwing, keeps that invariant |
| GovernanceProofs.VoteKeepsTally | src/governance/engine.ts:386-403 | A vote or re-vote keeps the cached totals equal to the sums of the recorded powers |
| GovernanceProofs.StepMovesForward | src/governance/engine.ts:295-487 | One call leaves every proposal in place and its status as it was or one edge further (discussion to voting, voting to passed or rejected, passed to executed); a closed proposal is frozen |
| GovernanceProofs.StatusTakesOneEdge | src/governance/engine.ts:295-487 | After any run, one more call stays or takes one edge: no call skips the vote |
| GovernanceProofs.StatusMovesForward | src/governance/engine.ts:295-487 | Over every continuation of every run, proposals stay, their status walks along these edges, and a closed one is frozen |
| GovernanceProofs.ExecutionIsNeverEarly | src/governance/engine.ts:458-487 | In full mode an executed proposal has gone through its discussion, voting and timelock periods |
| VotingPowers.CreationAcceptedIff | src/governance/engine.ts:230-289 | In every reachable state a proposal is refused exactly for too small a deposit; otherwise it joins the others under a new id, in discussion and on its clock |
| VotingPowers.BallotClock | src/governance/engine.ts:295-449 | In full mode, from the creation on: a ballot opens after the discussion, takes votes by those who do not delegate during the voting period, and is counted after it; nothing else is refused |
| VotingPowers.CountDecides | src/governance/engine.ts:430-446 | A count passes a ballot exactly if something was cast and the recorded power in favour is the share of the proposal, or else the standard one, and changes nothing else |
| VotingPowers.ExecutionPays | src/governance/engine.ts:458-487 | Executing a treasury proposal with recipient and amount takes exactly that amount, which is there, and enters it in the ledger; any other execution leaves the treasury alone |
| VotingPowers.ExecutionAcceptedIff | src/governance/engine.ts:458-487 | A passed proposal after its timelock is refused only for want of money |
| VotingPowers.TreasuryMoves | src/governance/engine.ts:531-579 | Which deposits and spends are accepted, and what they do to treasury and ledger |
| GovernanceProofs.ListedDelegatorsHaveNotVoted | src/governance/engine.ts:344-383 | The delegators whose power a full-mode vote adds are exactly those delegating to the voter, and none of them has a vote in that ballot |
| VotingPowers.VoteWeighs | src/governance/engine.ts:318-384 | The power of a vote is the root of the balance that counts, cut off at a tenth of the supply, and that of the registered balance of everybody delegating to the voter and of nobody else; in quadratic simplified mode the root of the balance that counts. The balance that counts is at most the anti-whale share |
| VotingPowers.VoteIsRecorded | src/governance/engine.ts:386-403 | An accepted vote puts that power, direction, balance and time on record in place of an earlier one and changes no other vote |
| PowerCounting.CastAddsContributors | src/governance/engine.ts:344-384 | The power of a vote is the voter's own and that of every other address its contents list |
| PowerCounting.CastCountsTwiceIff | src/governance/engine.ts:330-408 | After any run, in every mode, an accepted vote makes some power count twice exactly if a power that goes into it, the voter's own or that of somebody delegating to the voter, is in the recorded vote of another voter (or the other votes already count one twice) |
| PowerCounting.CountsTwiceNextIff | src/governance/engine.ts:167-215 | While a ballot runs in which nothing counts twice, some next vote would count a power twice exactly if somebody whose power is in one vote is now spoken for by another address that may vote, having withdrawn or redirected the delegation |
| PowerCounting.LoyalRunsCountOnce | src/governance/engine.ts:167-408 | As long as nobody leaves a delegatee that has voted in a running ballot and nobody votes under the empty address, no ballot of any full-mode run counts a power twice |
| GovernanceRuns.WithdrawnDelegatorCountsTwice | src/governance/engine.ts:167-215 | Nothing in the code prevents that: in every full-mode configuration the run "d delegates to v, v votes, d withdraws, d votes" counts the power of d twice |
| GovernanceRuns.DelegatorVotesToo | src/governance/engine.ts:330-384 | In simplified mode without quadratic voting no withdrawal is needed: the run "d delegates to v, v votes, d votes" counts the power of d twice |
| PowerCounting.QuadraticRunsCountOnce | src/governance/engine.ts:344-384 | In quadratic simplified mode no run counts a power twice: a vote contains the voter's own power only |
| GovernanceProofs.PowerIsCapped | src/governance/engine.ts:318-384 | Outside quadratic simplified mode a vote is at most the cap for the voter and for each listed delegator |
| GovernanceProofs.TallyCountsRecordedVotes | src/governance/engine.ts:430-446 | A ballot closes as passed exactly if the recorded votes carry the required share of what was cast |
| GovernanceProofs.CriticalThresholdIsNotApplied | src/governance/engine.ts:434-439 | In every reachable state, closing a ballot without a threshold of its own departs from the configured rule exactly for critical proposals whose recorded share lies between the two thresholds |
| GovernanceProofs.RemovalRemoves | src/governance/engine.ts:168-176 | After any run, a removal leaves a delegation in place exactly if it points to the empty address |
| EmptyAddress.EmptyDelegationStays | src/governance/engine.ts:168-215 | Such a delegation can be made: delegating to the empty address and removing that again leaves it |
| GovernanceRuns.CriticalProposalPasses | src/governance/engine.ts:430-446 | A run in which a critical proposal passes with two thirds in favour, for every configuration whose critical threshold is at least 67 |
| Quorum.HonorsQuorumIff | src/governance/engine.ts:415-449 | Over all runs without negative balances, in every mode: every ballot that has passed meets the quorum exactly if the configuration asks for none |
| Quorum.HalfOfQuorumPasses | src/governance/engine.ts:415-449 | For every configuration with a positive quorum one vote of half of it passes a proposal |
| GovernanceEngine.GovernanceEngine.SetDelegation | src/governance/engine.ts:167-215 | Throws "circular" exactly if the delegator is reachable from the delegatee and in the order of the guards otherwise; a throwing call changes nothing; otherwise both maps are updated together |
| GovernanceEngine.GovernanceEngine.LeadsTo | src/governance/engine.ts:182-194 | The cycle search terminates and finds a cycle exactly if the delegator is reachable from the delegatee |
| GovernanceEngine.GovernanceEngine.HasActiveVote | src/governance/engine.ts:196-201 | Found exactly if the address has a vote in some running ballot |
| GovernanceEngine.GovernanceEngine.CreateSimple | src/governance/engine.ts:230-257 | Refused below the minimum deposit; otherwise a new proposal under an id no other proposal has |
| GovernanceEngine.GovernanceEngine.CreateFull | src/governance/engine.ts:259-289 | Refused below a deposit of 1000; otherwise a new proposal under an id no other proposal has |
| GovernanceEngine.GovernanceEngine.StartVoting | src/governance/engine.ts:295-311 | Opens a ballot from discussion only, and in full mode not before its start |
| GovernanceEngine.GovernanceEngine.ComputePower | src/governance/engine.ts:356-384 | The loop over the delegators adds up to the same power in every order |
| GovernanceEngine.GovernanceEngine.RecordVote | src/governance/engine.ts:386-403 | Taking the old vote out of the totals and adding the new one in place is the replacement on values |
| GovernanceEngine.GovernanceEngine.CastVote | src/governance/engine.ts:330-408 | Exact guards, the new state, and the receipt: power, the balance and whether the cap was applied |
| GovernanceEngine.GovernanceEngine.TallyVotes | src/governance/engine.ts:415-449 | Closes a running ballot, in full mode not before its end; the totals it answers are the recorded powers of each direction |
| GovernanceEngine.GovernanceEngine.ExecuteProposal | src/governance/engine.ts:458-487 | Executes a passed proposal after its timelock; a treasury proposal spends only what the treasury holds, and a spend that throws executes nothing |
| GovernanceEngine.GovernanceEngine.RecordDeposit | src/governance/engine.ts:531-545 | Only positive deposits, entered in treasury and ledger |
| GovernanceEngine.GovernanceEngine.RecordSpend | src/governance/engine.ts:554-579 | Only positive spends within the treasury for a treasury proposal |
| Pareto.DominanceTransitive | src/optimization/gepaOptimizer.ts:208-220 | Dominance is transitive although records list different dimensions and missing ones count as zero |
| Weights.DominatedIff | src/optimization/gepaOptimizer.ts:208-220 | One record dominates another exactly if it scores higher under every positive weighting of the dimensions |
| Weights.BestIsFirst | src/optimization/gepaOptimizer.ts:235-252 | The best of a list is the first one whose scores add up to the most |
| Pareto.ArchiveIsExact | src/optimization/gepaOptimizer.ts:180-199 | After any sequence of offers the archive is exactly the offered points no offered point dominates, in offer order, and every other offer is dominated by a member |
| Pareto.ArchiveStep | src/optimization/gepaOptimizer.ts:180-199 | A newcomer is refused exactly if something ever offered dominates it, not only something kept |
| Pareto.ArchiveIgnoresOrder | src/optimization/gepaOptimizer.ts:180-199 | The kept points do not depend on the order of the offers |
| Pareto.DominatingSumsHigher | src/optimization/gepaOptimizer.ts:208-252 | A dominating point has the larger sum of scores |
| Pareto.PruningLosesNoBest | src/optimization/gepaOptimizer.ts:235-252 | The first best point by sum of scores among all points ever offered is the one getBest finds in the archive |
| Pareto.PruningLosesNoDimension | src/optimization/gepaOptimizer.ts:235-252 | No point ever offered beats the archive in any single dimension |
| GepaOptimizer.CheckDominated | src/optimization/gepaOptimizer.ts:208-220 | The flag loop over the dimensions of both records decides dominance |
| GepaOptimizer.GEPAOptimizer.UpdateFrontier | src/optimization/gepaOptimizer.ts:180-199 | The in-place update accepts exactly the points nothing ever offered dominates, and the frontier stays the exact archive |
| GepaOptimizer.GEPAOptimizer.GetFrontier | src/optimization/gepaOptimizer.ts:226-228 | Filtering by the dominated mark returns the whole frontier |
| GepaOptimizer.GEPAOptimizer.GetBest | src/optimization/gepaOptimizer.ts:235-252 | The best of everything ever offered, by sum of scores or by one dimension; a placeholder if nothing was offered |
| GepaOptimizer.GEPAOptimizer.SelectFromFrontier | src/optimization/gepaOptimizer.ts:115-133 | As many parents as asked for, each the winner of a tournament between two drawn members of the frontier: one of the two, and not dominated by the other |
| GepaOptimizer.GEPAOptimizer.Optimize | src/optimization/gepaOptimizer.ts:51-108 | A run goes on from whatever was offered before: it offers its draws in order and returns the exact archive and the best point of everything ever offered |
| GepaOptimizer.GEPAOptimizer.DrawsInAll | src/optimization/gepaOptimizer.ts:51-108 | A run draws the population first and then, each time, half of it but at least one |
| EscrowModel.TermsStand | src/manufacturing/escrows.ts:237-382 | No call changes the amounts or the total of an escrow, and no more milestones are released than there are |
| EscrowTerms.AcceptedIff | src/manufacturing/escrows.ts:237-382 | Exactly which calls are accepted: the next milestone in any status, a dispute while nothing is settled, a whole percentage of a disputed escrow, a refund unless refunded or complete |
| EscrowTerms.ReleaseRefusals | src/manufacturing/escrows.ts:237-262 | A refused release names the reason: no such milestone, paid already, or earlier ones first |
| EscrowTerms.ReleaseMovesOn | src/manufacturing/escrows.ts:264-278 | A release pays the next milestone, and the status tells whether it was the last, the first or the second |
| EscrowModel.MilestonesReleaseInOrder | src/manufacturing/escrows.ts:237-278 | Over every run the milestone payments are the first milestones in index order, each once and for its own amount |
| EscrowModel.StatusTellsReleases | src/manufacturing/escrows.ts:264-271 | Over every run of a new escrow the status tells how many milestones are released, and an escrow whose last milestone is released stays complete |
| EscrowModel.ReleasedIsPaidOut | src/manufacturing/escrows.ts:414-431 | The reported released amount is what the milestone payments of the run add up to, and released plus remaining is the total |
| EscrowModel.RemainderNeverNegative | src/manufacturing/escrows.ts:328-335 | No run leaves a negative remainder exactly if no prefix of the milestone amounts exceeds the total |
| EscrowModel.OpenedIsNeverShort | src/manufacturing/escrows.ts:185-189 | Non-negative amounts that pass the guard of creation keep the remainder between zero and the total for ever |
| EscrowModel.SplitIsFair | src/manufacturing/escrows.ts:328-348 | A dispute is split into two non-negative parts that add up to the remainder, the buyer's rounded down |
| EscrowTerms.ResolutionEnds | src/manufacturing/escrows.ts:328-348 | A resolution of n per cent pays the buyer that part, rounded down, and the manufacturer the rest; the escrow is refunded exactly for a hundred, complete exactly for none, and stays disputed otherwise |
| EscrowModel.PayoutOfRun | src/manufacturing/escrows.ts:237-382 | What a run pays in all: the released milestones before any settlement; after one, the total plus everything paid since |
| EscrowModel.NextCallOverpaysIff | src/manufacturing/escrows.ts:237-382 | At any point of a run of an escrow without negative amounts the next call raises the payments above the total exactly if a resolution or refund has been accepted before and the call passes its guards with a milestone amount or a remainder greater than zero |
| EscrowModel.OverpaysIff | src/manufacturing/escrows.ts:237-382 | Without negative amounts a run pays more than the total exactly if one of its calls finds the escrow settled, passes its guards and has something to pay |
| EscrowModel.ReleaseAfterRefund | src/manufacturing/escrows.ts:237-382 | A refunded escrow still releases milestones: a run that pays 14 out of 10 |
| EscrowService.ManufacturingEscrow.CreateEscrow | src/manufacturing/escrows.ts:177-230 | Refused exactly if the milestones sum to more than the total; otherwise a funded escrow under the drawn id |
| EscrowService.ManufacturingEscrow.ReleaseMilestone | src/manufacturing/escrows.ts:237-278 | Exact order of refusals; a release pays the amount of the next milestone and moves the status by the count |
| EscrowService.ManufacturingEscrow.RaiseDispute | src/manufacturing/escrows.ts:285-303 | Refused for unknown, disputed and settled escrows only |
| EscrowService.ManufacturingEscrow.ResolveDispute | src/manufacturing/escrows.ts:310-348 | Exact order of refusals; pays the two parts and settles the escrow only at 0 or 100 percent |
| EscrowService.ManufacturingEscrow.RefundBuyer | src/manufacturing/escrows.ts:355-382 | Refused for unknown, refunded and complete escrows only; pays the remainder |
| EscrowService.ManufacturingEscrow.GetReleasedAmount | src/manufacturing/escrows.ts:414-421 | The sum of the released milestones, zero for an unknown escrow |
| EscrowService.ManufacturingEscrow.GetRemainingAmount | src/manufacturing/escrows.ts:426-431 | The total less that sum, zero for an unknown escrow |
| EscrowService.ManufacturingEscrow.EveryEscrowIsSound | src/manufacturing/escrows.ts:177-382 | Every escrow of the service comes from a run: its status fits its releases, and without negative amounts its remainder is between zero and the total |
| TrackingModel.RunIsSound | src/manufacturing/tracking.ts:260-313 | Over every run of attempts the stages never go down, the current one is the last, a record is complete exactly if its last stage is the completion, and nothing follows that |
| TrackingModel.AcceptedStages | src/manufacturing/tracking.ts:271-313 | From any point of a run on: history stays, new stages are at least the current one, after a dispute only disputes, after completion nothing |
| StageTimes.RefusedIff | src/manufacturing/tracking.ts:271-313 | Over every run an attempt is refused exactly for a recorded completion, an unverified actor or, unless it is a dispute, a stage below one recorded, in this order; otherwise it is appended |
| TrackingModel.DurationsTelescope | src/manufacturing/tracking.ts:381-394 | The durations of all stages add up to the time from the start to the last checkpoint |
| StageTimes.ChargedToTheStageReached | src/manufacturing/tracking.ts:381-394 | The time charged to a stage is the sum of the stretches that end with a checkpoint of that stage |
| TrackingModel.DurationsAreTimes | src/manufacturing/tracking.ts:381-394 | With a clock that does not run backwards no duration is negative, and exactly the visited stages have one |
| TrackingService.SupplyChainTracking.InitializeTracking | src/manufacturing/tracking.ts:234-255 | A fresh record at the first stage under the product id |
| TrackingService.SupplyChainTracking.RecordCheckpoint | src/manufacturing/tracking.ts:260-337 | Exact order of refusals; otherwise appends one checkpoint, moves the stage and answers its position |
| TrackingService.SupplyChainTracking.GetStageDurations | src/manufacturing/tracking.ts:381-394 | The accumulating loop computes the durations |
| TrackingService.SupplyChainTracking.EveryRecordIsSound | src/manufacturing/tracking.ts:234-337 | Every record of the service comes from a run: stages go up and only a last one completes it |
| OrderTracking.CheckpointsAreAccepted | src/manufacturing/orders.ts:218-432 | Guards fit together: in every reachable state, whatever call comes next, a checkpoint of an order is refused only if the actor is not verified, never for going back, for completion or for an unknown product |
| OrderTracking.CallIsFine | src/manufacturing/orders.ts:118-552 | Every call keeps order status, milestone 1 and tracking stage linked |
| OrderTracking.RecordStopsClimb | src/manufacturing/orders.ts:376-424 | Stops that climb are recorded one after the other unless the actor is unverified, also when the series breaks off |
| OrderRecords.CallRecords | src/manufacturing/orders.ts:252-432 | Every call that goes through adds exactly the checkpoints of its kind to the record of its order, with their places, by the account of the service |
| OrderTerms.StatusMoves | src/manufacturing/orders.ts:118-552 | Every call leaves every order it does not name alone, moves the status of the one it names only along its own edge, and if it goes through, to where it says |
| OrderPayments.SharesLeaveAtMostTwo | src/manufacturing/orders.ts:128-156 | For a total that is not negative the three shares are not negative and leave at most two units over |
| OrderPayments.SharesExceedIff | src/manufacturing/orders.ts:128-156 | The shares exceed the total exactly if it is negative and no multiple of five |
| OrderTerms.CreatedOnTerms | src/manufacturing/orders.ts:118-178 | A new order has milestones of two fifths, two fifths and one fifth of its total, in this order and rounded down, not begun, as a draft of its own id |
| OrderTerms.ReleasePaysOnTerms | src/manufacturing/orders.ts:128-156 | In every reachable state a release pays on these terms: two fifths for the first and the second milestone, one fifth for the third |
| OrderRecords.ApprovedIff | src/manufacturing/orders.ts:198-213 | An order is approved exactly if it awaits approval and its own manufacturer asks, in whatever letter case |
| OrderRecords.FundingLinks | src/manufacturing/orders.ts:218-247 | Funding opens an escrow on the terms of the order and a record at the first stage, and links both |
| OrderPayments.FundingFailsIff | src/manufacturing/orders.ts:218-247 | Funding an approved order fails exactly for such a total, and then changes nothing |
| OrderPayments.CallFollows | src/manufacturing/orders.ts:118-552 | Every call, direct calls on the escrow service included, keeps each order backed by an escrow of its own terms, and every milestone not paid through its order unpaid |
| OrderPayments.ReleasedIsMarked | src/manufacturing/orders.ts:305-331 | In every reachable state the milestones an escrow has released are marked completed in its order or were released by a direct call on the escrow service, and its remainder lies between zero and the total |
| OrderPayments.OnlyEarlierFirst | src/manufacturing/orders.ts:305-331 | What completeMilestone and confirmDelivery can hear from the escrow, in every reachable state: that earlier milestones come first, or that a direct call has already released this one |
| OrderPayments.CompletionPaysIff | src/manufacturing/orders.ts:321-331 | Completing an open milestone pays exactly if it is the next one; too early, it is marked before the escrow throws and stays unpaid; too late it comes only after a direct release |
| OrderPayments.DeliveryPaysEverything | src/manufacturing/orders.ts:399-432 | A delivery that goes through leaves a complete order whose escrow has paid all three shares, with at most two units left over |
| OrderPayments.UnpaidForEver | src/manufacturing/orders.ts:305-331 | A milestone marked but unpaid in a reachable state is never paid through its order in any continuation; only a direct call on the escrow service may release it |
| OrderPayments.EarlyCompletionFreezesEscrow | src/manufacturing/orders.ts:305-331 | Completing the first milestone before funding succeeds, and the later escrow never releases anything unless a direct call makes the start |
| OrderTerms.ResolutionSettlesBoth | src/manufacturing/orders.ts:512-536 | A resolved dispute ends order and escrow alike: refunded if the buyer gets everything, complete if the manufacturer does, otherwise both stay disputed |
| OrderTerms.DisputeHitsBoth | src/manufacturing/orders.ts:491-507 | Disputing an order with an escrow disputes both |
| OrderService.ManufacturingOrders.CreateOrder | src/manufacturing/orders.ts:118-178 | A draft order with the 40, 40 and 20 percent shares under the next id |
| OrderService.ManufacturingOrders.SubmitOrder | src/manufacturing/orders.ts:183-193 | Draft to pending approval only |
| OrderService.ManufacturingOrders.ApproveOrder | src/manufacturing/orders.ts:198-213 | Only pending orders, only for the assigned manufacturer regardless of letter case |
| OrderService.ManufacturingOrders.FundOrder | src/manufacturing/orders.ts:218-247 | Creates escrow and tracking and links both to the order, or changes nothing; with new ids the orders stay in a reachable state |
| OrderService.ManufacturingOrders.StartProduction | src/manufacturing/orders.ts:252-273 | Moves the order on before recording; a refused checkpoint leaves the new status behind |
| OrderService.ManufacturingOrders.ReportProgress | src/manufacturing/orders.ts:278-300 | Records progress of an order in production |
| OrderService.ManufacturingOrders.CompleteMilestone | src/manufacturing/orders.ts:305-356 | Marks, pays and moves on in this order, with the world left behind by each way of throwing, and the amount released |
| OrderService.ManufacturingOrders.ReportShipping | src/manufacturing/orders.ts:361-394 | Moves the order on, then records packaging and shipping |
| OrderService.ManufacturingOrders.ConfirmDelivery | src/manufacturing/orders.ts:399-432 | Delivered, two checkpoints, then the last milestone; answers what the escrow pays for it |
| OrderService.ManufacturingOrders.RaiseDispute | src/manufacturing/orders.ts:491-507 | Disputes the order first; the escrow may then refuse |
| OrderService.ManufacturingOrders.ResolveDispute | src/manufacturing/orders.ts:512-536 | Splits the escrow and settles the order only at 0 or 100 percent; answers the two parts |
| OrderService.ManufacturingOrders.CancelOrder | src/manufacturing/orders.ts:541-552 | Draft and pending orders only |
| OrderService.ManufacturingOrders.RecordCheckpoints | src/manufacturing/orders.ts:376-391 | The loop over the products records every stop in order and stops at the first refusal |
| OrderService.ManufacturingOrders.CheckpointsAreAccepted | src/manufacturing/orders.ts:118-552 | Of the objects themselves: whatever call comes next, the tracking service refuses a checkpoint of an order only for an unverified account |
| OrderService.ManufacturingOrders.EveryOrderIsBacked | src/manufacturing/orders.ts:118-552 | Of the objects themselves: the escrow of an order is in the escrow service, on the terms of the order, and belongs to no other order |
| OrderService.ManufacturingOrders.DirectCallsKeepValid | src/manufacturing/orders.ts:118-552 | Calls that other clients make on the escrow service, or to register an actor, leave the orders in a reachable state too |
| Similarity.CosineSymmetric | src/code-registry/semantic-dedup.ts:122-135 | The cosine of vectors of one length is symmetric |
| Similarity.CosineBounded | src/code-registry/semantic-dedup.ts:122-135 | No cosine leaves [-1, 1] |
| IngestAnswers.SimilarityIsCosine | src/code-registry/semantic-dedup.ts:122-135 | The similarity of vectors of one length is their inner product over both lengths, and zero where a length is |
| Similarity.SinglePassFindsFirstBest | src/code-registry/semantic-dedup.ts:210-221 | The single pass finds the first of the most similar blocks, if that reaches the threshold |
| Similarity.NothingSimilar | src/code-registry/semantic-dedup.ts:210-221 | It finds nothing exactly if every stored block is below the threshold |
| Similarity.SearchPathsAgree | src/code-registry/semantic-dedup.ts:210-241 | Sorting everything and taking the first hits exactly if the single pass does, with the same id |
| DedupIndex.ReachableIsSound | src/code-registry/semantic-dedup.ts:140-205 | After every run: stored embeddings separated at the peak threshold, hashes and ids in bijection, processed equal to duplicates plus stored |
| IngestAnswers.IngestAnswersRight | src/code-registry/semantic-dedup.ts:140-205 | In every reachable index: a known hash answers the block that has it, in full; otherwise a duplicate names the first of the most similar blocks, whose similarity reaches the threshold; a new block is answered exactly if the hash is unknown and every similarity below the threshold; and exactly what is answered is stored |
| IngestAnswers.SettingsStep | src/code-registry/semantic-dedup.ts:321-333 | Setting the threshold touches nothing stored, clearing keeps the threshold |
| DedupIndex.StoredStaySeparated | src/code-registry/semantic-dedup.ts:331-333 | With the threshold fixed or only raised, any two stored embeddings have a cosine below it |
| DedupIndex.SeparationSurvivesIff | src/code-registry/semantic-dedup.ts:331-333 | For every pair of thresholds: moving from one to the other keeps everything separated, whatever has been stored, exactly if it does not lower it |
| SemanticDedup.SemanticDedupEngine.ComputeCosine | src/code-registry/semantic-dedup.ts:122-135 | The accumulating loop computes the cosine |
| SemanticDedup.SemanticDedupEngine.IngestCode | src/code-registry/semantic-dedup.ts:140-205 | Exact hit first, then the most similar block, otherwise a new block; answer, maps and counters move together |
| SemanticDedup.SemanticDedupEngine.FindMostSimilar | src/code-registry/semantic-dedup.ts:210-221 | The loop finds the first most similar block at or above the limit |
| SemanticDedup.SemanticDedupEngine.LookupIntent | src/code-registry/semantic-dedup.ts:345-351 | Hits exactly if the single pass finds something, with the same id |
| SemanticDedup.SemanticDedupEngine.UpdateThreshold | src/code-registry/semantic-dedup.ts:331-333 | Clamps the threshold to [0, 1] and changes nothing else |
| SemanticDedup.SemanticDedupEngine.ClearAll | src/code-registry/semantic-dedup.ts:321-326 | Empties maps and counters and keeps the threshold |
| Chunking.PiecesReassemble | src/code/chunker.ts:78-100 | Joining the pieces of a split with newlines gives the content back |
| Chunking.PartsAreContiguous | src/code/chunker.ts:83-98 | The line ranges of the pieces run without gap or overlap from the first line to the last |
| Chunking.SegmentIsExact | src/code/chunker.ts:20-27 | Whether cut or not, the chunks of a segment hold its lines, each once, in order and under its own number |
| ChunkSizes.SegmentIsCut | src/code/chunker.ts:20-100 | A segment stays one chunk under its own name exactly if it has no more than four characters per whole token of the limit; otherwise it is cut into numbered pieces of as many lines as fit on average, but at least five |
| ChunkSizes.EveryChunkIsSized | src/code/chunker.ts:17-59 | Every chunk of a text is such a whole segment or such a piece, with its estimate of a token per four characters |
| ChunkSizes.SegmentsAre | src/code/chunker.ts:29-43 | Functions are chunked by their bodies, classes by their source lines, each under its own name, kind and lines |
| Chunking.IdsAreDistinct | src/code/chunker.ts:17-59 | No two chunks of a text share an id |
| ChunkCoverage.ModuleChunksAreExact | src/code/chunker.ts:45-56 | Module chunks hold exactly the lines no function or class covers, each once, in order, under its own number |
| ChunkCoverage.ScanIsExact | src/code/chunker.ts:45-55 | At every point of the scan the closed runs and the open one together hold the uncovered lines so far |
| ChunkCoverage.EveryLineIsChunked | src/code/chunker.ts:17-59 | If nodes are in range and bodies span their stated lines, every source line lies in the range of some chunk |
| CodeChunker.SemanticChunker.Chunk | src/code/chunker.ts:17-59 | The three loops with their covered set and counter produce the chunks of the segments in order |
| CodeChunker.SemanticChunker.ChunkRest | src/code/chunker.ts:45-56 | The scan flushes the open run at every covered line and at the end |
| CodeChunker.SemanticChunker.AddChunk | src/code/chunker.ts:20-27 | One chunk or its pieces, numbered by the shared counter |
| CodeChunker.SemanticChunker.SplitByLines | src/code/chunker.ts:78-100 | The loop produces the pieces and moves the counter by their number |
| SlidingWindow.WindowNeverOverfull | src/security/networkHardening.ts:306-334 | Over any run with a fixed window and limit, no interval of the window's length holds more grants than the limit |
| SlidingWindow.StoredShowsGrants | src/security/networkHardening.ts:314-328 | The pruned list and the full history of grants look the same through every later window |
| SlidingWindow.ResetTimeIsExact | src/security/networkHardening.ts:316-319 | After a denial the next request is granted exactly from the announced time on |
| SlidingWindow.RetriesAreInVain | src/security/networkHardening.ts:316-319 | Requests before that time, however many, are all denied and change nothing about the grants |
| VaryingWindow.AscendingStartsNeverOverfill | src/security/networkHardening.ts:306-334 | With a window and a limit that change from call to call: as long as no window starts before an earlier one, no grant finds more than its own limit in its own window |
| Allowances.GrantedIff | src/security/networkHardening.ts:306-334 | Under the same condition a request is granted exactly if fewer grants than its limit lie in its window, and what remains is the rest |
| VaryingWindow.ShrinkingWindowsNeverOverfill | src/security/networkHardening.ts:306-334 | So it is if no window exceeds an earlier one |
| VaryingWindow.SafeSwitchIff | src/security/networkHardening.ts:306-334 | For every pair of settings: switching from one to the other overfills no window, whatever is asked for, exactly if the window does not grow, or is empty, or nothing is granted before, or at most one thereafter |
| NetworkHardening.NetworkHardening.RateLimitNewIdentities | src/security/networkHardening.ts:306-334 | Grants, remaining count, announced time and stored stamps of one address are those of all its requests so far; other addresses are untouched |
| NetworkHardening.ConsensusHardening.RateLimitViewChanges | src/security/networkHardening.ts:889-910 | The same for the one history of view changes, which is pruned also on a denial |
| NetworkHardening.NetworkHardening.NeverOverfull | src/security/networkHardening.ts:306-334 | Of the object itself: while its windows start in order, no grant to an address has found more than its limit in its window |
| DoubleVotes.ReportsAreGenuine | src/security/networkHardening.ts:809-848 | Nobody is accused wrongly over any run of calls: a report shows two different votes the node handed in for one round |
| DoubleVotes.RecordsAreMade | src/security/networkHardening.ts:809-848 | Each record is made from a vote handed in: its round, vote and signature, and its own time or, if it has none, that of the call |
| DoubleVotes.SilentIffConsistent | src/security/networkHardening.ts:809-848 | Nobody escapes: the calls of a run stay silent exactly as long as no two votes of one round differ |
| DoubleVotes.ReportsIff | src/security/networkHardening.ts:809-848 | After every run, reports included: the next call reports exactly if its votes contradict each other or what earlier calls processed, that is, of each the votes up to its first contradiction |
| DoubleVotes.VotesBehindAReportAreLost | src/security/networkHardening.ts:824-835 | A report ends the scan, so a contradiction among the votes behind it passes unseen |
| NetworkHardening.ConsensusHardening.DetectDoubleVote | src/security/networkHardening.ts:809-848 | The loop reports exactly if the votes contradict what the node's earlier calls processed, and records as the scan does; other nodes are untouched |
| VoteRounds.StatusIsDecided | src/consensus/engine.ts:49-75 | Under every interleaving of votes and timeout a round is passed exactly if its approvals reach the quorum, otherwise failed exactly if the timeout fired |
| VoteRounds.PassedIsFinal | src/consensus/engine.ts:69-75 | Passed is never left, and votes are never lost |
| VoteRounds.PassedReachesQuorum | src/consensus/engine.ts:81-86 | A passed round satisfies the weaker quorum test |
| VoteRounds.FailedMayPass | src/consensus/engine.ts:69-75 | Late approvals, even all from one node, pass a failed round exactly when they make up the quorum |
| VoteRounds.ApprovalsCountNodes | src/consensus/engine.ts:69-75 | Approvals count nodes exactly if nobody approves twice |
| VoteRounds.QuorumsOverlap | src/consensus/engine.ts:49-75 | Any two passed rounds in which nobody approves twice share at least 2q - n approvers, however votes and timeouts came |
| VoteRounds.SharedHonestApprover | src/consensus/engine.ts:49-75 | Any two passed rounds share f + 1 approvers, hence an honest one, exactly if n = 3f + 1 |
| ConsensusEngine.ConsensusEngine.CreateRound | src/consensus/engine.ts:49-63 | A pending round without votes joins the others under a fresh id |
| ConsensusEngine.ConsensusEngine.ReceiveVote | src/consensus/engine.ts:69-75 | The vote reaches the named round only; a vote for an unknown round is ignored |
| ConsensusEngine.ConsensusEngine.FireTimeout | src/consensus/engine.ts:56-61 | The timeout reaches the named round only |
| ConsensusEngine.ConsensusEngine.IsQuorumReached | src/consensus/engine.ts:81-86 | True of every passed round, false of unknown ones |

## Left out

- Coordinator.TrainingCoordinator.AggregateGradients: weights beyond the end of the aggregate, which become undefined numbers in the program, are left open.
- Coordinator.TrainingCoordinator.CollectGradients: local gradients are a parameter, and a worker whose turn throws is not modelled; validation is taken to look at the job that is collecting, not at an earlier one that holds the same worker.
- Coordinator.TrainingCoordinator.ValidateGradient: the job that holds the node is a parameter, so the search for the first such job and the refusal where there is none are not modelled.
- Coordinator.TrainingCoordinator.DistributeModel: the random initial weights are a parameter; heartbeats and delays are not modelled.
- Coordinator.Shuffle: says that the result is a permutation, not that all permutations are equally likely.
- Aggregation.ByzantineBound: is about exact reals; rounding of 32-bit floats is not modelled.
- HonestRounds.RoundWithinTriple: supposes a majority at every turn, so it says nothing about a fresh job whose first worker sends more than h; HonestMajority.WithstandsIff is the exact condition, and it is known before the round.
- Quorum.HonorsQuorumIff: supposes a positive total supply; otherwise the code takes the root of a negative cap.
- GovernanceModel: titles, descriptions, tags and events of proposals and the report functions are not part of this model.
- GepaOptimizer.GEPAOptimizer.Optimize: candidates, evaluations and reflections are parameters; the mutation strings are not modelled.
- EscrowService.ManufacturingEscrow.ReleaseMilestone: contract calls always succeed; parties, specification hashes and deadlines are not modelled, and milestone indices are whole numbers.
- TrackingService.SupplyChainTracking.RecordCheckpoint: metadata, its hash and its store are not modelled.
- OrderService.ManufacturingOrders.CompleteMilestone: completion times and evidence hashes are not recorded.
- OrderService.ManufacturingOrders.ConfirmDelivery: minting passports is taken to succeed and leaves nothing behind; src/manufacturing/passports.ts is not part of this model.
- OrderService.ManufacturingOrders.FundOrder: escrow and tracking ids are parameters; the theorems about runs take them to be new. Direct calls on the tracking service, and escrows made without an order, are not among the calls of a run.
- OrdersModel: product specifications, contact data, creation and update times of orders, and quantities that are not whole numbers are not modelled.
- Similarity.CosineBounded: supposes that the second vector is at least as long as the first; otherwise the code computes NaN.
- SemanticDedup.SemanticDedupEngine.IngestCode: the embedding model, the hash-based fallback and the cryptographic hash are functions of the code; languages, metadata and events are not modelled.
- CodeChunker.SemanticChunker.Chunk: the parser is a pair of functions; parsing itself and the dependency graph are not modelled.
- NetworkHardening.NetworkHardening.RateLimitNewIdentities: the clock does not run backwards in the theorems about runs; the other checks of the hardening module are left out as single-branch tests or heuristics.
- ConsensusEngine.ConsensusEngine.CreateRound: proposals, task ids, failure reasons, reputations, the DAG mode and the verification helper are not modelled; the round id is taken to be fresh.
- Checkpointing, failure recovery, completion estimates, networking, storage and web routes are not part of this model.
- Payment splits, reputation averages and report statistics would only add one-branch arithmetic.
