/** What every reachable state of the governance engine satisfies, and what runs cannot do. */
module GovernanceProofs {
  import opened Wrappers
  import opened Sums
  import opened Text
  import opened Delegation
  import opened GovernanceModel

  /** The voters of one direction. */
  function Voters(p: Proposal, direction: Direction): set<string> {
    set v | v in p.votes && p.votes[v].direction == direction
  }

  function PowerIn(p: Proposal): string -> real {
    v => if v in p.votes then p.votes[v].power else 0.0
  }

  /** The cached totals are the sums of the recorded powers by direction. */
  ghost predicate TalliesMatch(p: Proposal) {
    && p.totalForPower == SumOver(Voters(p, For), PowerIn(p))
    && p.totalAgainstPower == SumOver(Voters(p, Against), PowerIn(p))
  }

  /** The timing of a proposal's life, as far as its status has come. */
  ghost predicate Timely(cfg: Config, p: Proposal) {
    && p.votingStartsAt == p.createdAt + cfg.discussionPeriodMs
    && p.votingEndsAt == p.votingStartsAt + cfg.votingPeriodMs
    && (p.status == Discussion ==> p.votes == map[])
    && p.status != Expired
    && (p.status in {Passed, Executed} <==> p.passedAt.Some?)
    && (p.status == Executed <==> p.executedAt.Some?)
    && (p.executedAt.Some? ==> p.passedAt.value + cfg.timelockMs <= p.executedAt.value)
    && (!cfg.simplifiedMode && p.passedAt.Some? ==> p.votingEndsAt <= p.passedAt.value)
    && (!cfg.simplifiedMode ==> forall v :: v in p.votes ==> p.votingStartsAt <= p.votes[v].timestamp <= p.votingEndsAt)
  }

  function Flow(t: Transaction): real {
    match t
    case Deposited(amount) => amount
    case Spent(amount, _, _) => -amount
  }

  function Balance(ledger: seq<Transaction>): real {
    if ledger == [] then 0.0 else Balance(ledger[..|ledger| - 1]) + Flow(ledger[|ledger| - 1])
  }

  /** In full mode nobody with a vote in a running ballot is a delegator. */
  ghost predicate VotersDoNotDelegate(cfg: Config, st: State) {
    !cfg.simplifiedMode ==>
      forall id, v :: id in st.proposals && st.proposals[id].status == Voting && v in st.proposals[id].votes ==> v !in st.delegations
  }

  ghost predicate ProposalsSound(cfg: Config, st: State) {
    forall id :: id in st.proposals ==>
      && TalliesMatch(st.proposals[id])
      && Timely(cfg, st.proposals[id])
      && FromCounter(PROPOSAL, id, st.counter)
  }

  ghost predicate TreasurySound(st: State) {
    st.treasury == Balance(st.ledger) && 0.0 <= st.treasury
  }

  ghost predicate Inv(cfg: Config, st: State) {
    && Acyclic(st.delegations)
    && Inverse(st.delegations, st.index)
    && ProposalsSound(cfg, st)
    && VotersDoNotDelegate(cfg, st)
    && TreasurySound(st)
  }

  lemma IdsFromCounter(cfg: Config, st: State)
    requires Inv(cfg, st)
    ensures forall id :: id in st.proposals ==> FromCounter(PROPOSAL, id, st.counter)
  {
    hide Acyclic, Inverse, TalliesMatch, Timely, TreasurySound, VotersDoNotDelegate, FromCounter;
  }

  lemma {:induction false} VoteKeepsTally(p: Proposal, voter: string, v: Vote)
    requires TalliesMatch(p)
    ensures TalliesMatch(WithVote(p, voter, v))
  {
    forall d: Direction ensures SumOver(Voters(WithVote(p, voter, v), d), PowerIn(WithVote(p, voter, v)))
      == SumOver(Voters(p, d), PowerIn(p))
         - (if voter in p.votes && p.votes[voter].direction == d then p.votes[voter].power else 0.0)
         + (if v.direction == d then v.power else 0.0)
    {
      RevoteTotal(p, voter, v, d);
    }
  }

  lemma {:induction false} RevoteTotal(p: Proposal, voter: string, v: Vote, d: Direction)
    ensures SumOver(Voters(WithVote(p, voter, v), d), PowerIn(WithVote(p, voter, v)))
      == SumOver(Voters(p, d), PowerIn(p))
         - (if voter in p.votes && p.votes[voter].direction == d then p.votes[voter].power else 0.0)
         + (if v.direction == d then v.power else 0.0)
  {
    var q := WithVote(p, voter, v);
    var others := Voters(p, d) - {voter};
    SumAgree(others, PowerIn(p), PowerIn(q));
    if voter in Voters(p, d) {
      SumRemove(Voters(p, d), PowerIn(p), voter);
    } else {
      assert others == Voters(p, d);
    }
    if v.direction == d {
      assert Voters(q, d) == others + {voter};
      SumInsert(others, PowerIn(q), voter);
    } else {
      assert Voters(q, d) == others;
    }
  }

  lemma FreshId(st: State, now: nat)
    requires forall id :: id in st.proposals ==> FromCounter(PROPOSAL, id, st.counter)
    ensures ProposalId(st.counter + 1, now) !in st.proposals
  {
    var id := ProposalId(st.counter + 1, now);
    if id in st.proposals {
      NextIdIsNew(PROPOSAL, id, st.counter, now);
    }
  }

  lemma InitiallySound(cfg: Config)
    ensures Inv(cfg, INITIAL)
  {}

  lemma DelegationKeepsInv(cfg: Config, st: State, delegator: string, delegatee: Option<string>)
    requires Inv(cfg, st) && Guard(cfg, st, SetDelegation(delegator, delegatee)) == None
    ensures Inv(cfg, Effect(cfg, st, SetDelegation(delegator, delegatee)))
  {
    if delegatee.Some? {
      DelegateKeepsAcyclic(st.delegations, delegator, delegatee.value);
      DelegateKeepsInverse(st.delegations, st.index, delegator, delegatee.value);
    } else if delegator in st.delegations && st.delegations[delegator] != "" {
      RemovalKeepsAcyclic(st.delegations, delegator);
      RemovalKeepsInverse(st.delegations, st.index, delegator);
    }
  }

  /** A proposal that is sound in itself may replace or join the others. */
  lemma ProposalKeepsInv(cfg: Config, st: State, id: string, p: Proposal, counter: nat)
    requires Inv(cfg, st) && TalliesMatch(p) && Timely(cfg, p)
    requires counter == st.counter || counter == st.counter + 1
    requires FromCounter(PROPOSAL, id, counter)
    requires !cfg.simplifiedMode && p.status == Voting ==> forall v :: v in p.votes ==> v !in st.delegations
    ensures Inv(cfg, Updated(st, id, p).(counter := counter))
  {
    hide Acyclic, Inverse, TalliesMatch, FromCounter, Timely;
    forall i | i in st.proposals ensures FromCounter(PROPOSAL, i, counter) {
      if counter != st.counter {
        CounterGrows(PROPOSAL, i, st.counter);
      }
    }
  }

  lemma CreationKeepsInv(cfg: Config, st: State, p: Proposal, now: nat)
    requires Inv(cfg, st) && p.votes == map[] && p.status == Discussion && Timely(cfg, p)
    requires p.totalForPower == 0.0 && p.totalAgainstPower == 0.0
    ensures Inv(cfg, Created(st, p, now))
  {
    assert Voters(p, For) == {} && Voters(p, Against) == {};
    assert FromCounter(PROPOSAL, ProposalId(st.counter + 1, now), st.counter + 1);
    ProposalKeepsInv(cfg, st, ProposalId(st.counter + 1, now), p, st.counter + 1);
  }

  lemma VoteKeepsInv(cfg: Config, st: State, c: Call)
    requires c.CastVote? && Inv(cfg, st) && Guard(cfg, st, c) == None
    ensures Inv(cfg, Effect(cfg, st, c))
  {
    hide Acyclic, Inverse, TalliesMatch, FromCounter, CastPower, TreasurySound;
    var v := Vote(CastPower(cfg, st, c.voter, c.balance, c.totalVotingPower), c.direction, c.now, c.balance);
    VoteKeepsTally(st.proposals[c.id], c.voter, v);
    ProposalKeepsInv(cfg, st, c.id, WithVote(st.proposals[c.id], c.voter, v), st.counter);
  }

  /** A change of status and time stamps leaves votes and totals alone. */
  lemma TalliesIgnoreStatus(p: Proposal, q: Proposal)
    requires TalliesMatch(p) && q.votes == p.votes
    requires q.totalForPower == p.totalForPower && q.totalAgainstPower == p.totalAgainstPower
    ensures TalliesMatch(q)
  {
    forall d: Direction ensures SumOver(Voters(q, d), PowerIn(q)) == SumOver(Voters(p, d), PowerIn(p)) {
      assert Voters(q, d) == Voters(p, d);
      SumAgree(Voters(p, d), PowerIn(q), PowerIn(p));
    }
  }

  lemma StatusKeepsInv(cfg: Config, st: State, c: Call)
    requires c.StartVoting? || c.TallyVotes?
    requires Inv(cfg, st) && Guard(cfg, st, c) == None
    ensures Inv(cfg, Effect(cfg, st, c))
  {
    hide Acyclic, Inverse, TalliesMatch, FromCounter, TreasurySound, Passes;
    var p := Effect(cfg, st, c).proposals[c.id];
    TalliesIgnoreStatus(st.proposals[c.id], p);
    ProposalKeepsInv(cfg, st, c.id, p, st.counter);
  }

  lemma SpendKeepsTreasury(st: State, id: string, amount: real, recipient: string)
    requires TreasurySound(st) && SpendGuard(st, id, amount) == None
    ensures TreasurySound(Spend(st, id, amount, recipient))
  {
    var t := Spent(amount, id, recipient);
    assert (st.ledger + [t])[..|st.ledger|] == st.ledger;
  }

  lemma ExecutionKeepsInv(cfg: Config, st: State, c: Call)
    requires c.ExecuteProposal? && Inv(cfg, st) && Guard(cfg, st, c) == None
    ensures Inv(cfg, Effect(cfg, st, c))
  {
    hide Acyclic, Inverse, TalliesMatch, FromCounter, TreasurySound;
    var p := st.proposals[c.id];
    var q := p.(status := Executed, executedAt := Some(c.now));
    TalliesIgnoreStatus(p, q);
    if WantsSpend(p) {
      var e := p.execution.value;
      SpendKeepsTreasury(st, c.id, e.amount, e.recipient);
      ProposalKeepsInv(cfg, Spend(st, c.id, e.amount, e.recipient), c.id, q, st.counter);
    } else {
      ProposalKeepsInv(cfg, st, c.id, q, st.counter);
    }
  }

  lemma DepositKeepsTreasury(st: State, amount: real)
    requires TreasurySound(st) && 0.0 < amount
    ensures TreasurySound(st.(treasury := st.treasury + amount, ledger := st.ledger + [Deposited(amount)]))
  {
    assert (st.ledger + [Deposited(amount)])[..|st.ledger|] == st.ledger;
  }

  /** Every call keeps the invariant. */
  lemma StepKeepsInv(cfg: Config, st: State, c: Call)
    requires Inv(cfg, st)
    ensures Inv(cfg, Step(cfg, st, c))
  {
    hide Acyclic, Inverse;
    if Guard(cfg, st, c) == None {
      match c
      case RegisterBalance(_, _) =>
      case SetDelegation(delegator, delegatee) => DelegationKeepsInv(cfg, st, delegator, delegatee);
      case CreateSimple(deposit, threshold, now) =>
        CreationKeepsInv(cfg, st, NewProposal(cfg, Standard, deposit, None, threshold, now), now);
      case CreateFull(kind, deposit, execution, now) =>
        CreationKeepsInv(cfg, st, NewProposal(cfg, kind, deposit, execution, None, now), now);
      case StartVoting(_, _) => StatusKeepsInv(cfg, st, c);
      case CastVote(_, _, _, _, _, _) => VoteKeepsInv(cfg, st, c);
      case TallyVotes(_, _) => StatusKeepsInv(cfg, st, c);
      case ExecuteProposal(_, _) => ExecutionKeepsInv(cfg, st, c);
      case RecordDeposit(amount) => DepositKeepsTreasury(st, amount);
      case RecordSpend(id, amount, recipient) => SpendKeepsTreasury(st, id, amount, recipient);
    }
  }

  /** Every state a run of calls can reach is sound. */
  lemma {:induction false} ReachableIsSound(cfg: Config, calls: seq<Call>)
    ensures Inv(cfg, Run(cfg, INITIAL, calls))
  {
    if calls == [] {
      InitiallySound(cfg);
    } else {
      ReachableIsSound(cfg, calls[..|calls| - 1]);
      StepKeepsInv(cfg, Run(cfg, INITIAL, calls[..|calls| - 1]), calls[|calls| - 1]);
    }
  }

  /** Some run of calls leads from the initial state to st. */
  ghost predicate Reachable(cfg: Config, st: State) {
    exists calls :: Run(cfg, INITIAL, calls) == st
  }

  lemma InitialReachable(cfg: Config)
    ensures Reachable(cfg, INITIAL)
  {
    assert Run(cfg, INITIAL, []) == INITIAL;
  }

  lemma StepReachable(cfg: Config, st: State, c: Call)
    requires Reachable(cfg, st)
    ensures Reachable(cfg, Step(cfg, st, c))
  {
    var calls :| Run(cfg, INITIAL, calls) == st;
    assert (calls + [c])[..|calls|] == calls;
    assert Run(cfg, INITIAL, calls + [c]) == Step(cfg, st, c);
  }

  lemma AcyclicReachable(cfg: Config, st: State)
    requires Reachable(cfg, st)
    ensures Acyclic(st.delegations)
  {
    var calls :| Run(cfg, INITIAL, calls) == st;
    ReachableIsSound(cfg, calls);
  }

  lemma FreshInReachable(cfg: Config, st: State, now: nat)
    requires Reachable(cfg, st)
    ensures ProposalId(st.counter + 1, now) !in st.proposals
  {
    var calls :| Run(cfg, INITIAL, calls) == st;
    ReachableIsSound(cfg, calls);
    FreshId(st, now);
  }

  /** The moves one call can make: the edges of a proposal's life. */
  predicate Edge(a: Status, b: Status) {
    || (a == Discussion && b == Voting)
    || (a == Voting && (b == Passed || b == Rejected))
    || (a == Passed && b == Executed)
  }

  /** One call leaves a proposal in place and its status as it was or one edge further; a closed proposal is frozen. */
  lemma StepMovesForward(cfg: Config, st: State, c: Call, id: string)
    requires Inv(cfg, st) && id in st.proposals
    ensures id in Step(cfg, st, c).proposals
    ensures var before, after := st.proposals[id].status, Step(cfg, st, c).proposals[id].status;
      before == after || Edge(before, after)
    ensures st.proposals[id].status in {Rejected, Executed} ==> Step(cfg, st, c).proposals[id] == st.proposals[id]
  {
    hide Acyclic, Inverse, TalliesMatch, Timely, TreasurySound, CastPower, Passes, ProposalId, HasVotedInActive, Unlist, Enlist, FromCounter;
    if Guard(cfg, st, c) == None && c.CreateSimple? {
      FreshId(st, c.now);
    }
    if Guard(cfg, st, c) == None && c.CreateFull? {
      FreshId(st, c.now);
    }
  }

  /** After any run, a further call stays or takes one edge: no call skips the vote. */
  lemma {:induction false} StatusTakesOneEdge(cfg: Config, calls: seq<Call>, c: Call, id: string)
    requires id in Run(cfg, INITIAL, calls).proposals
    ensures id in Run(cfg, INITIAL, calls + [c]).proposals
    ensures var before, after := Run(cfg, INITIAL, calls).proposals[id], Run(cfg, INITIAL, calls + [c]).proposals[id];
      && (before.status == after.status || Edge(before.status, after.status))
      && (before.status in {Rejected, Executed} ==> after == before)
  {
    hide Step, Inv;
    assert (calls + [c])[..|calls|] == calls;
    ReachableIsSound(cfg, calls);
    StepMovesForward(cfg, Run(cfg, INITIAL, calls), c, id);
  }

  /** Walking along edges. */
  predicate MayBecome(a: Status, b: Status) {
    || a == b
    || (a == Discussion && b in {Voting, Passed, Rejected, Executed})
    || (a == Voting && b in {Passed, Rejected, Executed})
    || (a == Passed && b == Executed)
  }

  /** Over any continuation of any run, proposals never disappear, their status only moves along edges, and a closed one is frozen. */
  lemma {:induction false} StatusMovesForward(cfg: Config, calls: seq<Call>, more: seq<Call>, id: string)
    requires id in Run(cfg, INITIAL, calls).proposals
    ensures id in Run(cfg, INITIAL, calls + more).proposals
    ensures var before, after := Run(cfg, INITIAL, calls).proposals[id], Run(cfg, INITIAL, calls + more).proposals[id];
      MayBecome(before.status, after.status) && (before.status in {Rejected, Executed} ==> after == before)
  {
    if more == [] {
      assert calls + more == calls;
    } else {
      hide Run;
      var init, c := more[..|more| - 1], more[|more| - 1];
      assert calls + more == calls + init + [c];
      StatusMovesForward(cfg, calls, init, id);
      StatusTakesOneEdge(cfg, calls + init, c, id);
    }
  }

  /** In full mode an executed proposal has gone through its whole discussion, voting and timelock periods. */
  lemma ExecutionIsNeverEarly(cfg: Config, calls: seq<Call>, id: string)
    requires !cfg.simplifiedMode && id in Run(cfg, INITIAL, calls).proposals
    requires Run(cfg, INITIAL, calls).proposals[id].status == Executed
    ensures var p := Run(cfg, INITIAL, calls).proposals[id];
      p.executedAt.Some? && p.createdAt + cfg.discussionPeriodMs + cfg.votingPeriodMs + cfg.timelockMs <= p.executedAt.value
  {
    ReachableIsSound(cfg, calls);
  }

  /** Whose power a full-mode vote adds: exactly the current delegators of the voter, none of whom has voted in that ballot. */
  lemma ListedDelegatorsHaveNotVoted(cfg: Config, st: State, id: string, voter: string)
    requires Inv(cfg, st) && !cfg.simplifiedMode && voter != ""
    requires id in st.proposals && st.proposals[id].status == Voting
    ensures forall d :: d in Delegators(st.index, voter) <==> (d in st.delegations && st.delegations[d] == voter)
    ensures forall d :: d in Delegators(st.index, voter) ==> d !in st.proposals[id].votes
  {
    hide Acyclic, TalliesMatch, Timely, TreasurySound;
    forall d ensures d in Delegators(st.index, voter) <==> (d in st.delegations && st.delegations[d] == voter) {
    }
  }

  /** After any run, removing a delegation works unless it points to the empty address, which the code takes for none. */
  lemma {:induction false} RemovalRemoves(cfg: Config, calls: seq<Call>, delegator: string)
    ensures var d := Run(cfg, INITIAL, calls).delegations;
      delegator in Run(cfg, INITIAL, calls + [SetDelegation(delegator, None)]).delegations
      <==> (delegator in d && d[delegator] == "")
  {
    hide Unlist;
    assert (calls + [SetDelegation(delegator, None)])[..|calls|] == calls;
  }

  /** Outside quadratic simplified mode a vote never exceeds the cap for the voter and each listed delegator. */
  lemma PowerIsCapped(cfg: Config, st: State, voter: string, balance: real, totalVotingPower: Option<real>)
    requires !(cfg.simplifiedMode && cfg.quadraticVoting)
    ensures CastPower(cfg, st, voter, balance, totalVotingPower) <= Times(Cap(cfg), |Delegators(st.index, voter)| + 1)
  {
    SumAtMost(Delegators(st.index, voter), DelegatorPower(cfg, st.balances), Cap(cfg));
    TimesSuccessor(Cap(cfg), |Delegators(st.index, voter)|);
  }

  lemma ShareAtLeast(part: real, whole: real, share: real)
    requires 0.0 < whole
    ensures part / whole >= share <==> part >= share * whole
  {
    var q := part / whole;
    assert q * whole == part;
    if q >= share {
      assert 0.0 <= (q - share) * whole;
    } else {
      assert 0.0 < (share - q) * whole;
    }
  }

  ghost function RecordedPower(p: Proposal, direction: Direction): real {
    SumOver(Voters(p, direction), PowerIn(p))
  }

  lemma PassesByShare(cfg: Config, p: Proposal)
    ensures Passes(cfg, p) <==>
      && p.totalForPower + p.totalAgainstPower > 0.0
      && p.totalForPower >= Threshold(cfg, p) * (p.totalForPower + p.totalAgainstPower)
  {
    if p.totalForPower + p.totalAgainstPower > 0.0 {
      ShareAtLeast(p.totalForPower, p.totalForPower + p.totalAgainstPower, Threshold(cfg, p));
    }
  }

  /** yes is the required share of a positive total. */
  predicate Carries(yes: real, cast: real, share: real) {
    cast > 0.0 && yes >= share * cast
  }

  /** The recorded powers give the required share of everything cast. */
  ghost predicate CarriesBallot(cfg: Config, p: Proposal) {
    Carries(RecordedPower(p, For), RecordedPower(p, For) + RecordedPower(p, Against), Threshold(cfg, p))
  }

  /** A ballot closes as passed exactly when the votes on record carry it, and as rejected otherwise. */
  lemma TallyCountsRecordedVotes(cfg: Config, st: State, id: string, now: nat)
    requires Inv(cfg, st) && Guard(cfg, st, TallyVotes(id, now)) == None
    ensures Step(cfg, st, TallyVotes(id, now)).proposals[id].status
      == if CarriesBallot(cfg, st.proposals[id]) then Passed else Rejected
  {
    CarriesAsCached(cfg, st.proposals[id]);
  }

  lemma CarriesAsCached(cfg: Config, p: Proposal)
    requires TalliesMatch(p)
    ensures CarriesBallot(cfg, p) <==> Passes(cfg, p)
  {
    PassesByShare(cfg, p);
  }

  /** In a reachable state the cached totals are the recorded powers, and what passes is what the votes on record carry. */
  lemma ReachableTallies(cfg: Config, st: State, id: string)
    requires Reachable(cfg, st) && id in st.proposals
    ensures var p := st.proposals[id];
      && p.totalForPower == RecordedPower(p, For) && p.totalAgainstPower == RecordedPower(p, Against)
      && (CarriesBallot(cfg, p) <==> Passes(cfg, p))
  {
    var calls :| Run(cfg, INITIAL, calls) == st;
    ReachableIsSound(cfg, calls);
    hide Run, Acyclic, Inverse, Timely, FromCounter, VotersDoNotDelegate, TreasurySound, CarriesBallot, Passes;
    CarriesAsCached(cfg, st.proposals[id]);
  }

  /** The share of the power cast that the configuration asks for, in per cent. */
  function DocumentedPercent(cfg: Config, p: Proposal): real {
    if p.kind == Critical then cfg.criticalThreshold else cfg.standardThreshold
  }

  /** The rule the configuration documents: critical proposals need their own, higher share. */
  ghost predicate MeetsDocumentedThreshold(cfg: Config, p: Proposal) {
    Carries(RecordedPower(p, For), RecordedPower(p, For) + RecordedPower(p, Against), DocumentedPercent(cfg, p) / 100.0)
  }

  lemma BetweenShares(yes: real, cast: real, low: real, high: real)
    requires low <= high
    ensures Carries(yes, cast, low) != Carries(yes, cast, high) <==> cast > 0.0 && low * cast <= yes < high * cast
  {
    if cast > 0.0 {
      assert 0.0 <= (high - low) * cast;
      assert (high - low) * cast == high * cast - low * cast;
    }
  }

  /** A critical proposal whose recorded share is enough for a standard one and not for a critical one. */
  ghost predicate BetweenThresholds(cfg: Config, p: Proposal) {
    var yes, cast := RecordedPower(p, For), RecordedPower(p, For) + RecordedPower(p, Against);
    p.kind == Critical && cast > 0.0 && cfg.standardThreshold / 100.0 * cast <= yes < cfg.criticalThreshold / 100.0 * cast
  }

  lemma RulesDiffer(cfg: Config, p: Proposal)
    requires p.threshold == None && cfg.standardThreshold <= cfg.criticalThreshold
    ensures CarriesBallot(cfg, p) != MeetsDocumentedThreshold(cfg, p) <==> BetweenThresholds(cfg, p)
  {
    hide RecordedPower, Carries;
    var yes, cast := RecordedPower(p, For), RecordedPower(p, For) + RecordedPower(p, Against);
    BetweenShares(yes, cast, cfg.standardThreshold / 100.0, cfg.criticalThreshold / 100.0);
  }

  /** In every reachable state, closing a ballot without a threshold of its own departs from the documented rule exactly
      for critical proposals whose recorded share lies between the two thresholds: those pass although they must not. */
  lemma {:induction false} CriticalThresholdIsNotApplied(cfg: Config, calls: seq<Call>, id: string, now: nat)
    requires Guard(cfg, Run(cfg, INITIAL, calls), TallyVotes(id, now)) == None
    requires Run(cfg, INITIAL, calls).proposals[id].threshold == None && cfg.standardThreshold <= cfg.criticalThreshold
    ensures id in Run(cfg, INITIAL, calls + [TallyVotes(id, now)]).proposals
    ensures var p, q := Run(cfg, INITIAL, calls).proposals[id], Run(cfg, INITIAL, calls + [TallyVotes(id, now)]).proposals[id];
      (q.status == Passed) != MeetsDocumentedThreshold(cfg, p) <==> BetweenThresholds(cfg, p)
  {
    var st := Run(cfg, INITIAL, calls);
    assert (calls + [TallyVotes(id, now)])[..|calls|] == calls;
    assert Run(cfg, INITIAL, calls + [TallyVotes(id, now)]) == Step(cfg, st, TallyVotes(id, now));
    hide Run, Inv, CarriesBallot, MeetsDocumentedThreshold, BetweenThresholds, Step;
    ReachableIsSound(cfg, calls);
    TallyEffect(cfg, st, id, now);
    TallyCountsRecordedVotes(cfg, st, id, now);
    RulesDiffer(cfg, st.proposals[id]);
  }

  function RawBalance(p: Proposal): string -> real {
    v => if v in p.votes then p.votes[v].rawBalance else 0.0
  }

  function QuorumNeeded(cfg: Config): real {
    cfg.quorumPercent / 100.0 * cfg.totalSupply
  }

  /** The rule the configuration documents: so many per cent of the supply must vote. */
  ghost predicate MeetsDocumentedQuorum(cfg: Config, p: Proposal) {
    SumOver(p.votes.Keys, RawBalance(p)) >= QuorumNeeded(cfg)
  }
}
