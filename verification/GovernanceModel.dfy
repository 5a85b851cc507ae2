/** The governance engine as a step function on values: every call, its guards, and the state it leaves. */
module GovernanceModel {
  import opened Wrappers
  import opened Sums
  import opened Text
  import opened Delegation

  datatype Direction = For | Against

  datatype ProposalType = Standard | Critical | TreasurySpend | ParameterChange

  datatype Status = Discussion | Voting | Passed | Rejected | Executed | Expired

  datatype Vote = Vote(power: real, direction: Direction, timestamp: nat, rawBalance: real)

  /** The parameters of an execution that the engine reads. */
  datatype Execution = Execution(amount: real, recipient: string)

  datatype Proposal = Proposal(
    kind: ProposalType,
    deposit: real,
    status: Status,
    votes: map<string, Vote>,
    createdAt: nat,
    votingStartsAt: nat,
    votingEndsAt: nat,
    execution: Option<Execution>,
    threshold: Option<real>,
    passedAt: Option<nat>,
    executedAt: Option<nat>,
    totalForPower: real,
    totalAgainstPower: real)

  datatype Transaction = Deposited(amount: real) | Spent(amount: real, proposalId: string, recipient: string)

  /** quorumPercent and criticalThreshold are configured, but no call reads them. */
  datatype Config = Config(
    quorumPercent: real,
    standardThreshold: real,
    criticalThreshold: real,
    votingPeriodMs: nat,
    timelockMs: nat,
    discussionPeriodMs: nat,
    totalSupply: real,
    minDeposit: real,
    antiWhaleCap: real,
    quadraticVoting: bool,
    simplifiedMode: bool,
    root: real -> real)

  datatype State = State(
    delegations: Graph,
    index: Index,
    balances: map<string, real>,
    proposals: map<string, Proposal>,
    counter: nat,
    treasury: real,
    ledger: seq<Transaction>)

  datatype Error =
    | CannotDelegateToSelf | CircularDelegation | AlreadyVoted
    | InsufficientDeposit
    | ProposalNotFound | WrongStatus | TooEarly | VotingEnded | VoterHasDelegated
    | NotPositive | InsufficientTreasury | NotATreasurySpend

  /** The calls; now is the clock reading of the call. */
  datatype Call =
    | RegisterBalance(address: string, balance: real)
    | SetDelegation(delegator: string, delegatee: Option<string>)
    | CreateSimple(deposit: real, threshold: Option<real>, now: nat)
    | CreateFull(kind: ProposalType, deposit: real, execution: Option<Execution>, now: nat)
    | StartVoting(id: string, now: nat)
    | CastVote(id: string, voter: string, direction: Direction, balance: real, totalVotingPower: Option<real>, now: nat)
    | TallyVotes(id: string, now: nat)
    | ExecuteProposal(id: string, now: nat)
    | RecordDeposit(amount: real)
    | RecordSpend(id: string, amount: real, recipient: string)

  const INITIAL := State(map[], map[], map[], map[], 0, 0.0, [])

  function MinReal(x: real, y: real): real {
    if x <= y then x else y
  }

  function Cap(cfg: Config): real {
    cfg.root(cfg.totalSupply * 0.1)
  }

  function VotingPower(cfg: Config, balance: real): real {
    MinReal(cfg.root(balance), Cap(cfg))
  }

  function BalanceOf(balances: map<string, real>, address: string): real {
    if address in balances then balances[address] else 0.0
  }

  function DelegatorPower(cfg: Config, balances: map<string, real>): string -> real {
    d => VotingPower(cfg, BalanceOf(balances, d))
  }

  function EffectiveBalance(cfg: Config, balance: real, totalVotingPower: Option<real>): real {
    if totalVotingPower.Some? && cfg.antiWhaleCap > 0.0
    then MinReal(balance, totalVotingPower.value * cfg.antiWhaleCap) else balance
  }

  /** The power of a vote: the voter's own, and outside quadratic simplified mode that of the listed delegators. */
  ghost function CastPower(cfg: Config, st: State, voter: string, balance: real, totalVotingPower: Option<real>): real {
    var effective := EffectiveBalance(cfg, balance, totalVotingPower);
    if cfg.simplifiedMode && cfg.quadraticVoting then cfg.root(effective)
    else VotingPower(cfg, effective) + SumOver(Delegators(st.index, voter), DelegatorPower(cfg, st.balances))
  }

  const PROPOSAL := "prop-"

  function ProposalId(counter: nat, now: nat): string {
    StampedId(PROPOSAL, counter, now)
  }

  function NewProposal(cfg: Config, kind: ProposalType, deposit: real, execution: Option<Execution>,
                       threshold: Option<real>, now: nat): Proposal
  {
    Proposal(kind, deposit, Discussion, map[], now, now + cfg.discussionPeriodMs,
             now + cfg.discussionPeriodMs + cfg.votingPeriodMs, execution, threshold, None, None, 0.0, 0.0)
  }

  ghost predicate HasVotedInActive(proposals: map<string, Proposal>, address: string) {
    exists id :: id in proposals && proposals[id].status == Voting && address in proposals[id].votes
  }

  /** A cast vote replaces the voter's earlier one, in the map and in the cached totals. */
  function WithVote(p: Proposal, voter: string, v: Vote): Proposal {
    var lessFor := if voter in p.votes && p.votes[voter].direction == For then p.votes[voter].power else 0.0;
    var lessAgainst := if voter in p.votes && p.votes[voter].direction == Against then p.votes[voter].power else 0.0;
    p.(votes := p.votes[voter := v],
       totalForPower := p.totalForPower - lessFor + (if v.direction == For then v.power else 0.0),
       totalAgainstPower := p.totalAgainstPower - lessAgainst + (if v.direction == Against then v.power else 0.0))
  }

  function Threshold(cfg: Config, p: Proposal): real {
    if p.threshold.Some? then p.threshold.value else cfg.standardThreshold / 100.0
  }

  function Passes(cfg: Config, p: Proposal): bool {
    var totalCast := p.totalForPower + p.totalAgainstPower;
    totalCast > 0.0 && p.totalForPower / totalCast >= Threshold(cfg, p)
  }

  function SpendGuard(st: State, id: string, amount: real): Option<Error> {
    if amount <= 0.0 then Some(NotPositive)
    else if amount > st.treasury then Some(InsufficientTreasury)
    else if id !in st.proposals || st.proposals[id].kind != TreasurySpend then Some(NotATreasurySpend)
    else None
  }

  function Spend(st: State, id: string, amount: real, recipient: string): State {
    st.(treasury := st.treasury - amount, ledger := st.ledger + [Spent(amount, id, recipient)])
  }

  /** Whether executing a proposal spends: the parameters are present, non-zero and non-empty. */
  function WantsSpend(p: Proposal): bool {
    p.kind == TreasurySpend && p.execution.Some? && p.execution.value.amount != 0.0 && p.execution.value.recipient != ""
  }

  function Tallied(cfg: Config, p: Proposal, now: nat): Proposal {
    if Passes(cfg, p) then p.(status := Passed, passedAt := Some(now)) else p.(status := Rejected)
  }

  /** The state after the spend that executing a proposal entails, if any. */
  function SpentBy(st: State, id: string): State
    requires id in st.proposals
  {
    var p := st.proposals[id];
    if WantsSpend(p) then Spend(st, id, p.execution.value.amount, p.execution.value.recipient) else st
  }

  /** The first guard of a call that fails, in the order the code checks them. */
  ghost function Guard(cfg: Config, st: State, c: Call): Option<Error> {
    match c
    case RegisterBalance(_, _) => None
    case SetDelegation(delegator, delegatee) =>
      if delegatee.None? then None
      else if delegator == delegatee.value then Some(CannotDelegateToSelf)
      else if Reaches(st.delegations, delegatee.value, delegator) then Some(CircularDelegation)
      else if HasVotedInActive(st.proposals, delegator) then Some(AlreadyVoted)
      else None
    case CreateSimple(deposit, _, _) => if deposit < cfg.minDeposit then Some(InsufficientDeposit) else None
    case CreateFull(_, deposit, _, _) => if deposit < 1000.0 then Some(InsufficientDeposit) else None
    case StartVoting(id, now) =>
      if id !in st.proposals then Some(ProposalNotFound)
      else if st.proposals[id].status != Discussion then Some(WrongStatus)
      else if !cfg.simplifiedMode && now < st.proposals[id].votingStartsAt then Some(TooEarly)
      else None
    case CastVote(id, voter, _, _, _, now) =>
      if id !in st.proposals then Some(ProposalNotFound)
      else if st.proposals[id].status != Voting then Some(WrongStatus)
      else if cfg.simplifiedMode then None
      else if now > st.proposals[id].votingEndsAt then Some(VotingEnded)
      else if now < st.proposals[id].votingStartsAt then Some(TooEarly)
      else if voter in st.delegations then Some(VoterHasDelegated)
      else None
    case TallyVotes(id, now) =>
      if id !in st.proposals then Some(ProposalNotFound)
      else if st.proposals[id].status != Voting then Some(WrongStatus)
      else if !cfg.simplifiedMode && now < st.proposals[id].votingEndsAt then Some(TooEarly)
      else None
    case ExecuteProposal(id, now) =>
      if id !in st.proposals then Some(ProposalNotFound)
      else if st.proposals[id].status != Passed || st.proposals[id].passedAt.None? then Some(WrongStatus)
      else if now < st.proposals[id].passedAt.value + cfg.timelockMs then Some(TooEarly)
      else if WantsSpend(st.proposals[id]) then SpendGuard(st, id, st.proposals[id].execution.value.amount)
      else None
    case RecordDeposit(amount) => if amount <= 0.0 then Some(NotPositive) else None
    case RecordSpend(id, amount, _) => SpendGuard(st, id, amount)
  }

  /** The state after a call whose guards pass. */
  ghost function Effect(cfg: Config, st: State, c: Call): State
    requires Guard(cfg, st, c) == None
  {
    match c
    case RegisterBalance(address, balance) => st.(balances := st.balances[address := balance])
    case SetDelegation(delegator, delegatee) =>
      if delegatee.Some? then
        st.(delegations := st.delegations[delegator := delegatee.value],
            index := Enlist(Unlist(st.delegations, st.index, delegator), delegator, delegatee.value))
      else if delegator in st.delegations && st.delegations[delegator] != "" then
        st.(delegations := st.delegations - {delegator}, index := Unlist(st.delegations, st.index, delegator))
      else st
    case CreateSimple(deposit, threshold, now) =>
      Created(st, NewProposal(cfg, Standard, deposit, None, threshold, now), now)
    case CreateFull(kind, deposit, execution, now) =>
      Created(st, NewProposal(cfg, kind, deposit, execution, None, now), now)
    case StartVoting(id, _) => Updated(st, id, st.proposals[id].(status := Voting))
    case CastVote(id, voter, direction, balance, totalVotingPower, now) =>
      var v := Vote(CastPower(cfg, st, voter, balance, totalVotingPower), direction, now, balance);
      Updated(st, id, WithVote(st.proposals[id], voter, v))
    case TallyVotes(id, now) =>
      Updated(st, id, Tallied(cfg, st.proposals[id], now))
    case ExecuteProposal(id, now) =>
      Updated(SpentBy(st, id), id, st.proposals[id].(status := Executed, executedAt := Some(now)))
    case RecordDeposit(amount) => st.(treasury := st.treasury + amount, ledger := st.ledger + [Deposited(amount)])
    case RecordSpend(id, amount, recipient) => Spend(st, id, amount, recipient)
  }

  function Updated(st: State, id: string, p: Proposal): State {
    st.(proposals := st.proposals[id := p])
  }

  function Created(st: State, p: Proposal, now: nat): State {
    st.(counter := st.counter + 1, proposals := st.proposals[ProposalId(st.counter + 1, now) := p])
  }

  /** A call that throws leaves the state as it was. */
  ghost function Step(cfg: Config, st: State, c: Call): State {
    if Guard(cfg, st, c) == None then Effect(cfg, st, c) else st
  }

  ghost function Run(cfg: Config, st: State, calls: seq<Call>): State {
    if calls == [] then st else Step(cfg, Run(cfg, st, calls[..|calls| - 1]), calls[|calls| - 1])
  }

  lemma TallyEffect(cfg: Config, st: State, id: string, now: nat)
    requires Guard(cfg, st, TallyVotes(id, now)) == None
    ensures Step(cfg, st, TallyVotes(id, now)) == Updated(st, id, Tallied(cfg, st.proposals[id], now))
  {}

  lemma ExecutionEffect(cfg: Config, st: State, id: string, now: nat)
    requires Guard(cfg, st, ExecuteProposal(id, now)) == None
    ensures Step(cfg, st, ExecuteProposal(id, now))
      == Updated(SpentBy(st, id), id, st.proposals[id].(status := Executed, executedAt := Some(now)))
  {}
}
