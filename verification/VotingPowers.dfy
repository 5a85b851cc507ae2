/** What a vote weighs, which calls are accepted, and what they do. */
module VotingPowers {
  import opened Wrappers
  import opened Vectors
  import opened Sums
  import opened Text
  import opened Delegation
  import opened GovernanceModel
  import opened GovernanceProofs

  function Smaller(x: real, y: real): real {
    if x < y then x else y
  }

  /** The non-negative number whose square is the smaller of a balance and a tenth of the supply. */
  ghost predicate IsPower(p: real, balance: real, supply: real) {
    0.0 <= p && p * p == Smaller(balance, supply / 10.0)
  }

  lemma PowerOf(cfg: Config, balance: real)
    requires IsSqrt(cfg.root) && 0.0 <= balance && 0.0 <= cfg.totalSupply
    ensures IsPower(VotingPower(cfg, balance), balance, cfg.totalSupply)
  {
    var a, b := cfg.root(balance), cfg.root(cfg.totalSupply * 0.1);
    assert a * a == balance && b * b == cfg.totalSupply * 0.1;
    if a < b {
      SquareStrict(b, a);
    } else if b < a {
      SquareStrict(a, b);
    }
  }

  /** The balance a vote counts: no more than the anti-whale share of the total voting power, if that is given. */
  function Counted(cfg: Config, balance: real, totalVotingPower: Option<real>): real {
    if totalVotingPower.Some? && 0.0 < cfg.antiWhaleCap then Smaller(balance, totalVotingPower.value * cfg.antiWhaleCap) else balance
  }

  ghost function DelegatingTo(d: Graph, voter: string): set<string> {
    set a | a in d && d[a] == voter
  }

  function Registered(st: State, a: string): real {
    if a in st.balances then st.balances[a] else 0.0
  }

  ghost predicate BalancesNotNegative(st: State) {
    forall a :: a in st.balances ==> 0.0 <= st.balances[a]
  }

  /** p gives every address the power of its registered balance. */
  ghost predicate ArePowers(cfg: Config, st: State, p: string -> real) {
    forall a :: IsPower(p(a), Registered(st, a), cfg.totalSupply)
  }

  lemma ListedAreDelegating(cfg: Config, st: State, voter: string)
    requires Inv(cfg, st) && voter != ""
    ensures Delegators(st.index, voter) == DelegatingTo(st.delegations, voter)
  {
    hide Acyclic, ProposalsSound, VotersDoNotDelegate, TreasurySound;
  }

  /** The power of a vote: the voter's own, by the balance that counts, and that of everybody delegating to the voter and of
      nobody else, by their registered balances, each cut off at a tenth of the supply. In quadratic simplified mode it is
      the root of the balance that counts. */
  lemma VoteWeighs(cfg: Config, st: State, voter: string, balance: real, totalVotingPower: Option<real>)
    requires Inv(cfg, st) && IsSqrt(cfg.root) && voter != "" && 0.0 <= cfg.totalSupply
    requires 0.0 <= Counted(cfg, balance, totalVotingPower) && BalancesNotNegative(st)
    ensures var power := CastPower(cfg, st, voter, balance, totalVotingPower);
      if cfg.simplifiedMode && cfg.quadraticVoting
      then 0.0 <= power && power * power == Counted(cfg, balance, totalVotingPower)
      else exists own, p :: IsPower(own, Counted(cfg, balance, totalVotingPower), cfg.totalSupply) && ArePowers(cfg, st, p)
                            && power == own + SumOver(DelegatingTo(st.delegations, voter), p)
  {
    ListedAreDelegating(cfg, st, voter);
    hide Inv, DelegatingTo, IsPower;
    var counted := Counted(cfg, balance, totalVotingPower);
    assert EffectiveBalance(cfg, balance, totalVotingPower) == counted;
    if !(cfg.simplifiedMode && cfg.quadraticVoting) {
      PowerOf(cfg, counted);
      var p := DelegatorPower(cfg, st.balances);
      assert ArePowers(cfg, st, p) by {
        forall a ensures IsPower(p(a), Registered(st, a), cfg.totalSupply) {
          PowerOf(cfg, Registered(st, a));
        }
      }
    }
  }

  /** An accepted vote puts that power, the balance, the direction and the time on record for the voter, in place of an
      earlier vote, and changes no other vote and nothing else of any proposal but the two totals. */
  lemma VoteIsRecorded(cfg: Config, st: State, id: string, voter: string, direction: Direction, balance: real,
                       totalVotingPower: Option<real>, now: nat)
    requires Guard(cfg, st, CastVote(id, voter, direction, balance, totalVotingPower, now)) == None
    ensures var later := Step(cfg, st, CastVote(id, voter, direction, balance, totalVotingPower, now));
      && id in st.proposals && id in later.proposals
      && var p, q := st.proposals[id], later.proposals[id];
         && q.votes == p.votes[voter := Vote(CastPower(cfg, st, voter, balance, totalVotingPower), direction, now, balance)]
         && q == p.(votes := q.votes, totalForPower := q.totalForPower, totalAgainstPower := q.totalAgainstPower)
         && later == st.(proposals := st.proposals[id := q])
  {
    hide CastPower;
  }

  ghost predicate VotedInRunning(st: State, a: string) {
    exists id :: id in st.proposals && st.proposals[id].status == Voting && a in st.proposals[id].votes
  }

  /** In every reachable state a delegation is accepted exactly if it closes no circle, not even with oneself, and the
      delegator has no vote in a running ballot; then it replaces what the delegator had. */
  lemma {:induction false} DelegationAcceptedIff(cfg: Config, calls: seq<Call>, a: string, to: string)
    ensures var st, c := Run(cfg, INITIAL, calls), SetDelegation(a, Some(to));
      && (Guard(cfg, st, c) == None <==> Acyclic(st.delegations[a := to]) && !VotedInRunning(st, a))
      && (Guard(cfg, st, c) == Some(AlreadyVoted) <==> Acyclic(st.delegations[a := to]) && VotedInRunning(st, a))
      && (Guard(cfg, st, c) == Some(CannotDelegateToSelf) <==> a == to)
      && Step(cfg, st, c).delegations == if Guard(cfg, st, c) == None then st.delegations[a := to] else st.delegations
  {
    ReachableIsSound(cfg, calls);
    var d := Run(cfg, INITIAL, calls).delegations;
    assert Acyclic(d);
    CircleIff(d, a, to);
    hide Run, Inv, Reaches, Acyclic, Unlist, Enlist;
  }

  lemma {:induction false} CircleIff(d: Graph, a: string, to: string)
    requires Acyclic(d)
    ensures Acyclic(d[a := to]) <==> a != to && !Reaches(d, to, a)
  {
    if a == to {
      assert StepsTo(d[a := to], a, a, 0);
      assert StepsTo(d[a := to], a, a, 1);
    } else if !Reaches(d, to, a) {
      DelegateKeepsAcyclic(d, a, to);
    } else {
      var n: nat :| StepsTo(d, to, a, n);
      var m := FirstMeeting(d, a, to, to, n);
      assert StepsTo(d[a := to], a, a, m + 1);
    }
  }

  /** A walk to a in the old graph starts with one that the new delegation of a does not touch. */
  lemma {:induction false} FirstMeeting(d: Graph, a: string, to: string, x: string, n: nat) returns (m: nat)
    requires StepsTo(d, x, a, n)
    ensures StepsTo(d[a := to], x, a, m)
    decreases n
  {
    if x == a {
      m := 0;
    } else {
      var k := FirstMeeting(d, a, to, d[x], n - 1);
      m := k + 1;
    }
  }

  lemma {:induction false} ReachableProposal(cfg: Config, calls: seq<Call>, id: string)
    requires id in Run(cfg, INITIAL, calls).proposals
    ensures Timely(cfg, Run(cfg, INITIAL, calls).proposals[id]) && TalliesMatch(Run(cfg, INITIAL, calls).proposals[id])
  {
    hide Run, Acyclic, Inverse, Timely, TalliesMatch, VotersDoNotDelegate, TreasurySound;
    ReachableIsSound(cfg, calls);
  }

  /** The clock of a full-mode ballot, from the creation of its proposal on: discussion first, then votes by those who do not
      delegate, then the count. */
  lemma {:induction false} BallotClock(cfg: Config, calls: seq<Call>, id: string, voter: string, direction: Direction, balance: real,
                                       totalVotingPower: Option<real>, now: nat)
    requires !cfg.simplifiedMode && id in Run(cfg, INITIAL, calls).proposals
    ensures var st, p := Run(cfg, INITIAL, calls), Run(cfg, INITIAL, calls).proposals[id];
      var opens := p.createdAt + cfg.discussionPeriodMs;
      && (Guard(cfg, st, StartVoting(id, now)) == None <==> p.status == Discussion && opens <= now)
      && (Guard(cfg, st, CastVote(id, voter, direction, balance, totalVotingPower, now)) == None
          <==> p.status == Voting && opens <= now <= opens + cfg.votingPeriodMs && voter !in st.delegations)
      && (Guard(cfg, st, TallyVotes(id, now)) == None <==> p.status == Voting && opens + cfg.votingPeriodMs <= now)
  {
    ReachableProposal(cfg, calls, id);
    hide Run;
  }

  /** The recorded power of one direction. */
  ghost function PowerFor(p: Proposal, direction: Direction): real {
    SumOver((set v | v in p.votes && p.votes[v].direction == direction), v => if v in p.votes then p.votes[v].power else 0.0)
  }

  /** A count closes the ballot as passed exactly if something was cast and the recorded power in favour is the proposal's own
      share of it, or else the standard one; and it changes nothing but the status and the time of passing. */
  lemma {:induction false} CountDecides(cfg: Config, calls: seq<Call>, id: string, now: nat)
    requires Guard(cfg, Run(cfg, INITIAL, calls), TallyVotes(id, now)) == None
    ensures var st := Run(cfg, INITIAL, calls);
      && id in st.proposals
      && var p, later := st.proposals[id], Step(cfg, st, TallyVotes(id, now));
         var yes, no := PowerFor(p, For), PowerFor(p, Against);
         var share := if p.threshold.Some? then p.threshold.value else cfg.standardThreshold / 100.0;
         var passes := yes + no > 0.0 && yes >= share * (yes + no);
         later == st.(proposals := st.proposals[id := if passes then p.(status := Passed, passedAt := Some(now)) else p.(status := Rejected)])
  {
    var st := Run(cfg, INITIAL, calls);
    assert id in st.proposals;
    ReachableProposal(cfg, calls, id);
    hide Run, Timely, SumOver;
    TallyEffect(cfg, st, id, now);
    PassesByShare(cfg, st.proposals[id]);
    hide Passes, Step;
  }

  /** An accepted execution of a treasury proposal that names a recipient and an amount takes exactly that amount, which the
      treasury holds, and enters it in the ledger; any other execution leaves the treasury alone. */
  lemma ExecutionPays(cfg: Config, st: State, id: string, now: nat)
    requires Guard(cfg, st, ExecuteProposal(id, now)) == None
    ensures id in st.proposals
    ensures var p, later := st.proposals[id], Step(cfg, st, ExecuteProposal(id, now));
      && p.status == Passed && p.passedAt.Some? && p.passedAt.value + cfg.timelockMs <= now
      && later.proposals == st.proposals[id := p.(status := Executed, executedAt := Some(now))]
      && if p.kind == TreasurySpend && p.execution.Some? && p.execution.value.amount != 0.0 && p.execution.value.recipient != "" then
           var amount := p.execution.value.amount;
           && 0.0 < amount <= st.treasury && later.treasury == st.treasury - amount
           && later.ledger == st.ledger + [Spent(amount, id, p.execution.value.recipient)]
         else later.treasury == st.treasury && later.ledger == st.ledger
  {}

  /** And it is refused only for want of a passed proposal, of time, or of money. */
  lemma ExecutionAcceptedIff(cfg: Config, st: State, id: string, now: nat)
    requires id in st.proposals && st.proposals[id].status == Passed && st.proposals[id].passedAt.Some?
    requires st.proposals[id].passedAt.value + cfg.timelockMs <= now
    ensures Guard(cfg, st, ExecuteProposal(id, now)) == None
      <==> var p := st.proposals[id];
        (p.kind == TreasurySpend && p.execution.Some? && p.execution.value.recipient != "") ==>
          0.0 <= p.execution.value.amount && (p.execution.value.amount == 0.0 || p.execution.value.amount <= st.treasury)
  {}

  /** A proposal as it is made: in discussion, without votes, on the clock of its making. */
  function JustMade(cfg: Config, kind: ProposalType, deposit: real, execution: Option<Execution>, threshold: Option<real>, now: nat): Proposal {
    Proposal(kind, deposit, Discussion, map[], now, now + cfg.discussionPeriodMs, now + cfg.discussionPeriodMs + cfg.votingPeriodMs,
             execution, threshold, None, None, 0.0, 0.0)
  }

  /** One new proposal under an id that no other has, and nothing else but the counter. */
  ghost predicate Adds(st: State, later: State, p: Proposal) {
    exists id :: id !in st.proposals && later == st.(proposals := st.proposals[id := p], counter := st.counter + 1)
  }

  /** In every reachable state a proposal is refused exactly for too small a deposit; otherwise it joins the others. */
  lemma {:induction false} CreationAcceptedIff(cfg: Config, calls: seq<Call>, kind: ProposalType, deposit: real,
                                               execution: Option<Execution>, threshold: Option<real>, now: nat)
    ensures var st, full, simple := Run(cfg, INITIAL, calls), CreateFull(kind, deposit, execution, now), CreateSimple(deposit, threshold, now);
      && (Guard(cfg, st, full) == None <==> 1000.0 <= deposit)
      && (Guard(cfg, st, simple) == None <==> cfg.minDeposit <= deposit)
      && (1000.0 <= deposit ==> Adds(st, Step(cfg, st, full), JustMade(cfg, kind, deposit, execution, None, now)))
      && (cfg.minDeposit <= deposit ==> Adds(st, Step(cfg, st, simple), JustMade(cfg, Standard, deposit, None, threshold, now)))
  {
    var st := Run(cfg, INITIAL, calls);
    ReachableIsSound(cfg, calls);
    IdsFromCounter(cfg, st);
    hide Run, Inv, FromCounter, ProposalId;
    FreshId(st, now);
    assert ProposalId(st.counter + 1, now) !in st.proposals;
  }

  /** Deposits must be positive; spends must be positive, covered, and for a treasury proposal. Both move the treasury by the
      amount and are entered in the ledger. */
  lemma TreasuryMoves(cfg: Config, st: State, id: string, amount: real, recipient: string)
    ensures var deposit, spend := RecordDeposit(amount), RecordSpend(id, amount, recipient);
      && (Guard(cfg, st, deposit) == None <==> 0.0 < amount)
      && (Guard(cfg, st, spend) == None <==> 0.0 < amount <= st.treasury && id in st.proposals && st.proposals[id].kind == TreasurySpend)
      && (Guard(cfg, st, deposit) == None ==>
            Step(cfg, st, deposit) == st.(treasury := st.treasury + amount, ledger := st.ledger + [Deposited(amount)]))
      && (Guard(cfg, st, spend) == None ==>
            Step(cfg, st, spend) == st.(treasury := st.treasury - amount, ledger := st.ledger + [Spent(amount, id, recipient)]))
  {}

  /** Registering a balance replaces the registered one. */
  lemma BalanceIsRegistered(cfg: Config, st: State, address: string, balance: real, other: string)
    ensures var later := Step(cfg, st, RegisterBalance(address, balance));
      && later == st.(balances := later.balances)
      && Registered(later, other) == if other == address then balance else Registered(st, other)
  {}
}
