/** The quorum of the configuration, which no call applies. */
module Quorum {
  import opened Wrappers
  import opened Vectors
  import opened Sums
  import opened Delegation
  import opened GovernanceModel
  import opened GovernanceProofs

  /** Nobody votes with a negative balance. */
  ghost predicate NoNegativeBalances(calls: seq<Call>) {
    forall k :: 0 <= k < |calls| && calls[k].CastVote? ==> 0.0 <= calls[k].balance
  }

  /** Every ballot that passes, in any run, meets the quorum. */
  ghost predicate HonorsQuorum(cfg: Config) {
    forall calls, id | NoNegativeBalances(calls) && id in Run(cfg, INITIAL, calls).proposals
                       && Run(cfg, INITIAL, calls).proposals[id].status in {Passed, Executed} ::
      MeetsDocumentedQuorum(cfg, Run(cfg, INITIAL, calls).proposals[id])
  }

  ghost predicate VotesNotNegative(st: State) {
    forall id, v :: id in st.proposals && v in st.proposals[id].votes ==> 0.0 <= st.proposals[id].votes[v].rawBalance
  }

  lemma StepKeepsVotes(cfg: Config, st: State, c: Call)
    requires VotesNotNegative(st) && (c.CastVote? ==> 0.0 <= c.balance)
    ensures VotesNotNegative(Step(cfg, st, c))
  {
    hide Reaches, HasVotedInActive, CastPower, Passes, ProposalId, Unlist, Enlist;
  }

  lemma {:induction false} VotesStayNonNegative(cfg: Config, calls: seq<Call>)
    requires NoNegativeBalances(calls)
    ensures VotesNotNegative(Run(cfg, INITIAL, calls))
  {
    hide Step, VotesNotNegative;
    if calls == [] {
      NoVotes();
    } else {
      var before := calls[..|calls| - 1];
      VotesStayNonNegative(cfg, before);
      StepKeepsVotes(cfg, Run(cfg, INITIAL, before), calls[|calls| - 1]);
    }
  }

  lemma NoVotes()
    ensures VotesNotNegative(INITIAL)
  {}

  /** A simple proposal on which one voter votes for it with half of the quorum. */
  function SimpleProposal(cfg: Config): Proposal {
    NewProposal(cfg, Standard, cfg.minDeposit, None, Some(0.5), 0)
  }

  const ID := ProposalId(1, 0)

  function SmallVote(cfg: Config): seq<Call> {
    [CreateSimple(cfg.minDeposit, Some(0.5), 0)] + [StartVoting(ID, cfg.discussionPeriodMs)]
    + [CastVote(ID, "a", For, QuorumNeeded(cfg) / 2.0, None, cfg.discussionPeriodMs)]
    + [TallyVotes(ID, cfg.discussionPeriodMs + cfg.votingPeriodMs)]
  }

  lemma {:induction false} RunMore(cfg: Config, calls: seq<Call>, c: Call)
    ensures Run(cfg, INITIAL, calls + [c]) == Step(cfg, Run(cfg, INITIAL, calls), c)
  {
    hide Step;
    assert (calls + [c])[..|calls|] == calls;
  }

  lemma {:induction false} FourCalls(cfg: Config, a: Call, b: Call, c: Call, d: Call)
    ensures Run(cfg, INITIAL, [a] + [b] + [c] + [d]) == Step(cfg, Step(cfg, Step(cfg, Step(cfg, INITIAL, a), b), c), d)
  {
    NoCalls(cfg);
    hide Step, Run;
    RunMore(cfg, [], a);
    RunMore(cfg, [a], b);
    RunMore(cfg, [a] + [b], c);
    RunMore(cfg, [a] + [b] + [c], d);
    assert [] + [a] == [a];
  }

  lemma {:induction false} NoCalls(cfg: Config)
    ensures Run(cfg, INITIAL, []) == INITIAL
  {}

  /** The root of a positive number is positive. */
  lemma RootPositive(root: real -> real, x: real)
    requires IsSqrt(root) && 0.0 < x
    ensures 0.0 < root(x)
  {}

  lemma LonePower(cfg: Config, st: State, voter: string, balance: real)
    requires IsSqrt(cfg.root) && 0.0 < balance && 0.0 < cfg.totalSupply && st.index == map[]
    ensures 0.0 < CastPower(cfg, st, voter, balance, None)
  {
    RootPositive(cfg.root, balance);
    RootPositive(cfg.root, cfg.totalSupply * 0.1);
    assert SumOver({}, DelegatorPower(cfg, st.balances)) == 0.0;
  }

  lemma VotedOn(cfg: Config) returns (power: real)
    requires IsSqrt(cfg.root) && 0.0 < cfg.totalSupply && 0.0 < QuorumNeeded(cfg)
    ensures 0.0 < power
    ensures var v := Vote(power, For, cfg.discussionPeriodMs, QuorumNeeded(cfg) / 2.0);
      Step(cfg, Step(cfg, Step(cfg, INITIAL, SmallVote(cfg)[0]), SmallVote(cfg)[1]), SmallVote(cfg)[2])
      == INITIAL.(counter := 1, proposals := map[ID := WithVote(SimpleProposal(cfg).(status := Voting), "a", v)])
  {
    hide CastPower, ProposalId, IsSqrt, WithVote;
    var first := INITIAL.(counter := 1, proposals := map[ID := SimpleProposal(cfg)]);
    assert Step(cfg, INITIAL, SmallVote(cfg)[0]) == first;
    var second := INITIAL.(counter := 1, proposals := map[ID := SimpleProposal(cfg).(status := Voting)]);
    assert Step(cfg, first, SmallVote(cfg)[1]) == second;
    LonePower(cfg, second, "a", QuorumNeeded(cfg) / 2.0);
    power := CastPower(cfg, second, "a", QuorumNeeded(cfg) / 2.0, None);
  }

  /** In every mode, whatever the thresholds: half of the quorum in favour is enough to pass. */
  lemma {:induction false} HalfOfQuorumPasses(cfg: Config)
    requires IsSqrt(cfg.root) && 0.0 < cfg.totalSupply && 0.0 < QuorumNeeded(cfg)
    ensures NoNegativeBalances(SmallVote(cfg))
    ensures var last := Run(cfg, INITIAL, SmallVote(cfg));
      && ID in last.proposals && last.proposals[ID].status == Passed
      && !MeetsDocumentedQuorum(cfg, last.proposals[ID])
  {
    hide Run, IsSqrt, ProposalId;
    var calls := SmallVote(cfg);
    FourCalls(cfg, calls[0], calls[1], calls[2], calls[3]);
    var power := VotedOn(cfg);
    var v := Vote(power, For, cfg.discussionPeriodMs, QuorumNeeded(cfg) / 2.0);
    var p := WithVote(SimpleProposal(cfg).(status := Voting), "a", v);
    assert p.totalForPower == power && p.totalAgainstPower == 0.0;
    assert power / power == 1.0;
    var st := INITIAL.(counter := 1, proposals := map[ID := p]);
    TallyEffect(cfg, st, ID, calls[3].now);
    var q := Tallied(cfg, p, calls[3].now);
    assert q.votes.Keys == {} + {"a"};
    SumInsert({}, RawBalance(q), "a");
  }

  /** Every passed ballot of every run meets the quorum exactly if the configuration asks for none: no call applies it. */
  lemma {:induction false} HonorsQuorumIff(cfg: Config)
    requires IsSqrt(cfg.root) && 0.0 < cfg.totalSupply
    ensures HonorsQuorum(cfg) <==> cfg.quorumPercent / 100.0 * cfg.totalSupply <= 0.0
  {
    hide Run, IsSqrt, SmallVote;
    if QuorumNeeded(cfg) <= 0.0 {
      forall calls, id | NoNegativeBalances(calls) && id in Run(cfg, INITIAL, calls).proposals
                         && Run(cfg, INITIAL, calls).proposals[id].status in {Passed, Executed}
        ensures MeetsDocumentedQuorum(cfg, Run(cfg, INITIAL, calls).proposals[id])
      {
        var p := Run(cfg, INITIAL, calls).proposals[id];
        VotesStayNonNegative(cfg, calls);
        SumAtLeast(p.votes.Keys, RawBalance(p), 0.0);
        assert Times(0.0, |p.votes.Keys|) == 0.0;
      }
    } else {
      HalfOfQuorumPasses(cfg);
    }
  }
}
