/** Concrete runs of the governance engine, for every configuration they apply to: powers counted twice in one
    ballot, in full mode after a delegation is withdrawn and in simplified mode without, and a proposal that passes below the
    critical threshold. */
module GovernanceRuns {
  import opened Wrappers
  import opened Vectors
  import opened Sums
  import opened Delegation
  import opened GovernanceModel
  import opened GovernanceProofs
  import opened PowerCounting

  /** The first proposal of a run, created at time zero. */
  function FirstId(): string {
    ProposalId(1, 0)
  }

  function Opened(cfg: Config, st: State, kind: ProposalType): State {
    var p := NewProposal(cfg, kind, 1000.0, None, None, 0);
    st.(counter := 1, proposals := map[FirstId() := p.(status := Voting)])
  }

  function Opening(cfg: Config, kind: ProposalType): seq<Call> {
    [CreateFull(kind, 1000.0, None, 0), StartVoting(FirstId(), cfg.discussionPeriodMs)]
  }

  /** A fresh ballot after calls that touched no proposal. */
  lemma {:induction false} BallotOpens(cfg: Config, calls: seq<Call>, kind: ProposalType)
    requires Run(cfg, INITIAL, calls).counter == 0 && Run(cfg, INITIAL, calls).proposals == map[]
    requires ContentsAfter(cfg, calls) == map[]
    ensures Run(cfg, INITIAL, calls + Opening(cfg, kind)) == Opened(cfg, Run(cfg, INITIAL, calls), kind)
    ensures ContentsAfter(cfg, calls + Opening(cfg, kind)) == map[]
  {
    hide Run, ContentsAfter, ProposalId;
    var st := Run(cfg, INITIAL, calls);
    var c1, c2 := CreateFull(kind, 1000.0, None, 0), StartVoting(FirstId(), cfg.discussionPeriodMs);
    OneMore(cfg, calls, c1);
    OneMore(cfg, calls + [c1], c2);
    assert calls + Opening(cfg, kind) == calls + [c1] + [c2];
    var created := Step(cfg, st, c1);
    assert created == Created(st, NewProposal(cfg, kind, 1000.0, None, None, 0), 0);
    assert created.proposals == map[FirstId() := NewProposal(cfg, kind, 1000.0, None, None, 0)];
    assert Guard(cfg, created, c2) == None;
  }

  lemma {:induction false} NothingYet(cfg: Config)
    ensures Run(cfg, INITIAL, []) == INITIAL && ContentsAfter(cfg, []) == map[]
  {}

  /** d delegates to v. */
  lemma {:induction false} FirstDelegation(cfg: Config)
    ensures var st := Run(cfg, INITIAL, [SetDelegation("d", Some("v"))]);
      st == INITIAL.(delegations := map["d" := "v"], index := map["v" := {"d"}])
    ensures ContentsAfter(cfg, [SetDelegation("d", Some("v"))]) == map[]
  {
    hide Run, ContentsAfter, Reaches, HasVotedInActive;
    var c := SetDelegation("d", Some("v"));
    NothingYet(cfg);
    OneMore(cfg, [], c);
    assert [] + [c] == [c];
    assert "d"[0] != "v"[0];
    NoWayTo(map[], "v", "d");
    NobodyVoted("d");
    assert Guard(cfg, INITIAL, c) == None;
    assert Delegators(map[], "v") + {"d"} == {"d"};
  }

  lemma NobodyVoted(a: string)
    ensures !HasVotedInActive(map[], a)
  {}

  /** What a vote does to the two things the runs below look at. */
  lemma BallotCast(cfg: Config, st: State, contents: Contents, c: Call)
    requires c.CastVote? && Guard(cfg, st, c) == None
    ensures var later := Step(cfg, st, c);
      && later.delegations == st.delegations && later.index == st.index && c.id in later.proposals
      && later.proposals[c.id].votingStartsAt == st.proposals[c.id].votingStartsAt
      && later.proposals[c.id].votingEndsAt == st.proposals[c.id].votingEndsAt
      && later.proposals[c.id].status == Voting
    ensures c.id in Counted(cfg, st, contents, c)
    ensures Counted(cfg, st, contents, c)[c.id] == ContentsOf(contents, c.id)[c.voter := Contributors(cfg, st, c.voter)]
  {
    hide CastPower, Contributors;
  }

  /** d delegates to v; v votes; d withdraws and votes as well. */
  function TwiceRun(cfg: Config): seq<Call> {
    [SetDelegation("d", Some("v"))] + Opening(cfg, Standard) + [Ballot(FirstId(), "v", cfg.discussionPeriodMs)]
    + [SetDelegation("d", None)] + [Ballot(FirstId(), "d", cfg.discussionPeriodMs)]
  }

  /** In every full-mode configuration this run counts the power of d twice in one ballot. */
  lemma {:induction false} WithdrawnDelegatorCountsTwice(cfg: Config)
    requires !cfg.simplifiedMode
    ensures CountedTwice(ContentsOf(ContentsAfter(cfg, TwiceRun(cfg)), FirstId()))
  {
    hide Run, ContentsAfter, Step, Counted, ProposalId;
    var id, now := FirstId(), cfg.discussionPeriodMs;
    var c1 := [SetDelegation("d", Some("v"))];
    FirstDelegation(cfg);
    BallotOpens(cfg, c1, Standard);
    var c3 := c1 + Opening(cfg, Standard);
    var st3 := Run(cfg, INITIAL, c3);
    var vote := Ballot(id, "v", now);
    assert "d"[0] != "v"[0];
    assert "v" !in st3.delegations && Guard(cfg, st3, vote) == None;
    OneMore(cfg, c3, vote);
    BallotCast(cfg, st3, map[], vote);
    var c4 := c3 + [vote];
    WithdrawnEffect(cfg, c4);
    var c5 := c4 + [SetDelegation("d", None)];
    var again := Ballot(id, "d", now);
    assert Guard(cfg, Run(cfg, INITIAL, c5), again) == None;
    OneMore(cfg, c5, again);
    BallotCast(cfg, Run(cfg, INITIAL, c5), ContentsAfter(cfg, c5), again);
    var votes := ContentsOf(ContentsAfter(cfg, c5 + [again]), id);
    assert "d" in votes["v"] && "d" in votes["d"];
    assert TwiceRun(cfg) == c5 + [again];
  }

  /** d delegates to v, and both vote. */
  function BothVote(cfg: Config): seq<Call> {
    [SetDelegation("d", Some("v"))] + Opening(cfg, Standard) + [Ballot(FirstId(), "v", cfg.discussionPeriodMs)]
    + [Ballot(FirstId(), "d", cfg.discussionPeriodMs)]
  }

  /** In simplified mode without quadratic voting this run counts the power of d twice, with no delegation withdrawn. */
  lemma {:induction false} DelegatorVotesToo(cfg: Config)
    requires cfg.simplifiedMode && !cfg.quadraticVoting
    ensures CountedTwice(ContentsOf(ContentsAfter(cfg, BothVote(cfg)), FirstId()))
  {
    hide Run, ContentsAfter, Step, Counted, ProposalId;
    var id, now := FirstId(), cfg.discussionPeriodMs;
    var c1 := [SetDelegation("d", Some("v"))];
    FirstDelegation(cfg);
    BallotOpens(cfg, c1, Standard);
    var c3 := c1 + Opening(cfg, Standard);
    var st3 := Run(cfg, INITIAL, c3);
    var vote, again := Ballot(id, "v", now), Ballot(id, "d", now);
    assert "d"[0] != "v"[0];
    assert Guard(cfg, st3, vote) == None;
    OneMore(cfg, c3, vote);
    BallotCast(cfg, st3, map[], vote);
    var c4 := c3 + [vote];
    assert Guard(cfg, Run(cfg, INITIAL, c4), again) == None;
    OneMore(cfg, c4, again);
    BallotCast(cfg, Run(cfg, INITIAL, c4), ContentsAfter(cfg, c4), again);
    var votes := ContentsOf(ContentsAfter(cfg, c4 + [again]), id);
    assert "d" in votes["v"] && "d" in votes["d"];
  }

  lemma {:induction false} WithdrawnEffect(cfg: Config, calls: seq<Call>)
    requires Run(cfg, INITIAL, calls).delegations == map["d" := "v"]
    ensures var later := Run(cfg, INITIAL, calls + [SetDelegation("d", None)]);
      later.delegations == map[] && later.proposals == Run(cfg, INITIAL, calls).proposals
    ensures ContentsAfter(cfg, calls + [SetDelegation("d", None)]) == ContentsAfter(cfg, calls)
  {
    hide Run, ContentsAfter, Unlist;
    OneMore(cfg, calls, SetDelegation("d", None));
    assert map["d" := "v"] - {"d"} == map[];
  }

  lemma SquareRoot(root: real -> real, x: real, r: real)
    requires IsSqrt(root) && 0.0 <= r && x == r * r
    ensures root(x) == r
  {
    SquareOrder(root(x), r);
    SquareOrder(r, root(x));
  }

  lemma RootGrows(root: real -> real, x: real, y: real)
    requires IsSqrt(root) && 0.0 <= x <= y
    ensures root(x) <= root(y)
  {
    SquareOrder(root(x), root(y));
  }

  /** The power of a voter without delegators whose balance is the square of r and below the cap. */
  lemma PowerAlone(cfg: Config, st: State, voter: string, r: real)
    requires IsSqrt(cfg.root) && 0.0 <= r && r * r <= cfg.totalSupply * 0.1 && st.index == map[]
    ensures CastPower(cfg, st, voter, r * r, None) == r
  {
    SquareRoot(cfg.root, r * r, r);
    RootGrows(cfg.root, r * r, cfg.totalSupply * 0.1);
    assert SumOver({}, DelegatorPower(cfg, st.balances)) == 0.0;
  }

  function TwoVotes(cfg: Config): (Call, Call) {
    (CastVote(FirstId(), "a", For, 4.0, None, cfg.discussionPeriodMs), CastVote(FirstId(), "b", Against, 1.0, None, cfg.discussionPeriodMs))
  }

  /** A proposal on which a has voted for with power 2 and b against with power 1. */
  function SplitProposal(cfg: Config, kind: ProposalType): Proposal {
    var now := cfg.discussionPeriodMs;
    NewProposal(cfg, kind, 1000.0, None, None, 0).(status := Voting,
      votes := map["a" := Vote(2.0, For, now, 4.0), "b" := Vote(1.0, Against, now, 1.0)],
      totalForPower := 2.0, totalAgainstPower := 1.0)
  }

  function SplitRun(cfg: Config, kind: ProposalType): seq<Call> {
    Opening(cfg, kind) + [TwoVotes(cfg).0] + [TwoVotes(cfg).1]
  }

  lemma {:induction false} SplitVotes(cfg: Config, kind: ProposalType)
    requires !cfg.simplifiedMode && IsSqrt(cfg.root) && 40.0 <= cfg.totalSupply
    ensures Run(cfg, INITIAL, SplitRun(cfg, kind)) == INITIAL.(counter := 1, proposals := map[FirstId() := SplitProposal(cfg, kind)])
  {
    hide Run, ContentsAfter, CastPower, ProposalId;
    NothingYet(cfg);
    BallotOpens(cfg, [], kind);
    assert [] + Opening(cfg, kind) == Opening(cfg, kind);
    var st := Opened(cfg, INITIAL, kind);
    var votes := TwoVotes(cfg);
    assert "a"[0] != "b"[0];
    PowerAlone(cfg, st, "a", 2.0);
    OneMore(cfg, Opening(cfg, kind), votes.0);
    var st1 := Step(cfg, st, votes.0);
    var p1 := st.proposals[FirstId()].(votes := map["a" := Vote(2.0, For, votes.0.now, 4.0)], totalForPower := 2.0);
    assert st1 == st.(proposals := map[FirstId() := p1]);
    PowerAlone(cfg, st1, "b", 1.0);
    OneMore(cfg, Opening(cfg, kind) + [votes.0], votes.1);
  }

  lemma SplitPowers(cfg: Config, kind: ProposalType)
    ensures RecordedPower(SplitProposal(cfg, kind), For) == 2.0 && RecordedPower(SplitProposal(cfg, kind), Against) == 1.0
  {
    var p := SplitProposal(cfg, kind);
    assert "a"[0] != "b"[0];
    assert Voters(p, For) == {} + {"a"} && Voters(p, Against) == {} + {"b"};
    SumInsert({}, PowerIn(p), "a");
    SumInsert({}, PowerIn(p), "b");
  }

  function Closing(cfg: Config): Call {
    TallyVotes(FirstId(), cfg.discussionPeriodMs + cfg.votingPeriodMs)
  }

  lemma {:induction false} SplitVotePasses(cfg: Config, kind: ProposalType)
    requires !cfg.simplifiedMode && IsSqrt(cfg.root) && 40.0 <= cfg.totalSupply && cfg.standardThreshold <= 66.0
    ensures var last := Run(cfg, INITIAL, SplitRun(cfg, kind) + [Closing(cfg)]);
      FirstId() in last.proposals && last.proposals[FirstId()].status == Passed
  {
    hide Run, ContentsAfter, SplitRun, ProposalId, IsSqrt;
    SplitVotes(cfg, kind);
    OneMore(cfg, SplitRun(cfg, kind), Closing(cfg));
    var st := INITIAL.(counter := 1, proposals := map[FirstId() := SplitProposal(cfg, kind)]);
    TallyEffect(cfg, st, FirstId(), Closing(cfg).now);
    PassesByShare(cfg, SplitProposal(cfg, kind));
  }

  /** With two thirds in favour a critical proposal passes wherever the critical threshold asks for more. */
  lemma {:induction false} CriticalProposalPasses(cfg: Config)
    requires !cfg.simplifiedMode && IsSqrt(cfg.root) && 40.0 <= cfg.totalSupply
    requires cfg.standardThreshold <= 66.0 && 67.0 <= cfg.criticalThreshold
    ensures var before, last := Run(cfg, INITIAL, SplitRun(cfg, Critical)), Run(cfg, INITIAL, SplitRun(cfg, Critical) + [Closing(cfg)]);
      && FirstId() in before.proposals && !MeetsDocumentedThreshold(cfg, before.proposals[FirstId()])
      && FirstId() in last.proposals && last.proposals[FirstId()].status == Passed
  {
    hide Run, SplitRun, ProposalId, IsSqrt, RecordedPower;
    SplitVotes(cfg, Critical);
    SplitPowers(cfg, Critical);
    SplitVotePasses(cfg, Critical);
    var p := SplitProposal(cfg, Critical);
    assert cfg.criticalThreshold / 100.0 * 3.0 > 2.0;
    assert MeetsDocumentedThreshold(cfg, p) == Carries(2.0, 3.0, cfg.criticalThreshold / 100.0);
  }
}
