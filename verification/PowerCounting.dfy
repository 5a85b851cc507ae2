/** Whose power each recorded vote contains, and when the same power is counted twice in one ballot. */
module PowerCounting {
  import opened Wrappers
  import opened Sums
  import opened Text
  import opened Delegation
  import opened GovernanceModel
  import opened GovernanceProofs

  /** Per proposal and voter, the addresses whose power went into the vote on record. */
  type Contents = map<string, map<string, set<string>>>

  /** The addresses whose power a vote cast now adds up. */
  function Contributors(cfg: Config, st: State, voter: string): set<string> {
    if cfg.simplifiedMode && cfg.quadraticVoting then {voter} else {voter} + Delegators(st.index, voter)
  }

  function ContentsOf(contents: Contents, id: string): map<string, set<string>> {
    if id in contents then contents[id] else map[]
  }

  /** The contents after one more call: a vote that is accepted replaces what the voter's earlier one contained. */
  ghost function Counted(cfg: Config, st: State, contents: Contents, c: Call): Contents {
    if c.CastVote? && Guard(cfg, st, c) == None
    then contents[c.id := ContentsOf(contents, c.id)[c.voter := Contributors(cfg, st, c.voter)]]
    else contents
  }

  ghost function ContentsAfter(cfg: Config, calls: seq<Call>): Contents {
    if calls == [] then map[] else
      var before := calls[..|calls| - 1];
      Counted(cfg, Run(cfg, INITIAL, before), ContentsAfter(cfg, before), calls[|calls| - 1])
  }

  /** Some power is in the votes of two voters. */
  ghost predicate CountedTwice(votes: map<string, set<string>>) {
    exists v, w, a :: v in votes && w in votes && v != w && a in votes[v] && a in votes[w]
  }

  /** Who speaks for an address: the one it delegates to, or itself. */
  function Speaker(d: Graph, a: string): string {
    if a in d then d[a] else a
  }

  /** Contents are kept for exactly the votes on record. */
  ghost predicate Kept(st: State, contents: Contents) {
    && (forall id :: id in contents ==> id in st.proposals)
    && (forall id :: id in st.proposals ==> ContentsOf(contents, id).Keys == st.proposals[id].votes.Keys)
  }

  /** The recorded power of a full vote is the voter's own and that of every other contributor. */
  lemma CastAddsContributors(cfg: Config, st: State, voter: string, balance: real, totalVotingPower: Option<real>)
    requires Inv(cfg, st) && voter != "" && !(cfg.simplifiedMode && cfg.quadraticVoting)
    ensures CastPower(cfg, st, voter, balance, totalVotingPower)
      == VotingPower(cfg, EffectiveBalance(cfg, balance, totalVotingPower))
         + SumOver(Contributors(cfg, st, voter) - {voter}, DelegatorPower(cfg, st.balances))
  {
    hide Acyclic, ProposalsSound, VotersDoNotDelegate, TreasurySound;
    if voter in Delegators(st.index, voter) {
      assert st.delegations[voter] == voter;
      SelfDelegationIsACycle(st.delegations, voter);
    }
    assert Contributors(cfg, st, voter) - {voter} == Delegators(st.index, voter);
  }

  lemma SelfDelegationIsACycle(d: Graph, a: string)
    requires a in d && d[a] == a
    ensures !Acyclic(d)
  {
    assert StepsTo(d, a, a, 0);
    assert StepsTo(d, a, a, 1);
  }

  /** The power of a goes into a vote that the voter casts now. */
  predicate GoesInto(cfg: Config, d: Graph, voter: string, a: string) {
    a == voter || (!(cfg.simplifiedMode && cfg.quadraticVoting) && a in d && d[a] == voter)
  }

  lemma ContributorsGoInto(cfg: Config, st: State, voter: string, a: string)
    requires Inv(cfg, st) && voter != ""
    ensures a in Contributors(cfg, st, voter) <==> GoesInto(cfg, st.delegations, voter, a)
  {
    hide Acyclic, ProposalsSound, VotersDoNotDelegate, TreasurySound;
  }

  /** A voter who may vote speaks with the power of exactly the addresses it speaks for. */
  lemma ContributorsAreSpokenFor(cfg: Config, st: State, voter: string, a: string)
    requires Inv(cfg, st) && !cfg.simplifiedMode && voter != "" && voter !in st.delegations
    ensures a in Contributors(cfg, st, voter) <==> Speaker(st.delegations, a) == voter
  {
    hide Inv, Contributors;
    ContributorsGoInto(cfg, st, voter, a);
  }

  lemma CreationKeepsContents(st: State, contents: Contents, p: Proposal, now: nat)
    requires Kept(st, contents) && p.votes == map[]
    requires forall id :: id in st.proposals ==> FromCounter(PROPOSAL, id, st.counter)
    ensures Kept(Created(st, p, now), contents)
  {
    hide FromCounter, ProposalId;
    FreshId(st, now);
  }

  /** Calls that neither vote nor create leave the voters of every proposal alone. */
  lemma OtherCallsKeepVoters(cfg: Config, st: State, c: Call)
    requires !c.CastVote? && !c.CreateSimple? && !c.CreateFull?
    ensures var later := Step(cfg, st, c);
      later.proposals.Keys == st.proposals.Keys && forall id :: id in st.proposals ==> later.proposals[id].votes == st.proposals[id].votes
  {
    hide Passes, Reaches, HasVotedInActive, CastPower, ProposalId, Unlist, Enlist;
  }

  lemma StepKeepsContents(cfg: Config, st: State, contents: Contents, c: Call)
    requires Inv(cfg, st) && Kept(st, contents)
    ensures Kept(Step(cfg, st, c), Counted(cfg, st, contents, c))
  {
    hide Inv, CastPower, Contributors, ProposalId;
    IdsFromCounter(cfg, st);
    if c.CastVote? {
      hide FromCounter;
    } else if c.CreateSimple? {
      if Guard(cfg, st, c) == None {
        CreationKeepsContents(st, contents, NewProposal(cfg, Standard, c.deposit, None, c.threshold, c.now), c.now);
      }
    } else if c.CreateFull? {
      if Guard(cfg, st, c) == None {
        CreationKeepsContents(st, contents, NewProposal(cfg, c.kind, c.deposit, c.execution, None, c.now), c.now);
      }
    } else {
      hide Step;
      OtherCallsKeepVoters(cfg, st, c);
    }
  }

  lemma {:induction false} ReachableContents(cfg: Config, calls: seq<Call>)
    ensures Inv(cfg, Run(cfg, INITIAL, calls)) && Kept(Run(cfg, INITIAL, calls), ContentsAfter(cfg, calls))
  {
    hide Step, Counted, Inv, Kept;
    ReachableIsSound(cfg, calls);
    if calls == [] {
      NothingKept();
    } else {
      var before := calls[..|calls| - 1];
      ReachableContents(cfg, before);
      StepKeepsContents(cfg, Run(cfg, INITIAL, before), ContentsAfter(cfg, before), calls[|calls| - 1]);
    }
  }

  lemma NothingKept()
    ensures Kept(INITIAL, map[])
  {}

  lemma {:induction false} OneMore(cfg: Config, calls: seq<Call>, c: Call)
    ensures Run(cfg, INITIAL, calls + [c]) == Step(cfg, Run(cfg, INITIAL, calls), c)
    ensures ContentsAfter(cfg, calls + [c]) == Counted(cfg, Run(cfg, INITIAL, calls), ContentsAfter(cfg, calls), c)
  {
    hide Step, Counted;
    assert (calls + [c])[..|calls|] == calls;
  }

  /** A power that is already in the vote of another voter goes into one this voter casts now. */
  ghost predicate AddsCounted(cfg: Config, st: State, votes: map<string, set<string>>, voter: string) {
    exists w, a :: w in votes && w != voter && a in votes[w] && GoesInto(cfg, st.delegations, voter, a)
  }

  lemma ReplacingCountsTwice(votes: map<string, set<string>>, voter: string, s: set<string>)
    ensures CountedTwice(votes[voter := s])
      <==> CountedTwice(votes - {voter}) || exists w, a :: w in votes && w != voter && a in votes[w] && a in s
  {
    var after, others := votes[voter := s], votes - {voter};
    if CountedTwice(after) {
      var v, w, a :| v in after && w in after && v != w && a in after[v] && a in after[w];
      if v != voter && w != voter {
        assert v in others && w in others && a in others[v] && a in others[w];
      } else {
        var x := if v == voter then w else v;
        assert x in votes && x != voter && a in votes[x] && a in s;
      }
    }
    if CountedTwice(others) {
      var v, w, a :| v in others && w in others && v != w && a in others[v] && a in others[w];
      assert v in after && w in after && a in after[v] && a in after[w];
    }
    if w, a :| w in votes && w != voter && a in votes[w] && a in s {
      assert voter in after && w in after && a in after[voter] && a in after[w];
    }
  }

  /** In every reachable state of every mode: a vote that is accepted makes some power count twice exactly if one that is
      in the recorded vote of another voter goes into it. */
  lemma {:induction false} CastCountsTwiceIff(cfg: Config, calls: seq<Call>, c: Call)
    requires c.CastVote? && c.voter != "" && Guard(cfg, Run(cfg, INITIAL, calls), c) == None
    ensures var st, votes := Run(cfg, INITIAL, calls), ContentsOf(ContentsAfter(cfg, calls), c.id);
      CountedTwice(ContentsOf(ContentsAfter(cfg, calls + [c]), c.id))
      <==> CountedTwice(votes - {c.voter}) || AddsCounted(cfg, st, votes, c.voter)
  {
    var st, votes := Run(cfg, INITIAL, calls), ContentsOf(ContentsAfter(cfg, calls), c.id);
    var s := Contributors(cfg, st, c.voter);
    hide Run, ContentsAfter, Inv, CountedTwice, Contributors, Guard, Step, GoesInto, AddsCounted;
    ReachableIsSound(cfg, calls);
    OneMore(cfg, calls, c);
    ReplacingCountsTwice(votes, c.voter, s);
    forall a ensures a in s <==> GoesInto(cfg, st.delegations, c.voter, a) {
      ContributorsGoInto(cfg, st, c.voter, a);
    }
    AddsCountedIff(cfg, st, votes, c.voter, s);
  }

  lemma AddsCountedIff(cfg: Config, st: State, votes: map<string, set<string>>, voter: string, s: set<string>)
    requires forall a :: a in s <==> GoesInto(cfg, st.delegations, voter, a)
    ensures AddsCounted(cfg, st, votes, voter) <==> exists w, a :: w in votes && w != voter && a in votes[w] && a in s
  {
    hide GoesInto;
  }

  /** Every vote contains the voter's own power and nothing else. */
  ghost predicate OwnOnly(contents: Contents) {
    forall id, v :: id in contents && v in contents[id] ==> contents[id][v] == {v}
  }

  /** In quadratic simplified mode no run counts a power twice: delegations do not count at all. */
  lemma {:induction false} QuadraticRunsCountOnce(cfg: Config, calls: seq<Call>)
    requires cfg.simplifiedMode && cfg.quadraticVoting
    ensures OwnOnly(ContentsAfter(cfg, calls)) && NoneTwice(ContentsAfter(cfg, calls))
  {
    if calls != [] {
      var before, c := calls[..|calls| - 1], calls[|calls| - 1];
      hide Run, Guard, OwnOnly, NoneTwice;
      QuadraticRunsCountOnce(cfg, before);
      OwnOnlyStep(cfg, Run(cfg, INITIAL, before), ContentsAfter(cfg, before), c);
      OwnOnlyCountsOnce(ContentsAfter(cfg, calls));
    }
  }

  lemma OwnOnlyStep(cfg: Config, st: State, contents: Contents, c: Call)
    requires cfg.simplifiedMode && cfg.quadraticVoting && OwnOnly(contents)
    ensures OwnOnly(Counted(cfg, st, contents, c))
  {
    hide Guard;
    var later := Counted(cfg, st, contents, c);
    forall id, v | id in later && v in later[id] ensures later[id][v] == {v} {
      assert id in contents && v in contents[id] ==> contents[id][v] == {v};
    }
  }

  lemma OwnOnlyCountsOnce(contents: Contents)
    requires OwnOnly(contents)
    ensures NoneTwice(contents)
  {
    forall id | id in contents ensures !CountedTwice(contents[id]) {
      var votes := contents[id];
      forall v, a | v in votes && a in votes[v] ensures a == v {
        assert votes[v] == {v};
      }
    }
  }

  /** The address has a vote in some running ballot. */
  ghost predicate Spoke(st: State, a: string) {
    HasVotedInActive(st.proposals, a)
  }

  /** Nobody leaves a delegatee that has voted in a running ballot, and nobody votes under the empty address. */
  ghost predicate Loyal(cfg: Config, st: State, c: Call) {
    && (c.CastVote? ==> c.voter != "")
    && (c.SetDelegation? && c.delegator in st.delegations ==>
          !Spoke(st, st.delegations[c.delegator]) || c.delegatee == Some(st.delegations[c.delegator]))
  }

  ghost predicate LoyalRun(cfg: Config, calls: seq<Call>) {
    forall k :: 0 <= k < |calls| ==> Loyal(cfg, Run(cfg, INITIAL, calls[..k]), calls[k])
  }

  /** Every power in a vote of a running ballot belongs to somebody that voter still speaks for. */
  ghost predicate StillSpokenFor(st: State, contents: Contents) {
    forall id, w, a ::
      (id in st.proposals && st.proposals[id].status == Voting && w in ContentsOf(contents, id) && a in ContentsOf(contents, id)[w])
      ==> Speaker(st.delegations, a) == w
  }

  ghost predicate NoneTwice(contents: Contents) {
    forall id :: id in contents ==> !CountedTwice(contents[id])
  }

  lemma VotersSpeakForThemselves(cfg: Config, st: State, contents: Contents, id: string, w: string)
    requires Inv(cfg, st) && !cfg.simplifiedMode && Kept(st, contents)
    requires id in st.proposals && st.proposals[id].status == Voting && w in ContentsOf(contents, id)
    ensures w !in st.delegations && Spoke(st, w)
  {
    hide Acyclic, Inverse, ProposalsSound, TreasurySound;
    assert w in st.proposals[id].votes;
  }

  /** A delegation that is loyal leaves everybody in a running ballot with the same speaker. */
  lemma DelegationKeepsSpeakers(cfg: Config, st: State, contents: Contents, c: Call)
    requires Inv(cfg, st) && !cfg.simplifiedMode && Kept(st, contents) && StillSpokenFor(st, contents)
    requires c.SetDelegation? && Loyal(cfg, st, c)
    ensures StillSpokenFor(Step(cfg, st, c), contents)
  {
    var later := Step(cfg, st, c);
    hide Inv, Kept, Acyclic, Inverse, Reaches, HasVotedInActive, Unlist, Enlist;
    assert later.proposals == st.proposals;
    forall id, w, a | id in st.proposals && st.proposals[id].status == Voting && w in ContentsOf(contents, id)
      && a in ContentsOf(contents, id)[w] ensures Speaker(later.delegations, a) == w
    {
      assert Speaker(st.delegations, a) == w;
      VotersSpeakForThemselves(cfg, st, contents, id, w);
    }
  }

  /** A vote changes no delegation and no status. */
  lemma CastEffect(cfg: Config, st: State, c: Call)
    requires c.CastVote?
    ensures var later := Step(cfg, st, c);
      && later.delegations == st.delegations && later.proposals.Keys == st.proposals.Keys
      && forall id :: id in st.proposals ==> later.proposals[id].status == st.proposals[id].status
  {
    hide CastPower;
  }

  lemma CastKeepsSpeakers(cfg: Config, st: State, contents: Contents, c: Call)
    requires Inv(cfg, st) && !cfg.simplifiedMode && StillSpokenFor(st, contents)
    requires c.CastVote? && c.voter != "" && c.voter !in st.delegations
    ensures StillSpokenFor(Step(cfg, st, c),
                           contents[c.id := ContentsOf(contents, c.id)[c.voter := Contributors(cfg, st, c.voter)]])
  {
    var s := Contributors(cfg, st, c.voter);
    hide Inv, Contributors, Step;
    CastEffect(cfg, st, c);
    var votes, last := ContentsOf(contents, c.id), Step(cfg, st, c);
    var later := contents[c.id := votes[c.voter := s]];
    forall id, w, a | id in last.proposals && last.proposals[id].status == Voting && w in ContentsOf(later, id)
      && a in ContentsOf(later, id)[w] ensures Speaker(last.delegations, a) == w
    {
      if id == c.id && w == c.voter {
        assert a in s;
        ContributorsAreSpokenFor(cfg, st, c.voter, a);
      } else {
        assert w in ContentsOf(contents, id) && a in ContentsOf(contents, id)[w];
      }
    }
  }

  lemma CastKeepsSingle(cfg: Config, st: State, contents: Contents, c: Call)
    requires Inv(cfg, st) && !cfg.simplifiedMode && StillSpokenFor(st, contents) && NoneTwice(contents)
    requires c.CastVote? && c.voter != "" && c.voter !in st.delegations
    requires c.id in st.proposals && st.proposals[c.id].status == Voting
    ensures NoneTwice(contents[c.id := ContentsOf(contents, c.id)[c.voter := Contributors(cfg, st, c.voter)]])
  {
    var s, votes := Contributors(cfg, st, c.voter), ContentsOf(contents, c.id);
    hide Inv, Contributors;
    assert !CountedTwice(votes);
    hide CountedTwice;
    ReplacingCountsTwice(votes, c.voter, s);
    OthersOnlyFewer(votes, c.voter);
    forall w, a | w in votes && w != c.voter && a in votes[w] ensures a !in s {
      ContributorsAreSpokenFor(cfg, st, c.voter, a);
    }
    var later := contents[c.id := votes[c.voter := s]];
    forall id | id in later ensures !CountedTwice(later[id]) {
      if id == c.id {
        assert later[id] == votes[c.voter := s];
      } else {
        assert id in contents && later[id] == contents[id];
      }
    }
  }

  lemma OthersOnlyFewer(votes: map<string, set<string>>, voter: string)
    ensures CountedTwice(votes - {voter}) ==> CountedTwice(votes)
  {
    var others := votes - {voter};
    if CountedTwice(others) {
      var v, w, a :| v in others && w in others && v != w && a in others[v] && a in others[w];
      assert v in votes && w in votes && a in votes[v] && a in votes[w];
    }
  }

  lemma OtherCallsKeepSingle(cfg: Config, st: State, contents: Contents, c: Call)
    requires Inv(cfg, st) && !cfg.simplifiedMode && Kept(st, contents) && StillSpokenFor(st, contents)
    requires !c.CastVote? && !c.SetDelegation?
    ensures StillSpokenFor(Step(cfg, st, c), contents)
  {
    hide Acyclic, Inverse, TalliesMatch, TreasurySound, VotersDoNotDelegate, FromCounter, Passes, ProposalId, HasVotedInActive,
         Reaches, Speaker;
    if Guard(cfg, st, c) == None && c.CreateSimple? {
      FreshId(st, c.now);
    }
    if Guard(cfg, st, c) == None && c.CreateFull? {
      FreshId(st, c.now);
    }
  }

  /** Over every full-mode run in which nobody leaves a delegatee that has voted in a running ballot, no power is counted
      twice in any ballot. */
  lemma {:induction false} LoyalRunsCountOnce(cfg: Config, calls: seq<Call>)
    requires !cfg.simplifiedMode && LoyalRun(cfg, calls)
    ensures StillSpokenFor(Run(cfg, INITIAL, calls), ContentsAfter(cfg, calls)) && NoneTwice(ContentsAfter(cfg, calls))
  {
    hide Inv, Kept, Step, StillSpokenFor, NoneTwice, Loyal;
    if calls == [] {
      NothingCounted();
    } else {
      var before, c := calls[..|calls| - 1], calls[|calls| - 1];
      forall k | 0 <= k < |before| ensures Loyal(cfg, Run(cfg, INITIAL, before[..k]), before[k]) {
        assert before[..k] == calls[..k];
      }
      LoyalRunsCountOnce(cfg, before);
      ReachableContents(cfg, before);
      SingleStep(cfg, Run(cfg, INITIAL, before), ContentsAfter(cfg, before), c);
    }
  }

  lemma NothingCounted()
    ensures StillSpokenFor(INITIAL, map[]) && NoneTwice(map[])
  {}

  lemma CastGuards(cfg: Config, st: State, c: Call)
    requires c.CastVote? && Guard(cfg, st, c) == None
    ensures c.id in st.proposals && st.proposals[c.id].status == Voting
    ensures !cfg.simplifiedMode ==> c.voter !in st.delegations
  {}

  lemma SingleStep(cfg: Config, st: State, contents: Contents, c: Call)
    requires Inv(cfg, st) && !cfg.simplifiedMode && Kept(st, contents) && StillSpokenFor(st, contents) && NoneTwice(contents)
    requires Loyal(cfg, st, c)
    ensures StillSpokenFor(Step(cfg, st, c), Counted(cfg, st, contents, c)) && NoneTwice(Counted(cfg, st, contents, c))
  {
    hide Inv, Kept, StillSpokenFor, NoneTwice, Effect, Guard, Contributors;
    if c.CastVote? {
      if Guard(cfg, st, c) == None {
        CastGuards(cfg, st, c);
        CastKeepsSpeakers(cfg, st, contents, c);
        CastKeepsSingle(cfg, st, contents, c);
      }
    } else if c.SetDelegation? {
      DelegationKeepsSpeakers(cfg, st, contents, c);
    } else {
      OtherCallsKeepSingle(cfg, st, contents, c);
    }
  }

  /** The address is spoken for, now, by somebody who may vote and is not the voter in whose vote its power already is. */
  ghost predicate SomebodyLeft(st: State, votes: map<string, set<string>>) {
    exists w, a :: w in votes && a in votes[w] && MayVoteElsewhere(st.delegations, a, w)
  }

  predicate MayVoteElsewhere(d: Graph, a: string, w: string) {
    var x := Speaker(d, a);
    x != w && x != "" && x !in d
  }

  ghost predicate CountsTwiceNext(cfg: Config, calls: seq<Call>, c: Call)
    requires c.CastVote?
  {
    Guard(cfg, Run(cfg, INITIAL, calls), c) == None && CountedTwice(ContentsOf(ContentsAfter(cfg, calls + [c]), c.id))
  }

  function Ballot(id: string, voter: string, now: nat): Call {
    CastVote(id, voter, For, 0.0, None, now)
  }

  /** In every reachable state of full mode, while a ballot runs in which nothing is counted twice: some next vote would
      count a power twice exactly if somebody whose power is in one vote is now spoken for by somebody else who may vote,
      having withdrawn or redirected the delegation. */
  lemma {:induction false} CountsTwiceNextIff(cfg: Config, calls: seq<Call>, id: string, now: nat)
    requires !cfg.simplifiedMode && !CountedTwice(ContentsOf(ContentsAfter(cfg, calls), id))
    requires id in Run(cfg, INITIAL, calls).proposals && Run(cfg, INITIAL, calls).proposals[id].status == Voting
    requires var p := Run(cfg, INITIAL, calls).proposals[id]; p.votingStartsAt <= now <= p.votingEndsAt
    ensures (exists c: Call :: c.CastVote? && c.id == id && c.now == now && c.voter != "" && CountsTwiceNext(cfg, calls, c))
      <==> SomebodyLeft(Run(cfg, INITIAL, calls), ContentsOf(ContentsAfter(cfg, calls), id))
  {
    var st, votes := Run(cfg, INITIAL, calls), ContentsOf(ContentsAfter(cfg, calls), id);
    hide Run, ContentsAfter, CountedTwice;
    if c: Call :| c.CastVote? && c.id == id && c.now == now && c.voter != "" && CountsTwiceNext(cfg, calls, c) {
      hide Guard;
      CastGuards(cfg, st, c);
      OthersOnlyFewer(votes, c.voter);
      CastCountsTwiceIff(cfg, calls, c);
      var w, a :| w in votes && w != c.voter && a in votes[w] && GoesInto(cfg, st.delegations, c.voter, a);
      assert Speaker(st.delegations, a) == c.voter;
      assert MayVoteElsewhere(st.delegations, a, w);
    }
    if SomebodyLeft(st, votes) {
      var w, a :| w in votes && a in votes[w] && MayVoteElsewhere(st.delegations, a, w);
      var c := Ballot(id, Speaker(st.delegations, a), now);
      assert Guard(cfg, st, c) == None;
      hide Guard;
      assert GoesInto(cfg, st.delegations, c.voter, a);
      assert AddsCounted(cfg, st, votes, c.voter);
      CastCountsTwiceIff(cfg, calls, c);
      assert CountsTwiceNext(cfg, calls, c);
    }
  }
}
