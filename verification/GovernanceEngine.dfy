/** The governance engine with the state it updates in place; every method is tied to the step function. */
module GovernanceEngine {
  import opened Wrappers
  import opened Sums
  import opened Delegation
  import opened GovernanceModel
  import opened GovernanceProofs

  /** A proposal record; the engine rewrites its status, votes, totals and time stamps. */
  class ProposalRecord {
    const kind: ProposalType
    const deposit: real
    const createdAt: nat
    const votingStartsAt: nat
    const votingEndsAt: nat
    const execution: Option<Execution>
    const threshold: Option<real>
    var status: Status
    var votes: map<string, Vote>
    var passedAt: Option<nat>
    var executedAt: Option<nat>
    var totalForPower: real
    var totalAgainstPower: real

    constructor (p: Proposal)
      ensures View() == p
    {
      kind, deposit, createdAt, votingStartsAt, votingEndsAt := p.kind, p.deposit, p.createdAt, p.votingStartsAt, p.votingEndsAt;
      execution, threshold, status, votes := p.execution, p.threshold, p.status, p.votes;
      passedAt, executedAt, totalForPower, totalAgainstPower := p.passedAt, p.executedAt, p.totalForPower, p.totalAgainstPower;
    }

    function View(): Proposal
      reads this
    {
      Proposal(kind, deposit, status, votes, createdAt, votingStartsAt, votingEndsAt, execution, threshold,
               passedAt, executedAt, totalForPower, totalAgainstPower)
    }
  }

  /** What a vote answers. */
  datatype VoteReceipt = VoteReceipt(votingPower: real, rawBalance: real, capped: bool)

  /** What a tally answers. */
  datatype TallyResult = TallyResult(passed: bool, yesPower: real, noPower: real)

  class GovernanceEngine {
    const cfg: Config
    var proposals: map<string, ProposalRecord>
    var treasuryBalance: real
    var treasuryTransactions: seq<Transaction>
    var delegations: map<string, string>
    var delegationIndex: map<string, set<string>>
    var tokenBalances: map<string, real>
    var proposalCounter: nat
    /** The state on values; Valid() says that some run of calls leads to it. */
    ghost var model: State

    ghost predicate Fields()
      reads this
    {
      && delegations == model.delegations && delegationIndex == model.index && tokenBalances == model.balances
      && proposalCounter == model.counter && treasuryBalance == model.treasury && treasuryTransactions == model.ledger
    }

    ghost predicate Records()
      reads this`proposals, this`model, proposals.Values
    {
      && proposals.Keys == model.proposals.Keys
      && (forall id :: id in proposals ==> proposals[id].View() == model.proposals[id])
      && (forall i, j :: i in proposals && j in proposals && i != j ==> proposals[i] != proposals[j])
    }

    /** The records are those of the model but for one, which has become p. */
    ghost predicate RecordsBut(id: string, p: Proposal)
      reads this`proposals, this`model, proposals.Values
    {
      && proposals.Keys == model.proposals.Keys
      && (forall i :: i in proposals ==> proposals[i].View() == if i == id then p else model.proposals[i])
      && (forall i, j :: i in proposals && j in proposals && i != j ==> proposals[i] != proposals[j])
    }

    /** The treasury fields are those of st. */
    ghost predicate Paid(st: State)
      reads this`treasuryBalance, this`treasuryTransactions
    {
      treasuryBalance == st.treasury && treasuryTransactions == st.ledger
    }

    /** Moves the model on after a call that changed one record and perhaps the treasury. */
    ghost method Commit(c: Call, id: string, p: Proposal, paid: State)
      requires Reachable(cfg, model) && id in proposals && RecordsBut(id, p)
      requires paid == model.(treasury := paid.treasury, ledger := paid.ledger) && Paid(paid)
      requires delegations == model.delegations && delegationIndex == model.index
      requires tokenBalances == model.balances && proposalCounter == model.counter
      requires Step(cfg, model, c) == Updated(paid, id, p)
      modifies this`model
      ensures Valid() && model == Step(cfg, old(model), c)
    {
      hide ProposalRecord.View, Reachable, Step, Run;
      StepReachable(cfg, model, c);
      model := Updated(paid, id, p);
    }

    ghost predicate Valid()
      reads this, proposals.Values
    {
      Fields() && Records() && Reachable(cfg, model)
    }

    constructor (cfg: Config)
      ensures Valid() && this.cfg == cfg && model == INITIAL
    {
      this.cfg := cfg;
      proposals, treasuryBalance, treasuryTransactions := map[], 0.0, [];
      delegations, delegationIndex, tokenBalances, proposalCounter := map[], map[], map[], 0;
      model := INITIAL;
      InitialReachable(cfg);
    }

    method RegisterBalance(address: string, balance: real)
      requires Valid()
      modifies this
      ensures Valid() && model == Step(cfg, old(model), Call.RegisterBalance(address, balance))
    {
      hide ProposalRecord.View, Reachable;
      ghost var c := Call.RegisterBalance(address, balance);
      tokenBalances := tokenBalances[address := balance];
      StepReachable(cfg, model, c);
      model := Step(cfg, model, c);
    }

    /** The search for a cycle: following the delegatee's delegations leads to the delegator or comes to an end. */
    method LeadsTo(delegatee: string, delegator: string) returns (found: bool)
      requires Acyclic(delegations) && delegator != delegatee
      ensures found <==> Reaches(delegations, delegatee, delegator)
    {
      var current, visited := delegatee, {};
      ghost var n := 0;
      while current in delegations
        invariant visited <= delegations.Keys
        invariant StepsTo(delegations, delegatee, current, n)
        invariant forall v :: v in visited ==> MetWithin(delegations, delegatee, v, n)
        invariant forall m: nat :: m <= n ==> !StepsTo(delegations, delegatee, delegator, m)
        decreases delegations.Keys - visited
      {
        if current in visited {
          ghost var m: nat :| m < n && StepsTo(delegations, delegatee, current, m);
          WalkNeverRepeats(delegations, delegatee, current, m, n);
          assert false;
        }
        assert StepsTo(delegations, current, delegations[current], 1) by {
          assert StepsTo(delegations, delegations[current], delegations[current], 0);
        }
        StepsCompose(delegations, delegatee, current, delegations[current], n, 1);
        MetLater(delegations, delegatee, visited, current, n);
        visited := visited + {current};
        current, n := delegations[current], n + 1;
        if current == delegator {
          return true;
        }
        forall m: nat | m <= n ensures !StepsTo(delegations, delegatee, delegator, m) {
          if m == n && StepsTo(delegations, delegatee, delegator, m) {
            StepsSplit(delegations, delegatee, current, delegator, n, n);
          }
        }
      }
      forall m: nat ensures !StepsTo(delegations, delegatee, delegator, m) {
        if n < m && StepsTo(delegations, delegatee, delegator, m) {
          StepsSplit(delegations, delegatee, current, delegator, n, m);
        }
      }
      found := false;
    }

    /** Whether an address has voted in some ballot that is running. */
    method HasActiveVote(address: string) returns (found: bool)
      requires Records()
      ensures found <==> HasVotedInActive(model.proposals, address)
    {
      var rest := proposals.Keys;
      while rest != {}
        invariant rest <= proposals.Keys
        invariant forall id :: id in proposals && id !in rest ==>
          !(model.proposals[id].status == Voting && address in model.proposals[id].votes)
      {
        var id :| id in rest;
        var proposal := proposals[id];
        assert proposal.View() == model.proposals[id];
        if proposal.status == Voting && address in proposal.votes {
          return true;
        }
        rest := rest - {id};
      }
      found := false;
    }

    /** Moves the model on after a change of the delegation maps. */
    ghost method CommitDelegations(c: Call, d: Graph, index: Index)
      requires Reachable(cfg, model) && Records() && delegations == d && delegationIndex == index
      requires tokenBalances == model.balances && proposalCounter == model.counter
      requires treasuryBalance == model.treasury && treasuryTransactions == model.ledger
      requires Step(cfg, model, c) == model.(delegations := d, index := index)
      modifies this`model
      ensures Valid() && model == Step(cfg, old(model), c)
    {
      hide ProposalRecord.View, Reachable, Step;
      StepReachable(cfg, model, c);
      model := model.(delegations := d, index := index);
    }

    /** Takes a delegator off the list of its delegatee. */
    method RemoveListing(delegator: string)
      modifies this`delegationIndex
      ensures delegationIndex == Unlist(delegations, old(delegationIndex), delegator)
    {
      if delegator in delegations && delegations[delegator] != "" {
        var existing := delegations[delegator];
        if existing in delegationIndex {
          delegationIndex := delegationIndex[existing := delegationIndex[existing] - {delegator}];
        }
      }
    }

    method AddListing(delegator: string, delegatee: string)
      modifies this`delegationIndex
      ensures delegationIndex == Enlist(old(delegationIndex), delegator, delegatee)
    {
      if delegatee !in delegationIndex {
        delegationIndex := delegationIndex[delegatee := {}];
      }
      delegationIndex := delegationIndex[delegatee := delegationIndex[delegatee] + {delegator}];
    }

    /** setDelegation with null: removes the delegation on record. */
    method RemoveDelegation(delegator: string)
      requires Valid()
      modifies this`model, this`delegations, this`delegationIndex
      ensures Valid() && model == Step(cfg, old(model), Call.SetDelegation(delegator, None))
    {
      hide ProposalRecord.View, Reachable, Unlist;
      if delegator in delegations && delegations[delegator] != "" {
        RemoveListing(delegator);
        delegations := delegations - {delegator};
      }
      CommitDelegations(Call.SetDelegation(delegator, None), delegations, delegationIndex);
    }

    method SetDelegation(delegator: string, delegatee: Option<string>) returns (r: Option<Error>)
      requires Valid()
      modifies this`model, this`delegations, this`delegationIndex
      ensures Valid() && model == Step(cfg, old(model), Call.SetDelegation(delegator, delegatee))
      ensures r == Guard(cfg, old(model), Call.SetDelegation(delegator, delegatee))
    {
      hide ProposalRecord.View, Reachable, Acyclic, Reaches, HasVotedInActive, Unlist, Enlist;
      if delegatee.None? {
        RemoveDelegation(delegator);
        return None;
      }
      var to := delegatee.value;
      if delegator == to {
        return Some(CannotDelegateToSelf);
      }
      AcyclicReachable(cfg, model);
      var circular := LeadsTo(to, delegator);
      if circular {
        return Some(CircularDelegation);
      }
      var voted := HasActiveVote(delegator);
      if voted {
        return Some(AlreadyVoted);
      }
      RemoveListing(delegator);
      delegations := delegations[delegator := to];
      AddListing(delegator, to);
      CommitDelegations(Call.SetDelegation(delegator, delegatee), delegations, delegationIndex);
      r := None;
    }

    /** Puts a new record beside the others. */
    method AddRecord(id: string, p: Proposal)
      requires Records() && id !in proposals
      modifies this`proposals
      ensures proposals.Keys == model.proposals.Keys + {id}
      ensures forall i :: i in proposals ==> proposals[i].View() == if i == id then p else model.proposals[i]
      ensures forall i, j :: i in proposals && j in proposals && i != j ==> proposals[i] != proposals[j]
      ensures forall v :: v in proposals.Values ==> v in old(proposals.Values) || fresh(v)
    {
      hide ProposalRecord.View;
      ghost var was := proposals;
      var proposal := new ProposalRecord(p);
      proposals := proposals[id := proposal];
      forall v | v in proposals.Values ensures v in was.Values || fresh(v) {
        var k :| k in proposals && proposals[k] == v;
        assert k != id ==> was[k] in was.Values;
      }
    }

    /** Puts a new proposal under a fresh id. */
    method AddProposal(p: Proposal, now: nat, ghost c: Call) returns (id: string)
      requires Valid() && Guard(cfg, model, c) == None && Effect(cfg, model, c) == Created(model, p, now)
      modifies this
      ensures Valid() && model == Step(cfg, old(model), c)
      ensures id == ProposalId(old(model).counter + 1, now) && id !in old(model).proposals && model.proposals[id] == p
    {
      hide ProposalRecord.View, Reachable, Effect, Guard, Step, ProposalId, Records;
      FreshInReachable(cfg, model, now);
      RecordedIds();
      proposalCounter := proposalCounter + 1;
      id := ProposalId(proposalCounter, now);
      AddRecord(id, p);
      CommitNew(c, id, p, now);
    }

    lemma RecordedIds()
      requires Records()
      ensures proposals.Keys == model.proposals.Keys
    {}

    /** Moves the model on after a proposal has joined the others. */
    ghost method CommitNew(c: Call, id: string, p: Proposal, now: nat)
      requires Reachable(cfg, model) && Guard(cfg, model, c) == None && Effect(cfg, model, c) == Created(model, p, now)
      requires id == ProposalId(model.counter + 1, now) && proposalCounter == model.counter + 1
      requires proposals.Keys == model.proposals.Keys + {id}
      requires forall i :: i in proposals ==> proposals[i].View() == if i == id then p else model.proposals[i]
      requires forall i, j :: i in proposals && j in proposals && i != j ==> proposals[i] != proposals[j]
      requires delegations == model.delegations && delegationIndex == model.index && tokenBalances == model.balances
      requires treasuryBalance == model.treasury && treasuryTransactions == model.ledger
      modifies this`model
      ensures Valid() && model == Step(cfg, old(model), c) && model.proposals == old(model).proposals[id := p]
    {
      hide ProposalRecord.View, Reachable, Effect, Guard;
      StepReachable(cfg, model, c);
      model := Created(model, p, now);
    }

    /** createProposal in its object form. */
    method CreateSimple(deposit: real, threshold: Option<real>, now: nat) returns (r: Result<string, Error>)
      requires Valid()
      modifies this
      ensures Valid() && model == Step(cfg, old(model), Call.CreateSimple(deposit, threshold, now))
      ensures r == if deposit < cfg.minDeposit then Err(InsufficientDeposit) else Ok(ProposalId(old(model).counter + 1, now))
    {
      if deposit < cfg.minDeposit {
        return Err(InsufficientDeposit);
      }
      var p := NewProposal(cfg, Standard, deposit, None, threshold, now);
      var id := AddProposal(p, now, Call.CreateSimple(deposit, threshold, now));
      r := Ok(id);
    }

    /** createProposal in its positional form. */
    method CreateFull(kind: ProposalType, deposit: real, execution: Option<Execution>, now: nat) returns (r: Result<string, Error>)
      requires Valid()
      modifies this
      ensures Valid() && model == Step(cfg, old(model), Call.CreateFull(kind, deposit, execution, now))
      ensures r == if deposit < 1000.0 then Err(InsufficientDeposit) else Ok(ProposalId(old(model).counter + 1, now))
    {
      if deposit < 1000.0 {
        return Err(InsufficientDeposit);
      }
      var p := NewProposal(cfg, kind, deposit, execution, None, now);
      var id := AddProposal(p, now, Call.CreateFull(kind, deposit, execution, now));
      r := Ok(id);
    }

    method StartVoting(proposalId: string, now: nat) returns (r: Option<Error>)
      requires Valid()
      modifies this`model, proposals.Values
      ensures Valid() && model == Step(cfg, old(model), Call.StartVoting(proposalId, now))
      ensures r == Guard(cfg, old(model), Call.StartVoting(proposalId, now))
    {
      hide Reachable;
      ghost var c := Call.StartVoting(proposalId, now);
      if proposalId !in proposals {
        return Some(ProposalNotFound);
      }
      var proposal := proposals[proposalId];
      assert proposal.View() == model.proposals[proposalId];
      if proposal.status != Discussion {
        return Some(WrongStatus);
      }
      if !cfg.simplifiedMode {
        if now < proposal.votingStartsAt {
          return Some(TooEarly);
        }
      }
      proposal.status := Voting;
      Commit(c, proposalId, model.proposals[proposalId].(status := Voting), model);
      r := None;
    }

    /** The power of a vote, with the loop over the voter's delegators. */
    method ComputePower(voterId: string, tokenBalance: real, totalVotingPower: Option<real>)
      returns (power: real, capped: bool)
      requires Fields()
      ensures capped <==> EffectiveBalance(cfg, tokenBalance, totalVotingPower) != tokenBalance
      ensures power == CastPower(cfg, model, voterId, tokenBalance, totalVotingPower)
    {
      var effectiveBalance := tokenBalance;
      capped := false;
      if totalVotingPower.Some? && cfg.antiWhaleCap > 0.0 {
        var maxBalance := totalVotingPower.value * cfg.antiWhaleCap;
        if effectiveBalance > maxBalance {
          effectiveBalance := maxBalance;
          capped := true;
        }
      }
      assert effectiveBalance == EffectiveBalance(cfg, tokenBalance, totalVotingPower);
      if cfg.simplifiedMode && cfg.quadraticVoting {
        power := cfg.root(effectiveBalance);
        return;
      }
      ghost var f := DelegatorPower(cfg, tokenBalances);
      assert SumOver({}, f) == 0.0;
      var own := VotingPower(cfg, effectiveBalance);
      power := own;
      if voterId in delegationIndex {
        var delegators := delegationIndex[voterId];
        var rest := delegators;
        while rest != {}
          invariant rest <= delegators && power == own + SumOver(delegators - rest, f)
        {
          var delegator :| delegator in rest;
          var delegatorBalance := if delegator in tokenBalances then tokenBalances[delegator] else 0.0;
          power := power + VotingPower(cfg, delegatorBalance);
          SumInsert(delegators - rest, f, delegator);
          assert delegators - (rest - {delegator}) == delegators - rest + {delegator};
          rest := rest - {delegator};
        }
        assert delegators - rest == delegators == Delegators(model.index, voterId);
      }
    }

    /** Takes the voter's earlier vote out of the totals and records the new one. */
    method RecordVote(proposal: ProposalRecord, voterId: string, vote: Vote)
      modifies proposal
      ensures proposal.View() == WithVote(old(proposal.View()), voterId, vote)
    {
      if voterId in proposal.votes {
        var existingVote := proposal.votes[voterId];
        if existingVote.direction == For {
          proposal.totalForPower := proposal.totalForPower - existingVote.power;
        } else {
          proposal.totalAgainstPower := proposal.totalAgainstPower - existingVote.power;
        }
      }
      proposal.votes := proposal.votes[voterId := vote];
      if vote.direction == For {
        proposal.totalForPower := proposal.totalForPower + vote.power;
      } else {
        proposal.totalAgainstPower := proposal.totalAgainstPower + vote.power;
      }
    }

    method CastVote(proposalId: string, voterId: string, direction: Direction, tokenBalance: real,
                    totalVotingPower: Option<real>, now: nat) returns (r: Result<VoteReceipt, Error>)
      requires Valid()
      modifies this`model, proposals.Values
      ensures Valid() && model == Step(cfg, old(model), Call.CastVote(proposalId, voterId, direction, tokenBalance, totalVotingPower, now))
      ensures var guard := Guard(cfg, old(model), Call.CastVote(proposalId, voterId, direction, tokenBalance, totalVotingPower, now));
        r == if guard.Some? then Err(guard.value)
             else Ok(VoteReceipt(CastPower(cfg, old(model), voterId, tokenBalance, totalVotingPower), tokenBalance,
                                 EffectiveBalance(cfg, tokenBalance, totalVotingPower) != tokenBalance))
    {
      hide Reachable, CastPower, WithVote;
      ghost var c := Call.CastVote(proposalId, voterId, direction, tokenBalance, totalVotingPower, now);
      if proposalId !in proposals {
        return Err(ProposalNotFound);
      }
      var proposal := proposals[proposalId];
      assert proposal.View() == model.proposals[proposalId];
      if proposal.status != Voting {
        return Err(WrongStatus);
      }
      if !cfg.simplifiedMode {
        if now > proposal.votingEndsAt {
          return Err(VotingEnded);
        }
        if now < proposal.votingStartsAt {
          return Err(TooEarly);
        }
        if voterId in delegations {
          return Err(VoterHasDelegated);
        }
      }
      var power, capped := ComputePower(voterId, tokenBalance, totalVotingPower);
      RecordVote(proposal, voterId, Vote(power, direction, now, tokenBalance));
      Commit(c, proposalId, WithVote(model.proposals[proposalId], voterId, Vote(power, direction, now, tokenBalance)), model);
      r := Ok(VoteReceipt(power, tokenBalance, capped));
    }

    method Decide(proposal: ProposalRecord) returns (passed: bool)
      ensures passed == Passes(cfg, proposal.View())
    {
      var yesPower, noPower := proposal.totalForPower, proposal.totalAgainstPower;
      var totalCast := yesPower + noPower;
      var threshold := if proposal.threshold.Some? then proposal.threshold.value else cfg.standardThreshold / 100.0;
      passed := totalCast > 0.0 && yesPower / totalCast >= threshold;
    }

    /** Answers the outcome and the recorded powers by direction. */
    method TallyVotes(proposalId: string, now: nat) returns (r: Result<TallyResult, Error>)
      requires Valid()
      modifies this`model, proposals.Values
      ensures Valid() && model == Step(cfg, old(model), Call.TallyVotes(proposalId, now))
      ensures var guard := Guard(cfg, old(model), Call.TallyVotes(proposalId, now));
        if guard.Some? then r == Err(guard.value) else
          var p := old(model).proposals[proposalId];
          r == Ok(TallyResult(CarriesBallot(cfg, p), RecordedPower(p, For), RecordedPower(p, Against)))
    {
      hide Reachable, Passes, RecordedPower, CarriesBallot;
      ghost var c := Call.TallyVotes(proposalId, now);
      if proposalId !in proposals {
        return Err(ProposalNotFound);
      }
      var proposal := proposals[proposalId];
      assert proposal.View() == model.proposals[proposalId];
      if proposal.status != Voting {
        return Err(WrongStatus);
      }
      if !cfg.simplifiedMode {
        if now < proposal.votingEndsAt {
          return Err(TooEarly);
        }
      }
      var yesPower, noPower := proposal.totalForPower, proposal.totalAgainstPower;
      ReachableTallies(cfg, model, proposalId);
      var passed := Decide(proposal);
      if passed {
        proposal.status := Passed;
        proposal.passedAt := Some(now);
      } else {
        proposal.status := Rejected;
      }
      TallyEffect(cfg, model, proposalId, now);
      Commit(c, proposalId, Tallied(cfg, model.proposals[proposalId], now), model);
      r := Ok(TallyResult(passed, yesPower, noPower));
    }

    /** The guards and the two updates of recordSpend; done is the call on whose behalf it runs. */
    method Pay(proposalId: string, amount: real, recipient: string) returns (r: Option<Error>)
      requires Fields() && Records()
      modifies this`treasuryBalance, this`treasuryTransactions
      ensures r == SpendGuard(model, proposalId, amount)
      ensures r == None ==> Paid(Spend(model, proposalId, amount, recipient))
      ensures r != None ==> Fields()
    {
      if amount <= 0.0 {
        return Some(NotPositive);
      }
      if amount > treasuryBalance {
        return Some(InsufficientTreasury);
      }
      assert proposalId in proposals ==> proposals[proposalId].View() == model.proposals[proposalId];
      if proposalId !in proposals || proposals[proposalId].kind != TreasurySpend {
        return Some(NotATreasurySpend);
      }
      treasuryBalance := treasuryBalance - amount;
      treasuryTransactions := treasuryTransactions + [Spent(amount, proposalId, recipient)];
      r := None;
    }

    /** The treasury part of executing a proposal. */
    method PayForExecution(proposalId: string, proposal: ProposalRecord) returns (r: Option<Error>)
      requires Fields() && Records() && proposalId in proposals && proposals[proposalId] == proposal
      modifies this`treasuryBalance, this`treasuryTransactions
      ensures var p := model.proposals[proposalId];
        if WantsSpend(p) then
          && r == SpendGuard(model, proposalId, p.execution.value.amount)
          && (r.Some? ==> Fields())
          && (r.None? ==> Paid(Spend(model, proposalId, p.execution.value.amount, p.execution.value.recipient)))
        else r == None && Fields()
    {
      assert proposal.View() == model.proposals[proposalId];
      r := None;
      if proposal.kind == TreasurySpend && proposal.execution.Some? {
        var amount, recipient := proposal.execution.value.amount, proposal.execution.value.recipient;
        if amount != 0.0 && recipient != "" {
          r := Pay(proposalId, amount, recipient);
        }
      }
    }

    method ExecuteProposal(proposalId: string, now: nat) returns (r: Option<Error>)
      requires Valid()
      modifies this`model, this`treasuryBalance, this`treasuryTransactions, proposals.Values
      ensures Valid() && model == Step(cfg, old(model), Call.ExecuteProposal(proposalId, now))
      ensures r == Guard(cfg, old(model), Call.ExecuteProposal(proposalId, now))
    {
      hide Reachable, Effect;
      ghost var c := Call.ExecuteProposal(proposalId, now);
      if proposalId !in proposals {
        return Some(ProposalNotFound);
      }
      var proposal := proposals[proposalId];
      assert proposal.View() == model.proposals[proposalId];
      if proposal.status != Passed || proposal.passedAt.None? {
        return Some(WrongStatus);
      }
      if now < proposal.passedAt.value + cfg.timelockMs {
        return Some(TooEarly);
      }
      r := PayForExecution(proposalId, proposal);
      if r.Some? {
        return;
      }
      ExecutionEffect(cfg, model, proposalId, now);
      MarkExecuted(proposalId, proposal, now, SpentBy(model, proposalId));
    }

    /** The last two assignments of executeProposal. */
    method MarkExecuted(proposalId: string, proposal: ProposalRecord, now: nat, ghost paid: State)
      requires Records() && proposalId in proposals && proposals[proposalId] == proposal && Reachable(cfg, model)
      requires paid == model.(treasury := paid.treasury, ledger := paid.ledger) && Paid(paid)
      requires delegations == model.delegations && delegationIndex == model.index
      requires tokenBalances == model.balances && proposalCounter == model.counter
      requires Step(cfg, model, Call.ExecuteProposal(proposalId, now))
        == Updated(paid, proposalId, model.proposals[proposalId].(status := Executed, executedAt := Some(now)))
      modifies this`model, proposal
      ensures Valid() && model == Step(cfg, old(model), Call.ExecuteProposal(proposalId, now))
    {
      hide Reachable, Step;
      ghost var p := model.proposals[proposalId];
      assert proposal.View() == p;
      proposal.status := Executed;
      proposal.executedAt := Some(now);
      Commit(Call.ExecuteProposal(proposalId, now), proposalId, p.(status := Executed, executedAt := Some(now)), paid);
    }

    method RecordDeposit(amount: real) returns (r: Option<Error>)
      requires Valid()
      modifies this`model, this`treasuryBalance, this`treasuryTransactions
      ensures Valid() && model == Step(cfg, old(model), Call.RecordDeposit(amount))
      ensures r == Guard(cfg, old(model), Call.RecordDeposit(amount))
    {
      hide ProposalRecord.View, Reachable;
      ghost var c := Call.RecordDeposit(amount);
      if amount <= 0.0 {
        return Some(NotPositive);
      }
      treasuryBalance := treasuryBalance + amount;
      treasuryTransactions := treasuryTransactions + [Deposited(amount)];
      CommitTreasury(c);
      r := None;
    }

    method RecordSpend(proposalId: string, amount: real, recipient: string) returns (r: Option<Error>)
      requires Valid()
      modifies this`model, this`treasuryBalance, this`treasuryTransactions
      ensures Valid() && model == Step(cfg, old(model), Call.RecordSpend(proposalId, amount, recipient))
      ensures r == Guard(cfg, old(model), Call.RecordSpend(proposalId, amount, recipient))
    {
      hide ProposalRecord.View, Reachable;
      ghost var c := Call.RecordSpend(proposalId, amount, recipient);
      r := Pay(proposalId, amount, recipient);
      CommitTreasury(c);
    }

    /** Moves the model on after a call that changed nothing but the treasury. */
    ghost method CommitTreasury(c: Call)
      requires Reachable(cfg, model) && Records()
      requires delegations == model.delegations && delegationIndex == model.index
      requires tokenBalances == model.balances && proposalCounter == model.counter
      requires Step(cfg, model, c) == model.(treasury := treasuryBalance, ledger := treasuryTransactions)
      modifies this`model
      ensures Valid() && model == Step(cfg, old(model), c)
    {
      hide ProposalRecord.View, Reachable, Step;
      StepReachable(cfg, model, c);
      model := model.(treasury := treasuryBalance, ledger := treasuryTransactions);
    }
  }
}
