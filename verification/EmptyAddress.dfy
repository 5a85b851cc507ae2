/** Delegations to the empty address, which the code takes for none: who stays on its list. */
module EmptyAddress {
  import opened Wrappers
  import opened Delegation
  import opened GovernanceModel
  import opened GovernanceProofs

  /** Everybody who has ever delegated to the empty address. */
  ghost function EverEmpty(cfg: Config, calls: seq<Call>): set<string> {
    if calls == [] then {} else
      var before, c := calls[..|calls| - 1], calls[|calls| - 1];
      EverEmpty(cfg, before)
      + if c.SetDelegation? && c.delegatee == Some("") && Guard(cfg, Run(cfg, INITIAL, before), c) == None then {c.delegator} else {}
  }

  lemma StepListsEmpty(cfg: Config, st: State, c: Call)
    ensures Delegators(Step(cfg, st, c).index, "")
      == Delegators(st.index, "")
         + if c.SetDelegation? && c.delegatee == Some("") && Guard(cfg, st, c) == None then {c.delegator} else {}
  {
    hide Reaches, HasVotedInActive, CastPower, Passes, ProposalId;
  }

  /** Over every run: once listed under the empty address, always listed there. */
  lemma {:induction false} EmptyListKeepsEveryone(cfg: Config, calls: seq<Call>)
    ensures Delegators(Run(cfg, INITIAL, calls).index, "") == EverEmpty(cfg, calls)
  {
    hide Step, Guard;
    if calls != [] {
      var before := calls[..|calls| - 1];
      EmptyListKeepsEveryone(cfg, before);
      StepListsEmpty(cfg, Run(cfg, INITIAL, before), calls[|calls| - 1]);
    }
  }

  lemma {:induction false} ReachableInverse(cfg: Config, calls: seq<Call>)
    ensures Inverse(Run(cfg, INITIAL, calls).delegations, Run(cfg, INITIAL, calls).index)
  {
    hide Run, Inverse, Acyclic, ProposalsSound, VotersDoNotDelegate, TreasurySound;
    ReachableIsSound(cfg, calls);
  }

  /** After every run the index is the exact inverse of the delegations if and only if everybody who has ever delegated to
      the empty address does so still. */
  lemma {:induction false} IndexIsExactIff(cfg: Config, calls: seq<Call>)
    ensures var st := Run(cfg, INITIAL, calls);
      ExactInverse(st.delegations, st.index)
      <==> forall a :: a in EverEmpty(cfg, calls) ==> a in st.delegations && st.delegations[a] == ""
  {
    hide Run, EverEmpty;
    var st := Run(cfg, INITIAL, calls);
    EmptyListKeepsEveryone(cfg, calls);
    ReachableInverse(cfg, calls);
    if forall a :: a in EverEmpty(cfg, calls) ==> a in st.delegations && st.delegations[a] == "" {
      forall a, b ensures a in Delegators(st.index, b) <==> a in st.delegations && st.delegations[a] == b {}
    }
  }

  lemma DelegationPasses(cfg: Config, st: State, a: string, b: string)
    requires st.proposals == map[] && a != b && b !in st.delegations
    ensures Guard(cfg, st, SetDelegation(a, Some(b))) == None
    ensures Step(cfg, st, SetDelegation(a, Some(b))).delegations == st.delegations[a := b]
    ensures Step(cfg, st, SetDelegation(a, Some(b))).proposals == map[]
  {
    NoWayTo(st.delegations, b, a);
    hide Reaches, Unlist, Enlist;
  }

  /** d delegates to the empty address and then to x. */
  function StaleRun(): seq<Call> {
    [SetDelegation("d", Some(""))] + [SetDelegation("d", Some("x"))]
  }

  /** In every configuration this run leaves d on the list of the empty address although d delegates to x. */
  lemma {:induction false} StaleEntry(cfg: Config)
    ensures var st := Run(cfg, INITIAL, StaleRun());
      && "d" in Delegators(st.index, "") && st.delegations == map["d" := "x"] && !ExactInverse(st.delegations, st.index)
  {
    hide Step, Guard, ExactInverse;
    var c1, c2 := SetDelegation("d", Some("")), SetDelegation("d", Some("x"));
    var one := [c1];
    assert StaleRun()[..1] == one && one[..0] == [];
    assert "d"[0] != "x"[0];
    assert Run(cfg, INITIAL, one) == Step(cfg, INITIAL, c1);
    DelegationPasses(cfg, INITIAL, "d", "");
    DelegationPasses(cfg, Step(cfg, INITIAL, c1), "d", "x");
    assert "d" in EverEmpty(cfg, one);
    assert "d" in EverEmpty(cfg, StaleRun());
    EmptyListKeepsEveryone(cfg, StaleRun());
    IndexIsExactIff(cfg, StaleRun());
  }

  /** In every configuration a delegation to the empty address, once made, is not removed. */
  lemma {:induction false} EmptyDelegationStays(cfg: Config)
    ensures "d" in Run(cfg, INITIAL, [SetDelegation("d", Some("")), SetDelegation("d", None)]).delegations
  {
    hide Step, Guard;
    var c := SetDelegation("d", Some(""));
    assert [c][..0] == [] && [c] + [SetDelegation("d", None)] == [c, SetDelegation("d", None)];
    assert Run(cfg, INITIAL, [c]) == Step(cfg, INITIAL, c);
    DelegationPasses(cfg, INITIAL, "d", "");
    RemovalRemoves(cfg, [c], "d");
  }
}
