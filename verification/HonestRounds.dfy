/** What honest workers, rather than accepted gradients, guarantee from collection through aggregation. */
module HonestRounds {
  import opened Sums
  import opened Vectors
  import opened Statistics
  import opened Aggregation
  import opened Collection
  import opened Coordinator

  /** The workers that report in a round. */
  function Reporting(order: seq<string>, live: set<string>): set<string> {
    set id | id in order && id in live
  }

  /** Those of them that send more than h. */
  function Dishonest(order: seq<string>, live: set<string>, local: string -> seq<real>, h: real, root: real -> real): set<string> {
    set id | id in order && id in live && h < Norm(local(id), root)
  }

  /** Who reports what in a round. */
  datatype Sent = Sent(live: set<string>, local: string -> seq<real>)

  /** The norms on record in a job after some rounds; a fresh job has none. */
  function AfterRounds(order: seq<string>, rounds: seq<Sent>, root: real -> real): (recorded: map<string, real>)
    ensures forall id :: id in order ==> id in recorded
  {
    if rounds == [] then map id | id in order :: 0.0 else
      var last := rounds[|rounds| - 1];
      CollectFrom(order, last.live, last.local, AfterRounds(order, rounds[..|rounds| - 1], root), root, |order|).recorded
  }

  /** If a round hands over as many gradients as aggregation asks for, their robust mean is within the bound. */
  ghost predicate Keeps(order: seq<string>, live: set<string>, local: string -> seq<real>, recorded: map<string, real>,
                        minWorkers: nat, bound: real, root: real -> real)
    requires forall id :: id in order ==> id in recorded
  {
    var round := CollectFrom(order, live, local, recorded, root, |order|);
    && Recorded(round.accepted, round.recorded)
    && var gs := Outcome(round, minWorkers, root);
       && Recorded(gs, round.recorded)
       && (gs != [] && minWorkers <= |gs| ==> Within(RobustMean(gs, round.recorded, root), bound))
  }

  /** Whatever earlier rounds were like: at most b dishonest reporters, a strict minority, do not move the mean of a round
      beyond the bound. */
  ghost predicate Withstands(b: nat, minWorkers: nat, h: real, bound: real, root: real -> real) {
    forall order, rounds, live, local |
      NoRepeats(order) && |Dishonest(order, live, local, h, root)| <= b
      && 2 * |Dishonest(order, live, local, h, root)| < |Reporting(order, live)| ::
      Keeps(order, live, local, AfterRounds(order, rounds, root), minWorkers, bound, root)
  }

  /** The ids of the entries whose norm is beyond h. */
  function Beyond(gs: seq<Contribution>, h: real, root: real -> real): set<string> {
    set c | c in gs && h < Norm(c.gradient, root) :: c.id
  }

  lemma BeyondMore(gs: seq<Contribution>, c: Contribution, h: real, root: real -> real)
    requires forall d :: d in gs ==> d.id != c.id
    ensures |Beyond(gs + [c], h, root)| == |Beyond(gs, h, root)| + if h < Norm(c.gradient, root) then 1 else 0
  {
    hide Norm;
    assert Beyond(gs + [c], h, root) == Beyond(gs, h, root) + if h < Norm(c.gradient, root) then {c.id} else {};
  }

  lemma {:induction false} CountHonest(gs: seq<Contribution>, h: real, root: real -> real)
    requires IsSqrt(root) && DistinctIds(gs)
    ensures |gs| == CountIn(Norms(gs, root), 0.0, h) + |Beyond(gs, h, root)|
  {
    hide IsSqrt, Norm, Beyond;
    if gs == [] {
      NobodyBeyond(h, root);
    } else {
      var init, last := gs[..|gs| - 1], gs[|gs| - 1];
      CountHonest(init, h, root);
      NormSquared(last.gradient, root);
      assert Norms(gs, root)[..|gs| - 1] == Norms(init, root);
      assert gs == init + [last];
      BeyondMore(init, last, h, root);
    }
  }

  lemma NobodyBeyond(h: real, root: real -> real)
    ensures Beyond([], h, root) == {}
  {}

  /** The dishonest entries a round hands over come from its dishonest reporters. */
  lemma BeyondAreDishonest(order: seq<string>, live: set<string>, local: string -> seq<real>, recorded: map<string, real>,
                           minWorkers: nat, h: real, root: real -> real)
    requires IsSqrt(root) && NoRepeats(order) && forall id :: id in order ==> id in recorded
    ensures var round := CollectFrom(order, live, local, recorded, root, |order|);
      && Recorded(round.accepted, round.recorded)
      && var gs := Outcome(round, minWorkers, root);
         && DistinctIds(gs) && NormsFromCollection(gs, round.recorded, root)
         && |Beyond(gs, h, root)| <= |Dishonest(order, live, local, h, root)|
  {
    hide IsSqrt, CollectFrom, Norm, WithoutOutliers;
    var round := CollectFrom(order, live, local, recorded, root, |order|);
    CollectRecords(order, live, local, recorded, root, |order|);
    OutcomeIsSound(order, live, local, recorded, root, minWorkers);
    OutcomeIsAccepted(round.accepted, round.recorded, round.norms, root);
    var gs := Outcome(round, minWorkers, root);
    assert order[..|order|] == order;
    assert Beyond(gs, h, root) <= Dishonest(order, live, local, h, root);
    SubsetSize(Beyond(gs, h, root), Dishonest(order, live, local, h, root));
  }

  /** A condition that is known before the round: if fewer than half of the gradients that aggregation asks for come from
      dishonest reporters, the aggregate stays within 3h at every compression level, whatever those send and whatever is
      on record. */
  lemma {:induction false} FewDishonestWithinTriple(order: seq<string>, live: set<string>, local: string -> seq<real>,
                                                    recorded: map<string, real>, root: real -> real, minWorkers: nat, h: real)
    requires IsSqrt(root) && NoRepeats(order) && forall id :: id in order ==> id in recorded
    requires 2 * |Dishonest(order, live, local, h, root)| < minWorkers
    ensures Keeps(order, live, local, recorded, minWorkers, 3.0 * h, root)
    ensures var round := CollectFrom(order, live, local, recorded, root, |order|);
      var gs := Outcome(round, minWorkers, root);
      forall level, r :: minWorkers <= |gs| && Aggregates(gs, round.recorded, level, root, r) ==> Within(r.aggregatedGradient, 3.0 * h)
  {
    hide IsSqrt, CollectFrom, Norm, Outcome, RobustMean, Within, Beyond, Dishonest, DistinctIds, Aggregates, CountIn;
    BeyondAreDishonest(order, live, local, recorded, minWorkers, h, root);
    var round := CollectFrom(order, live, local, recorded, root, |order|);
    var gs := Outcome(round, minWorkers, root);
    CountHonest(gs, h, root);
    if minWorkers <= |gs| {
      ByzantineBound(gs, round.recorded, h, root);
      forall level, r | Aggregates(gs, round.recorded, level, root, r) ensures Within(r.aggregatedGradient, 3.0 * h) {
        AggregateWithinTriple(gs, round.recorded, level, root, r, h);
      }
    }
  }

  /** The norms known when worker k is judged: its own just recorded, those before it, and what earlier rounds left. */
  function KnownAt(order: seq<string>, live: set<string>, local: string -> seq<real>,
                   recorded: map<string, real>, root: real -> real, k: nat): seq<real>
    requires k < |order| && forall id :: id in order ==> id in recorded
  {
    PositiveNorms(order, CollectFrom(order, live, local, recorded, root, k).recorded[order[k] := Norm(local(order[k]), root)])
  }

  /** At every turn of a live worker a strict majority of the known norms is at most h. */
  ghost predicate HonestTurns(order: seq<string>, live: set<string>, local: string -> seq<real>,
                              recorded: map<string, real>, root: real -> real, h: real)
    requires forall id :: id in order ==> id in recorded
  {
    forall k :: 0 <= k < |order| && order[k] in live ==>
      var known := KnownAt(order, live, local, recorded, root, k);
      known == [] || |known| < 2 * CountIn(known, 0.0, h)
  }

  ghost predicate AllWithin(gs: seq<Contribution>, r: real, root: real -> real) {
    forall c :: c in gs ==> Norm(c.gradient, root) <= r
  }

  lemma {:induction false} PositiveNormsOf(order: seq<string>, recorded: map<string, real>, i: nat)
    requires (forall id :: id in order ==> id in recorded) && i < |order| && recorded[order[i]] > 0.0
    ensures PositiveNorms(order, recorded) != []
  {
    var init := order[..|order| - 1];
    if i < |init| {
      PositiveNormsOf(init, recorded, i);
    }
  }

  lemma {:induction false} AcceptedWithinTriple(order: seq<string>, live: set<string>, local: string -> seq<real>,
                                                recorded: map<string, real>, root: real -> real, h: real, k: nat)
    requires IsSqrt(root) && 0.0 <= h && k <= |order| && forall id :: id in order ==> id in recorded
    requires HonestTurns(order, live, local, recorded, root, h)
    ensures AllWithin(CollectFrom(order, live, local, recorded, root, k).accepted, 3.0 * h, root)
  {
    hide Norm, IsSqrt, CountIn, Median, PositiveNorms;
    if k > 0 {
      AcceptedWithinTriple(order, live, local, recorded, root, h, k - 1);
      var id := order[k - 1];
      if id in live {
        var known := KnownAt(order, live, local, recorded, root, k - 1);
        var norm := Norm(local(id), root);
        if known == [] {
          if norm > 0.0 {
            PositiveNormsOf(order, CollectFrom(order, live, local, recorded, root, k - 1).recorded[id := norm], k - 1);
            assert false;
          }
        } else {
          MedianInMajority(known, 0.0, h);
        }
      }
    }
  }

  lemma {:induction false} OutcomeIsAccepted(gs: seq<Contribution>, recorded: map<string, real>, norms: seq<real>, root: real -> real)
    requires Recorded(gs, recorded)
    ensures forall c :: c in WithoutOutliers(gs, recorded, norms, root) ==> c in gs
  {
    hide IsOutlier;
    if gs != [] {
      assert gs[|gs| - 1] in gs;
      OutcomeIsAccepted(gs[..|gs| - 1], recorded, norms, root);
    }
  }

  lemma {:induction false} MeanOfWithin(gs: seq<Contribution>, recorded: map<string, real>, r: real, root: real -> real)
    requires IsSqrt(root) && 0.0 <= r && gs != [] && Recorded(gs, recorded) && AllWithin(gs, r, root)
    ensures Within(RobustMean(gs, recorded, root), r)
  {
    hide Norm, IsSqrt, Cut, NormSq;
    var kept := Survivors(gs, recorded, Cut(gs, root));
    SurvivorsPass(gs, recorded, Cut(gs, root));
    MeanNorm(kept, |gs[0].gradient|, r, root);
    CoordinatesWithinNorm(RobustMean(gs, recorded, root), r);
  }

  /** Another sufficient condition, on the course of the round and for any number of gradients handed over: if at every
      turn of collection a strict majority of the known norms is at most h, the
      aggregate of what the round hands over stays within 3h, even where honest gradients have been refused. */
  lemma {:induction false} RoundWithinTriple(order: seq<string>, live: set<string>, local: string -> seq<real>,
                                             recorded: map<string, real>, root: real -> real, minWorkers: nat, h: real,
                                             level: CompressionLevel, r: AggregationResult)
    requires IsSqrt(root) && 0.0 <= h && NoRepeats(order) && forall id :: id in order ==> id in recorded
    requires HonestTurns(order, live, local, recorded, root, h)
    ensures var round := CollectFrom(order, live, local, recorded, root, |order|);
      && Recorded(round.accepted, round.recorded)
      && var gs := Outcome(round, minWorkers, root);
         && Recorded(gs, round.recorded)
         && (gs != [] && Aggregates(gs, round.recorded, level, root, r) ==> Within(r.aggregatedGradient, 3.0 * h))
  {
    hide IsSqrt, HonestTurns, CollectFrom, Norm, WithoutOutliers, RobustMean, Compressed, Within;
    var round := CollectFrom(order, live, local, recorded, root, |order|);
    AcceptedWithinTriple(order, live, local, recorded, root, h, |order|);
    OutcomeIsSound(order, live, local, recorded, root, minWorkers);
    OutcomeIsAccepted(round.accepted, round.recorded, round.norms, root);
    var gs := Outcome(round, minWorkers, root);
    if gs != [] && Aggregates(gs, round.recorded, level, root, r) {
      MeanOfWithin(gs, round.recorded, 3.0 * h, root);
      CompressionKeepsBound(RobustMean(gs, round.recorded, root), r.aggregatedGradient, level, 3.0 * h);
    }
  }
}
