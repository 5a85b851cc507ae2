/** How many dishonest reporters a round withstands, exactly. */
module HonestMajority {
  import opened Vectors
  import opened Aggregation
  import opened Collection
  import opened HonestRounds
  import opened Majority
  import opened OverrunRound

  lemma WithinMore(v: seq<real>, r: real, bound: real)
    requires 0.0 <= r <= bound && Within(v, r)
    ensures Within(v, bound)
  {
    SquareMonotone(r, bound);
  }

  /** The second of the two rounds exceeds any bound, if no more gradients are asked for than it hands over. */
  lemma {:induction false} SecondRoundExceeds(b: nat, s: real, r: real, minWorkers: nat, bound: real, root: real -> real)
    requires IsSqrt(root) && 3 <= b && minWorkers <= 2 * b && 0.0 < s && 128.0 * s < r && 0.0 <= bound && 2.0 * bound < r
    ensures NoRepeats(Workers(b))
    ensures var rounds := [Sent(All(b), Sends(FirstNorm(b, s, r)))];
      !Keeps(Workers(b), All(b), Sends(SecondNorm(b, s, r)), AfterRounds(Workers(b), rounds, root), minWorkers, bound, root)
  {
    hide IsSqrt, Norm, CollectFrom, Sends, Worker, Workers, All, Holds, NoRepeats, AcceptedBy, RobustMean, Within, Outcome;
    WorkersDiffer(b);
    var sent := Sent(All(b), Sends(FirstNorm(b, s, r)));
    assert [sent][..0] == [];
    RoundRecords(b, FirstNorm(b, s, r), AfterRounds(Workers(b), [], root), root);
    var recorded := AfterRounds(Workers(b), [sent], root);
    SecondRound(b, s, r, recorded, root, 2 * b + 3);
    var local := Sends(SecondNorm(b, s, r));
    var round := CollectFrom(Workers(b), All(b), local, recorded, root, 2 * b + 3);
    HandedOver(b, s, r, round, minWorkers, root);
    HandedOverTops(b, s, r);
    BeyondAreDishonest(Workers(b), All(b), local, recorded, minWorkers, bound, root);
    TopsExceed(round.accepted, round.recorded, b, r, bound, root);
  }

  lemma {:induction false} HalfDishonestOverrun(b: nat, minWorkers: nat, h: real, bound: real, root: real -> real)
    requires IsSqrt(root) && 3 <= b && minWorkers <= 2 * b && 0.0 < h && 0.0 <= bound
    ensures !Withstands(b, minWorkers, h, bound, root)
  {
    hide IsSqrt, Keeps, Sends, Workers, All, AfterRounds, Dishonest, Reporting, NoRepeats;
    var s, r := h / 64.0, 2.0 * h + 2.0 * bound + 1.0;
    SecondRoundExceeds(b, s, r, minWorkers, bound, root);
    FirstAreDishonest(b, s, r, root);
  }

  /** For every number b of dishonest reporters, a strict minority, and every bound of at least three honest norms: they
      cannot move the mean of any round of any job beyond the bound exactly if they are fewer than half of the gradients
      that aggregation asks for. An honest majority of those who report is not enough for any bound. */
  lemma {:induction false} WithstandsIff(b: nat, minWorkers: nat, h: real, bound: real, root: real -> real)
    requires IsSqrt(root) && 5 <= minWorkers && 0.0 < h && 3.0 * h <= bound
    ensures Withstands(b, minWorkers, h, bound, root) <==> 2 * b < minWorkers
  {
    hide IsSqrt, Dishonest, Reporting, NoRepeats, AfterRounds, CollectFrom, Outcome, RobustMean, Within;
    if 2 * b < minWorkers {
      forall order, rounds, live, local |
        NoRepeats(order) && |Dishonest(order, live, local, h, root)| <= b
        && 2 * |Dishonest(order, live, local, h, root)| < |Reporting(order, live)|
        ensures Keeps(order, live, local, AfterRounds(order, rounds, root), minWorkers, bound, root)
      {
        FewDishonestKeep(order, live, local, AfterRounds(order, rounds, root), minWorkers, h, bound, root);
      }
    } else {
      HalfDishonestOverrun(b, minWorkers, h, bound, root);
    }
  }

  lemma FewDishonestKeep(order: seq<string>, live: set<string>, local: string -> seq<real>, recorded: map<string, real>,
                         minWorkers: nat, h: real, bound: real, root: real -> real)
    requires IsSqrt(root) && NoRepeats(order) && 0.0 < h && 3.0 * h <= bound && forall id :: id in order ==> id in recorded
    requires 2 * |Dishonest(order, live, local, h, root)| < minWorkers
    ensures Keeps(order, live, local, recorded, minWorkers, bound, root)
  {
    hide IsSqrt, Dishonest, NoRepeats, CollectFrom, Outcome, RobustMean, Within;
    FewDishonestWithinTriple(order, live, local, recorded, root, minWorkers, h);
    var round := CollectFrom(order, live, local, recorded, root, |order|);
    var gs := Outcome(round, minWorkers, root);
    if gs != [] && minWorkers <= |gs| {
      WithinMore(RobustMean(gs, round.recorded, root), 3.0 * h, bound);
    }
  }
}
