/** How many honest workers averaging needs: the bound of three honest norms holds for every strict majority and for nothing less. */
module Majority {
  import opened Text
  import opened Sums
  import opened Vectors
  import opened Statistics
  import opened Aggregation
  import opened Collection

  /** Whatever n workers send, if at least k of them stay within h the mean stays within 3h. */
  ghost predicate Tolerates(n: nat, k: nat, h: real, root: real -> real)
    requires 0 < n
  {
    forall gs: seq<Contribution>, recorded: map<string, real> ::
      |gs| == n && DistinctIds(gs) && NormsFromCollection(gs, recorded, root) && k <= CountIn(Norms(gs, root), 0.0, h)
      ==> Within(RobustMean(gs, recorded, root), 3.0 * h)
  }

  /** One coordinate each; the first m are r, the others between zero and r. */
  ghost predicate FirstAreTops(gs: seq<Contribution>, m: nat, r: real) {
    forall i :: 0 <= i < |gs| ==>
      |gs[i].gradient| == 1 && 0.0 <= gs[i].gradient[0] <= r && (i < m ==> gs[i].gradient[0] == r)
  }

  lemma TopNorms(gs: seq<Contribution>, m: nat, r: real, root: real -> real)
    requires IsSqrt(root) && FirstAreTops(gs, m, r)
    ensures forall i :: 0 <= i < |gs| ==> Norms(gs, root)[i] == gs[i].gradient[0]
  {
    hide IsSqrt, Norm;
    forall i | 0 <= i < |gs| ensures Norms(gs, root)[i] == gs[i].gradient[0] {
      assert gs[i].gradient == [gs[i].gradient[0]];
      SingletonNorm(gs[i].gradient[0], root);
    }
  }

  /** If at least half send r, the cut is beyond r and removes nobody. */
  lemma TopsSurvive(gs: seq<Contribution>, recorded: map<string, real>, m: nat, r: real, root: real -> real)
    requires IsSqrt(root) && gs != [] && m <= |gs| <= 2 * m && FirstAreTops(gs, m, r) && NormsFromCollection(gs, recorded, root)
    ensures Survivors(gs, recorded, Cut(gs, root)) == gs
  {
    hide IsSqrt, Norm, Median;
    TopNorms(gs, m, r, root);
    HalfMedian(Norms(gs, root), m, r);
    forall c | c in gs ensures recorded[c.id] <= Cut(gs, root) {
      var i :| 0 <= i < |gs| && gs[i] == c;
      assert Norms(gs, root)[i] == recorded[c.id];
    }
    AllSurvive(gs, recorded, Cut(gs, root));
  }

  lemma {:induction false} TopsSum(gs: seq<Contribution>, m: nat, r: real)
    requires 0.0 <= r && FirstAreTops(gs, m, r)
    ensures VectorSum(gs, 1)[0] >= Times(r, if |gs| <= m then |gs| else m)
  {
    if gs != [] {
      var init := gs[..|gs| - 1];
      TopsSum(init, m, r);
      assert Padded(gs[|gs| - 1].gradient, 1)[0] == gs[|gs| - 1].gradient[0];
      if |gs| <= m {
        TimesSuccessor(r, |init|);
      }
    }
  }

  lemma MeanAbove(s: real, r: real, bound: real, n: nat, m: nat)
    requires 0 < n <= 2 * m && 0.0 <= bound && 2.0 * bound < r && Times(r, m) <= s
    ensures bound < s / n as real
  {
    var q, c := s / n as real, n as real;
    assert q * c == s;
    assert 0.0 <= r * (2.0 * m as real - c) == 2.0 * (r * m as real) - r * c;
    assert r * c <= (2.0 * q) * c;
    ScaleCancelAtMost(c, r, 2.0 * q);
  }

  /** If at least half send more than twice any bound, the mean is beyond that bound. */
  lemma TopsExceed(gs: seq<Contribution>, recorded: map<string, real>, m: nat, r: real, bound: real, root: real -> real)
    requires IsSqrt(root) && gs != [] && m <= |gs| <= 2 * m && FirstAreTops(gs, m, r) && NormsFromCollection(gs, recorded, root)
    requires 0.0 <= bound && 2.0 * bound < r
    ensures !Within(RobustMean(gs, recorded, root), bound)
  {
    hide IsSqrt, Norm, Norms, Survivors, Cut, VectorSum;
    TopsSurvive(gs, recorded, m, r, root);
    TopsSum(gs, m, r);
    MeanAbove(VectorSum(gs, 1)[0], r, bound, |gs|, m);
    assert RobustMean(gs, recorded, root)[0] == VectorSum(gs, 1)[0] / |gs| as real;
  }

  /** n workers: the first m send r, the others h. */
  function Split(n: nat, m: nat, h: real, r: real): (gs: seq<Contribution>)
    ensures |gs| == n
  {
    seq(n, i requires 0 <= i < n => Contribution(Decimal(i), [if i < m then r else h]))
  }

  lemma SplitIds(n: nat, m: nat, h: real, r: real)
    ensures DistinctIds(Split(n, m, h, r))
  {
    hide Decimal;
    var gs := Split(n, m, h, r);
    forall i, j | 0 <= i < j < |gs| ensures gs[i].id != gs[j].id {
      if Decimal(i) == Decimal(j) {
        DecimalInjective(i, j);
      }
    }
  }

  /** The norms collection records for these gradients. */
  function Record(gs: seq<Contribution>, root: real -> real): map<string, real> {
    if gs == [] then map[] else
      Record(gs[..|gs| - 1], root)[gs[|gs| - 1].id := Norm(gs[|gs| - 1].gradient, root)]
  }

  lemma {:induction false} RecordIsTrue(gs: seq<Contribution>, root: real -> real)
    requires DistinctIds(gs)
    ensures NormsFromCollection(gs, Record(gs, root), root)
  {
    hide Norm;
    if gs != [] {
      RecordIsTrue(gs[..|gs| - 1], root);
    }
  }

  lemma SplitIsCounted(n: nat, m: nat, h: real, r: real, root: real -> real)
    requires IsSqrt(root) && 0.0 <= h <= r && m <= n
    ensures n - m <= CountIn(Norms(Split(n, m, h, r), root), 0.0, h)
  {
    hide IsSqrt, Norm, Decimal;
    TopNorms(Split(n, m, h, r), m, r, root);
    CountBlocks(Norms(Split(n, m, h, r), root), m, n, n, n, 0.0, h);
  }

  /** With no strict majority the others can push the mean beyond the bound. */
  lemma {:induction false} SplitExceeds(n: nat, k: nat, h: real, root: real -> real)
    requires IsSqrt(root) && 0.0 <= h && 0 < n && 2 * k <= n
    ensures !Tolerates(n, k, h, root)
  {
    hide IsSqrt, Norm, Norms, Decimal, CountIn, Record, RobustMean, Within;
    var r := 6.0 * h + 1.0;
    var gs := Split(n, n - k, h, r);
    SplitIds(n, n - k, h, r);
    RecordIsTrue(gs, root);
    SplitIsCounted(n, n - k, h, r, root);
    TopsExceed(gs, Record(gs, root), n - k, r, 3.0 * h, root);
  }

  /** For every number of workers: k honest ones guarantee the bound exactly if they are a strict majority. */
  lemma {:induction false} ToleratesIff(n: nat, k: nat, h: real, root: real -> real)
    requires IsSqrt(root) && 0.0 <= h && 0 < n && k <= n
    ensures Tolerates(n, k, h, root) <==> n < 2 * k
  {
    hide IsSqrt, Within, RobustMean, DistinctIds, Norms, CountIn;
    if n < 2 * k {
      forall gs: seq<Contribution>, recorded: map<string, real> |
        |gs| == n && DistinctIds(gs) && NormsFromCollection(gs, recorded, root) && k <= CountIn(Norms(gs, root), 0.0, h)
        ensures Within(RobustMean(gs, recorded, root), 3.0 * h)
      {
        ByzantineBound(gs, recorded, h, root);
      }
    } else {
      SplitExceeds(n, k, h, root);
    }
  }
}
