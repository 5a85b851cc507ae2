/** What a round computes, coordinate by coordinate. */
module RobustMeans {
  import opened Wrappers
  import opened Sums
  import opened Vectors
  import opened Statistics
  import opened Aggregation
  import TopK
  import opened Coordinator

  /** Coordinate i of entry j; an entry that is too short counts as zero there. */
  function CoordOf(gs: seq<Contribution>, i: nat): int -> real {
    j => if 0 <= j < |gs| && i < |gs[j].gradient| then gs[j].gradient[i] else 0.0
  }

  /** The positions of the entries whose recorded norm is at most the cut. */
  function KeptBy(gs: seq<Contribution>, recorded: map<string, real>, cut: real): set<int>
    requires Recorded(gs, recorded)
  {
    set j | 0 <= j < |gs| && recorded[gs[j].id] <= cut
  }

  lemma KeptByLast(gs: seq<Contribution>, recorded: map<string, real>, cut: real)
    requires gs != [] && Recorded(gs, recorded)
    ensures Recorded(gs[..|gs| - 1], recorded) && |gs| - 1 !in KeptBy(gs[..|gs| - 1], recorded, cut)
    ensures gs[|gs| - 1] in gs
    ensures KeptBy(gs, recorded, cut)
      == KeptBy(gs[..|gs| - 1], recorded, cut) + if recorded[gs[|gs| - 1].id] <= cut then {|gs| - 1} else {}
  {}

  lemma SurvivorsLast(gs: seq<Contribution>, recorded: map<string, real>, cut: real)
    requires gs != [] && Recorded(gs, recorded)
    ensures Recorded(gs[..|gs| - 1], recorded) && gs[|gs| - 1] in gs
    ensures Survivors(gs, recorded, cut)
      == Survivors(gs[..|gs| - 1], recorded, cut) + if recorded[gs[|gs| - 1].id] <= cut then [gs[|gs| - 1]] else []
  {}

  lemma SumMore(gs: seq<Contribution>, c: Contribution, n: nat, i: nat)
    requires i < n
    ensures VectorSum(gs + [c], n)[i] == VectorSum(gs, n)[i] + if i < |c.gradient| then c.gradient[i] else 0.0
  {
    assert (gs + [c])[..|gs|] == gs;
  }

  lemma {:induction false} SurvivorsAdd(gs: seq<Contribution>, recorded: map<string, real>, cut: real, n: nat, i: nat)
    requires Recorded(gs, recorded) && i < n
    ensures |Survivors(gs, recorded, cut)| == |KeptBy(gs, recorded, cut)|
    ensures VectorSum(Survivors(gs, recorded, cut), n)[i] == SumOver(KeptBy(gs, recorded, cut), CoordOf(gs, i))
  {
    if gs == [] {
      assert KeptBy(gs, recorded, cut) == {};
    } else {
      var init, last := gs[..|gs| - 1], gs[|gs| - 1];
      KeptByLast(gs, recorded, cut);
      SurvivorsLast(gs, recorded, cut);
      SurvivorsAdd(init, recorded, cut, n, i);
      var kept, before := KeptBy(init, recorded, cut), Survivors(init, recorded, cut);
      SumAgree(kept, CoordOf(init, i), CoordOf(gs, i));
      var x := CoordOf(gs, i)(|gs| - 1);
      assert x == if i < |last.gradient| then last.gradient[i] else 0.0;
      hide KeptBy, Survivors, VectorSum, SumOver, CoordOf;
      if recorded[last.id] <= cut {
        SumInsert(kept, CoordOf(gs, i), |gs| - 1);
        SumMore(before, last, n, i);
      } else {
        assert kept + {} == kept && before + [] == before;
      }
    }
  }

  /** The mean times the number of those within three medians is, at every coordinate, the sum over exactly them. */
  lemma {:induction false} MeanAt(gs: seq<Contribution>, recorded: map<string, real>, root: real -> real, i: nat)
    requires gs != [] && Recorded(gs, recorded)
    ensures |RobustMean(gs, recorded, root)| == |gs[0].gradient|
    ensures i < |gs[0].gradient| ==>
      var kept := KeptBy(gs, recorded, 3.0 * Median(Norms(gs, root)));
      RobustMean(gs, recorded, root)[i] * |kept| as real == SumOver(kept, CoordOf(gs, i))
  {
    hide Norms, Median, VectorSum, Survivors, KeptBy;
    var cut, n := Cut(gs, root), |gs[0].gradient|;
    if i < n {
      SurvivorsAdd(gs, recorded, cut, n, i);
      if |KeptBy(gs, recorded, cut)| == 0 {
        assert SumOver({}, CoordOf(gs, i)) == 0.0;
      }
    }
  }

  lemma SomebodyKept(gs: seq<Contribution>, recorded: map<string, real>, root: real -> real)
    requires IsSqrt(root) && gs != [] && NormsFromCollection(gs, recorded, root)
    ensures 0 < |KeptBy(gs, recorded, Cut(gs, root))|
  {
    FilterKeepsHalf(gs, recorded, root);
    hide IsSqrt, Survivors, KeptBy, Cut, VectorSum;
    SurvivorsAdd(gs, recorded, Cut(gs, root), 1, 0);
  }

  lemma SumBetween(kept: set<int>, f: int -> real, lo: real, hi: real)
    requires forall j :: j in kept ==> lo <= f(j) <= hi
    ensures Times(lo, |kept|) <= SumOver(kept, f) <= Times(hi, |kept|)
  {
    forall j | j in kept ensures f(j) <= hi {}
    forall j | j in kept ensures lo <= f(j) {}
    SumAtMost(kept, f, hi);
    SumAtLeast(kept, f, lo);
  }

  /** If everybody within three medians agrees up to an interval, so does the mean. */
  lemma {:induction false} MeanBetween(gs: seq<Contribution>, recorded: map<string, real>, root: real -> real, i: nat, lo: real, hi: real)
    requires IsSqrt(root) && gs != [] && NormsFromCollection(gs, recorded, root) && i < |gs[0].gradient|
    requires forall j :: j in KeptBy(gs, recorded, 3.0 * Median(Norms(gs, root))) ==> lo <= CoordOf(gs, i)(j) <= hi
    ensures |RobustMean(gs, recorded, root)| == |gs[0].gradient| && lo <= RobustMean(gs, recorded, root)[i] <= hi
  {
    hide IsSqrt, Norms, Median, KeptBy, RobustMean, CoordOf, SumOver, Times;
    var kept := KeptBy(gs, recorded, 3.0 * Median(Norms(gs, root)));
    MeanAt(gs, recorded, root, i);
    SomebodyKept(gs, recorded, root);
    SumBetween(kept, CoordOf(gs, i), lo, hi);
    MeanInBetween(RobustMean(gs, recorded, root)[i], SumOver(kept, CoordOf(gs, i)), |kept|, lo, hi);
  }

  lemma MeanInBetween(mean: real, sum: real, k: nat, lo: real, hi: real)
    requires 0 < k && mean * k as real == sum && Times(lo, k) <= sum <= Times(hi, k)
    ensures lo <= mean <= hi
  {
    ScaleCancelAtMost(k as real, mean, hi);
    ScaleCancelAtMost(k as real, lo, mean);
  }

  /** Without compression the answer is that mean, and every weight moves against it, by the learning rate. */
  lemma {:induction false} AggregateAt(gs: seq<Contribution>, recorded: map<string, real>, root: real -> real, r: AggregationResult,
                                       before: Option<seq<real>>, after: Option<seq<real>>, learningRate: real, i: nat)
    requires gs != [] && Recorded(gs, recorded) && Aggregates(gs, recorded, NoCompression, root, r) && i < |gs[0].gradient|
    requires Moved(before, after, r.aggregatedGradient, learningRate)
    ensures |r.aggregatedGradient| == |gs[0].gradient|
    ensures var kept := KeptBy(gs, recorded, 3.0 * Median(Norms(gs, root)));
      && r.aggregatedGradient[i] * |kept| as real == SumOver(kept, CoordOf(gs, i))
      && (before.Some? && i < |before.value| ==>
            && after.Some? && |after.value| == |before.value|
            && (before.value[i] - after.value[i]) * |kept| as real == learningRate * SumOver(kept, CoordOf(gs, i)))
  {
    hide RobustMean, Norms, Median, KeptBy, Excluded;
    MeanAt(gs, recorded, root, i);
    if before.Some? && i < |before.value| {
      Regroup(learningRate, r.aggregatedGradient[i], |KeptBy(gs, recorded, Cut(gs, root))| as real);
    }
  }

  lemma Regroup(a: real, b: real, c: real)
    ensures (a * b) * c == a * (b * c)
  {}

  /** r has these coordinates of the mean and zero elsewhere. */
  ghost predicate Keeps(mean: seq<real>, r: seq<real>, kept: set<int>, count: nat) {
    && (forall i :: i in kept ==> 0 <= i < |mean|) && |kept| == (if count < |mean| then count else |mean|)
    && |r| == |mean| && (forall i :: 0 <= i < |mean| ==> r[i] == if i in kept then mean[i] else 0.0)
  }

  ghost predicate NoneLarger(mean: seq<real>, kept: set<int>) {
    forall i, j :: 0 <= i < |mean| && i in kept && 0 <= j < |mean| && j !in kept ==> Abs(mean[j]) <= Abs(mean[i])
  }

  function AtLeastOne(n: nat): nat {
    if n < 1 then 1 else n
  }

  lemma HundredthKept(n: nat)
    ensures TopK.KeepCount(n, 0.01) == AtLeastOne(n / 100)
    ensures TopK.KeepCount(n, 0.1) == AtLeastOne(n / 10)
  {
    assert (n as real * 0.01).Floor == n / 100;
    assert (n as real * 0.1).Floor == n / 10;
  }

  lemma LargestKept(mean: seq<real>, r: seq<real>)
    requires Compressed(mean, r, TopKCompression)
    ensures exists kept :: Keeps(mean, r, kept, AtLeastOne(|mean| / 100)) && NoneLarger(mean, kept)
  {
    HundredthKept(|mean|);
    hide TopK.KeepCount, TopK.Kept;
    var k := AtLeastOne(|mean| / 100);
    var kept := TopK.Kept(mean, k);
    TopK.KeptAreLargest(mean, k);
    assert forall i :: i in kept ==> i in TopK.Range(|mean|);
    assert NoneLarger(mean, kept) by {
      forall i, j | 0 <= i < |mean| && i in kept && 0 <= j < |mean| && j !in kept ensures Abs(mean[j]) <= Abs(mean[i]) {
        assert TopK.Larger(mean, i, j);
      }
    }
    assert Keeps(mean, r, kept, k);
  }

  lemma SomeKept(mean: seq<real>, r: seq<real>)
    requires Compressed(mean, r, RandomCompression)
    ensures exists kept :: Keeps(mean, r, kept, AtLeastOne(|mean| / 10))
  {
    HundredthKept(|mean|);
    hide TopK.KeepCount;
    var kept: set<int> :| kept <= TopK.Range(|mean|) && |kept| == TopK.Min(AtLeastOne(|mean| / 10), |mean|) && KeepsExactly(mean, r, kept);
    assert Keeps(mean, r, kept, AtLeastOne(|mean| / 10));
  }

  /** Compression keeps so many coordinates as they are and clears the others: a hundredth of them, and the largest ones, or
      a tenth, but at least one. */
  lemma CompressionKeeps(mean: seq<real>, r: seq<real>, level: CompressionLevel)
    requires Compressed(mean, r, level)
    ensures level.NoCompression? ==> r == mean
    ensures level.TopKCompression? ==> exists kept :: Keeps(mean, r, kept, AtLeastOne(|mean| / 100)) && NoneLarger(mean, kept)
    ensures level.RandomCompression? ==> exists kept :: Keeps(mean, r, kept, AtLeastOne(|mean| / 10))
  {
    match level
    case NoCompression =>
    case TopKCompression => LargestKept(mean, r);
    case RandomCompression => SomeKept(mean, r);
  }

  /** Excluded are exactly the entries beyond the cut; the others are kept. */
  lemma {:induction false} ExcludedAreBeyond(gs: seq<Contribution>, recorded: map<string, real>, cut: real)
    requires Recorded(gs, recorded)
    ensures |Excluded(gs, recorded, cut)| + |KeptBy(gs, recorded, cut)| == |gs|
    ensures forall id :: id in Excluded(gs, recorded, cut) <==> IsBeyond(gs, recorded, cut, id)
  {
    if gs == [] {
      assert KeptBy(gs, recorded, cut) == {};
    } else {
      var init, last := gs[..|gs| - 1], gs[|gs| - 1];
      KeptByLast(gs, recorded, cut);
      ExcludedAreBeyond(init, recorded, cut);
      assert gs == init + [last];
      forall id ensures IsBeyond(gs, recorded, cut, id) <==> IsBeyond(init, recorded, cut, id) || (id == last.id && cut < recorded[id]) {
        BeyondMore(init, last, recorded, cut, id);
      }
      hide KeptBy, IsBeyond;
    }
  }

  ghost predicate IsBeyond(gs: seq<Contribution>, recorded: map<string, real>, cut: real, id: string) {
    exists c :: c in gs && c.id == id && id in recorded && cut < recorded[id]
  }

  lemma BeyondMore(gs: seq<Contribution>, c: Contribution, recorded: map<string, real>, cut: real, id: string)
    requires c.id in recorded
    ensures IsBeyond(gs + [c], recorded, cut, id) <==> IsBeyond(gs, recorded, cut, id) || (id == c.id && cut < recorded[id])
  {
    assert c in gs + [c];
    if d :| d in gs && d.id == id && id in recorded && cut < recorded[id] {
      assert d in gs + [c];
    }
  }

  function SquareAt(g: seq<real>): int -> real {
    i => if 0 <= i < |g| then g[i] * g[i] else 0.0
  }

  lemma LastOfRange(g: seq<real>, n: nat)
    requires 0 < n <= |g|
    ensures TopK.Range(n) == TopK.Range(n - 1) + {n - 1} && n - 1 !in TopK.Range(n - 1)
    ensures Dot(g, g, n) == Dot(g, g, n - 1) + SquareAt(g)(n - 1)
  {}

  lemma {:induction false} DotIsSum(g: seq<real>, n: nat)
    requires n <= |g|
    ensures Dot(g, g, n) == SumOver(TopK.Range(n), SquareAt(g))
  {
    if n > 0 {
      DotIsSum(g, n - 1);
      LastOfRange(g, n);
      hide TopK.Range, SumOver, SquareAt, Dot;
      SumInsert(TopK.Range(n - 1), SquareAt(g), n - 1);
    }
  }

  /** The norm is the Euclidean one. */
  lemma NormIsEuclidean(g: seq<real>, root: real -> real)
    requires IsSqrt(root)
    ensures 0.0 <= Norm(g, root) && Norm(g, root) * Norm(g, root) == SumOver(TopK.Range(|g|), SquareAt(g))
  {
    NormSquared(g, root);
    DotIsSum(g, |g|);
  }
}
