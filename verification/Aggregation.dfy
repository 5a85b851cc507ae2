/** Robust averaging of gradients: the values aggregateGradients computes, and how far dishonest workers can move them. */
module Aggregation {
  import opened Sums
  import opened Vectors
  import opened Statistics

  /** One entry of the gradient map; maps are sequences of entries in insertion order. */
  datatype Contribution = Contribution(id: string, gradient: seq<real>)

  function Norm(g: seq<real>, root: real -> real): real {
    root(NormSq(g))
  }

  function Norms(gs: seq<Contribution>, root: real -> real): seq<real> {
    seq(|gs|, i requires 0 <= i < |gs| => Norm(gs[i].gradient, root))
  }

  ghost predicate Recorded(gs: seq<Contribution>, recorded: map<string, real>) {
    forall c :: c in gs ==> c.id in recorded
  }

  /** The norm each worker carries is the norm of the gradient it sent, as collectGradients leaves it. */
  ghost predicate NormsFromCollection(gs: seq<Contribution>, recorded: map<string, real>, root: real -> real) {
    Recorded(gs, recorded) && forall c :: c in gs ==> recorded[c.id] == Norm(c.gradient, root)
  }

  /** The entries whose recorded norm does not exceed the cut, in order. */
  ghost function Survivors(gs: seq<Contribution>, recorded: map<string, real>, cut: real): (s: seq<Contribution>)
    requires Recorded(gs, recorded)
  {
    if gs == [] then [] else
      var last := gs[|gs| - 1];
      assert last in gs;
      Survivors(gs[..|gs| - 1], recorded, cut) + if cut < recorded[last.id] then [] else [last]
  }

  lemma {:induction false} SurvivorsPass(gs: seq<Contribution>, recorded: map<string, real>, cut: real)
    requires Recorded(gs, recorded)
    ensures forall c :: c in Survivors(gs, recorded, cut) ==> c in gs && recorded[c.id] <= cut
  {
    if gs != [] {
      assert gs[|gs| - 1] in gs;
      SurvivorsPass(gs[..|gs| - 1], recorded, cut);
    }
  }

  function Cut(gs: seq<Contribution>, root: real -> real): real {
    3.0 * Median(Norms(gs, root))
  }

  function Coord(g: seq<real>, i: nat): real {
    if i < |g| then g[i] else 0.0
  }

  /** g cut off or filled with zeros to length n: what writing g into a typed array of length n leaves. */
  function Padded(g: seq<real>, n: nat): seq<real> {
    seq(n, i requires 0 <= i < n => Coord(g, i))
  }

  function VectorSum(gs: seq<Contribution>, n: nat): (v: seq<real>)
    ensures |v| == n
  {
    if gs == [] then Padded([], n)
    else Plus(VectorSum(gs[..|gs| - 1], n), Padded(gs[|gs| - 1].gradient, n))
  }

  /** Each coordinate of v divided by k, unless nothing was added up. */
  function Averaged(v: seq<real>, k: nat): (a: seq<real>)
    ensures |a| == |v|
  {
    if k == 0 then v else seq(|v|, i requires 0 <= i < |v| => v[i] / k as real)
  }

  /** The uncompressed aggregate: the mean of the surviving gradients, at the length of the first one received. */
  ghost function RobustMean(gs: seq<Contribution>, recorded: map<string, real>, root: real -> real): seq<real>
    requires gs != [] && Recorded(gs, recorded)
  {
    var kept := Survivors(gs, recorded, Cut(gs, root));
    Averaged(VectorSum(kept, |gs[0].gradient|), |kept|)
  }

  lemma {:induction false} DotGrows(a: seq<real>, m: nat, n: nat)
    requires m <= n <= |a|
    ensures Dot(a, a, m) <= Dot(a, a, n)
  {
    if m < n {
      DotGrows(a, m, n - 1);
    }
  }

  lemma {:induction false} PaddedNorm(g: seq<real>, n: nat, k: nat)
    requires k <= n
    ensures k <= |g| ==> Dot(Padded(g, n), Padded(g, n), k) == Dot(g, g, k)
    ensures Dot(Padded(g, n), Padded(g, n), k) <= NormSq(g)
  {
    if k > 0 {
      PaddedNorm(g, n, k - 1);
    }
    if k <= |g| {
      DotGrows(g, k, |g|);
    }
  }

  lemma NormSquared(g: seq<real>, root: real -> real)
    requires IsSqrt(root)
    ensures 0.0 <= Norm(g, root) && Norm(g, root) * Norm(g, root) == NormSq(g)
  {
    SquareNonNegative(g, |g|);
  }

  lemma PaddedNormSq(g: seq<real>, n: nat)
    ensures NormSq(Padded(g, n)) <= NormSq(g)
  {
    PaddedNorm(g, n, n);
  }

  lemma ZeroNorm(n: nat)
    ensures NormSq(Padded([], n)) == 0.0
  {
    PaddedNormSq([], n);
    SquareNonNegative(Padded([], n), n);
  }

  lemma SquareMonotone(x: real, y: real)
    requires 0.0 <= x <= y
    ensures x * x <= y * y
  {
    if x < y {
      SquareStrict(y, x);
    }
  }

  /** k vectors of norm at most r sum to a vector of norm at most k times r. */
  lemma {:induction false} SumNorm(gs: seq<Contribution>, n: nat, r: real, root: real -> real)
    requires IsSqrt(root) && 0.0 <= r
    requires forall c :: c in gs ==> Norm(c.gradient, root) <= r
    ensures 0.0 <= Times(r, |gs|)
    ensures NormSq(VectorSum(gs, n)) <= Times(r, |gs|) * Times(r, |gs|)
  {
    hide IsSqrt, Norm, NormSq, Dot;
    if gs == [] {
      ZeroNorm(n);
    } else {
      var init, g := gs[..|gs| - 1], gs[|gs| - 1].gradient;
      assert gs[|gs| - 1] in gs;
      SumNorm(init, n, r, root);
      NormSquared(g, root);
      SquareMonotone(Norm(g, root), r);
      PaddedNormSq(g, n);
      Triangle(VectorSum(init, n), Padded(g, n), Times(r, |init|), r);
      TimesSuccessor(r, |init|);
    }
  }

  lemma {:induction false} AveragedDot(v: seq<real>, k: nat, n: nat)
    requires 0 < k && n <= |v|
    ensures Dot(Averaged(v, k), Averaged(v, k), n) * (k as real * k as real) == Dot(v, v, n)
  {
    if n > 0 {
      AveragedDot(v, k, n - 1);
      QuotientStep(Dot(Averaged(v, k), Averaged(v, k), n - 1), Averaged(v, k)[n - 1], v[n - 1], k as real);
    }
  }

  lemma QuotientStep(d: real, x: real, y: real, k: real)
    requires 0.0 < k && x == y / k
    ensures (d + x * x) * (k * k) == d * (k * k) + y * y
  {
    assert y == x * k;
    assert y * y == x * x * (k * k);
  }

  lemma ScaleStrict(q: real, x: real, y: real)
    requires 0.0 < q && y < x
    ensures y * q < x * q
  {
    var d := x - y;
    assert 0.0 < d * q;
    assert d * q == x * q - y * q;
  }

  lemma ScaleCancelAtMost(q: real, x: real, y: real)
    requires 0.0 < q && x * q <= y * q
    ensures x <= y
  {
    if y < x {
      ScaleStrict(q, x, y);
    }
  }

  lemma SquareScaled(r: real, c: real)
    requires 0.0 < c
    ensures (r * c) * (r * c) == (r * r) * (c * c) && 0.0 < c * c
  {}

  /** The mean of vectors of norm at most r has norm at most r. */
  lemma {:induction false} MeanNorm(gs: seq<Contribution>, n: nat, r: real, root: real -> real)
    requires IsSqrt(root) && 0.0 <= r
    requires forall c :: c in gs ==> Norm(c.gradient, root) <= r
    ensures NormSq(Averaged(VectorSum(gs, n), |gs|)) <= r * r
  {
    hide IsSqrt, Norm, Dot, VectorSum;
    SumNorm(gs, n, r, root);
    if |gs| == 0 {
      ProductNonNegative(r, r);
    } else {
      AveragedDot(VectorSum(gs, n), |gs|, n);
      var k := |gs| as real;
      SquareScaled(r, k);
      ScaleCancelAtMost(k * k, NormSq(Averaged(VectorSum(gs, n), |gs|)), r * r);
    }
  }

  /** v and each of its coordinates are at most r in size. */
  ghost predicate Within(v: seq<real>, r: real) {
    && NormSq(v) <= r * r
    && forall i :: 0 <= i < |v| ==> -r <= v[i] <= r
  }

  lemma CoordinatesWithinNorm(v: seq<real>, r: real)
    requires 0.0 <= r && NormSq(v) <= r * r
    ensures Within(v, r)
  {
    forall i | 0 <= i < |v| ensures -r <= v[i] <= r {
      TermBelowSquare(v, |v|, i);
      SquareOrder(v[i], r);
    }
  }

  lemma {:induction false} CutBelowTriple(gs: seq<Contribution>, h: real, root: real -> real)
    requires |gs| < 2 * CountIn(Norms(gs, root), 0.0, h)
    ensures 0.0 <= Cut(gs, root) <= 3.0 * h
  {
    MedianInMajority(Norms(gs, root), 0.0, h);
  }

  lemma {:induction false} MeanWithinCut(gs: seq<Contribution>, recorded: map<string, real>, r: real, root: real -> real)
    requires IsSqrt(root) && gs != [] && NormsFromCollection(gs, recorded, root)
    requires 0.0 <= Cut(gs, root) <= r
    ensures Within(RobustMean(gs, recorded, root), r)
  {
    var kept := Survivors(gs, recorded, Cut(gs, root));
    SurvivorsPass(gs, recorded, Cut(gs, root));
    MeanNorm(kept, |gs[0].gradient|, r, root);
    CoordinatesWithinNorm(RobustMean(gs, recorded, root), r);
  }

  /**
    Byzantine tolerance. If strictly more than half of the contributions have norm at most h, the mean has
    norm at most 3h, and so has every coordinate, whatever the remaining contributions are.
  */
  lemma {:induction false} ByzantineBound(gs: seq<Contribution>, recorded: map<string, real>, h: real, root: real -> real)
    requires IsSqrt(root) && gs != [] && NormsFromCollection(gs, recorded, root)
    requires |gs| < 2 * CountIn(Norms(gs, root), 0.0, h)
    ensures Within(RobustMean(gs, recorded, root), 3.0 * h)
  {
    hide IsSqrt, NormsFromCollection, Cut, CountIn, Norms, Within, RobustMean;
    CutBelowTriple(gs, h, root);
    MeanWithinCut(gs, recorded, 3.0 * h, root);
  }

  lemma {:induction false} SurvivorsCount(gs: seq<Contribution>, recorded: map<string, real>, cut: real, root: real -> real)
    requires IsSqrt(root) && NormsFromCollection(gs, recorded, root)
    ensures |Survivors(gs, recorded, cut)| == CountIn(Norms(gs, root), 0.0, cut)
  {
    hide IsSqrt, Norm;
    if gs != [] {
      var init, last := gs[..|gs| - 1], gs[|gs| - 1];
      assert last in gs;
      SurvivorsCount(init, recorded, cut, root);
      NormSquared(last.gradient, root);
      assert Norms(gs, root)[..|gs| - 1] == Norms(init, root);
    }
  }

  lemma {:induction false} NormsNonNegative(gs: seq<Contribution>, root: real -> real)
    requires IsSqrt(root)
    ensures forall i :: 0 <= i < |gs| ==> 0.0 <= Norms(gs, root)[i]
  {
    hide IsSqrt, Norm;
    forall i | 0 <= i < |gs| ensures 0.0 <= Norms(gs, root)[i] {
      NormSquared(gs[i].gradient, root);
    }
  }

  /** The filter keeps at least half of what it is given, so the mean is over a non-empty set. */
  lemma {:induction false} FilterKeepsHalf(gs: seq<Contribution>, recorded: map<string, real>, root: real -> real)
    requires IsSqrt(root) && NormsFromCollection(gs, recorded, root)
    ensures |gs| <= 2 * |Survivors(gs, recorded, Cut(gs, root))|
  {
    hide IsSqrt, NormsFromCollection, CountIn, Median;
    NormsNonNegative(gs, root);
    HalfWithinTriple(Norms(gs, root));
    SurvivorsCount(gs, recorded, Cut(gs, root), root);
  }

  lemma {:induction false} AllSurvive(gs: seq<Contribution>, recorded: map<string, real>, cut: real)
    requires Recorded(gs, recorded) && forall c :: c in gs ==> recorded[c.id] <= cut
    ensures Survivors(gs, recorded, cut) == gs
  {
    if gs != [] {
      var init, last := gs[..|gs| - 1], gs[|gs| - 1];
      assert last in gs;
      AllSurvive(init, recorded, cut);
      assert gs == init + [last];
    }
  }

  lemma SingletonNorm(x: real, root: real -> real)
    requires IsSqrt(root) && 0.0 <= x
    ensures Norm([x], root) == x
  {
    NormSquared([x], root);
    assert Dot([x], [x], 0) == 0.0;
    SquareOrder(Norm([x], root), x);
    SquareOrder(x, Norm([x], root));
  }
}
