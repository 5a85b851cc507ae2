/** The order statistics behind the coordinator's outlier filters, and what they guarantee: where the median lies, how many
    values the cut at three medians keeps, and how few lie beyond three deviations. */
module Statistics {
  import opened Sums
  import opened Vectors
  import opened Sorting

  function Identity(x: real): real {
    x
  }

  function Middle(sorted: seq<real>): real
    requires sorted != []
  {
    var mid := |sorted| / 2;
    if |sorted| % 2 == 1 then sorted[mid] else (sorted[mid - 1] + sorted[mid]) / 2.0
  }

  function Median(values: seq<real>): real {
    if values == [] then 0.0 else Middle(SortBy(values, Identity))
  }

  /** How many values lie in [lo, hi]. */
  function CountIn(values: seq<real>, lo: real, hi: real): (n: nat)
    ensures n <= |values|
  {
    if values == [] then 0 else
      CountIn(values[..|values| - 1], lo, hi) + if lo <= values[|values| - 1] <= hi then 1 else 0
  }

  lemma {:induction false} CountInsert(values: seq<real>, x: real, lo: real, hi: real)
    ensures CountIn(Insert(values, x, Identity), lo, hi)
         == CountIn(values, lo, hi) + if lo <= x <= hi then 1 else 0
  {
    var r := Insert(values, x, Identity);
    if values == [] || values[|values| - 1] <= x {
      assert r[..|values|] == values;
    } else {
      var init := values[..|values| - 1];
      CountInsert(init, x, lo, hi);
      assert r[..|values|] == Insert(init, x, Identity);
    }
  }

  lemma {:induction false} CountSort(values: seq<real>, lo: real, hi: real)
    ensures CountIn(SortBy(values, Identity), lo, hi) == CountIn(values, lo, hi)
  {
    if values != [] {
      var init := values[..|values| - 1];
      CountSort(init, lo, hi);
      CountInsert(SortBy(init, Identity), values[|values| - 1], lo, hi);
    }
  }

  lemma {:induction false} CountWithTailAbove(s: seq<real>, k: nat, lo: real, hi: real)
    requires k <= |s| && forall i :: k <= i < |s| ==> hi < s[i]
    ensures CountIn(s, lo, hi) <= k
    decreases |s|
  {
    if k < |s| {
      CountWithTailAbove(s[..|s| - 1], k, lo, hi);
    }
  }

  lemma {:induction false} CountWithHeadBelow(s: seq<real>, k: nat, lo: real, hi: real)
    requires k <= |s| && forall i :: 0 <= i < k ==> s[i] < lo
    ensures CountIn(s, lo, hi) <= |s| - k
    decreases |s|
  {
    if s != [] {
      CountWithHeadBelow(s[..|s| - 1], if k == |s| then k - 1 else k, lo, hi);
    }
  }

  lemma {:induction false} CountWithHeadInside(s: seq<real>, k: nat, lo: real, hi: real)
    requires k <= |s| && forall i :: 0 <= i < k ==> lo <= s[i] <= hi
    ensures k <= CountIn(s, lo, hi)
    decreases |s|
  {
    if s != [] {
      CountWithHeadInside(s[..|s| - 1], if k == |s| then k - 1 else k, lo, hi);
    }
  }

  /** Two stretches of values inside the interval. */
  lemma {:induction false} CountBlocks(s: seq<real>, p: nat, q: nat, a: nat, c: nat, lo: real, hi: real)
    requires p <= q <= a <= c <= |s|
    requires forall i :: p <= i < q || a <= i < c ==> lo <= s[i] <= hi
    ensures (q - p) + (c - a) <= CountIn(s, lo, hi)
    decreases |s|
  {
    if s != [] {
      var init, n := s[..|s| - 1], |s|;
      var c' := if c == n then (if a < c then c - 1 else a - 1) else c;
      var a' := if a == n then n - 1 else a;
      var q' := if q == n then (if p < q then q - 1 else p - 1) else q;
      CountBlocks(init, if p == n then n - 1 else p, q', a', c', lo, hi);
    }
  }

  lemma {:induction false} Ordered(s: seq<real>, i: nat, j: nat)
    requires Ascending(s, Identity) && i <= j < |s|
    ensures s[i] <= s[j]
  {
    if i < j {
      assert Identity(s[i]) <= Identity(s[j]);
    }
  }

  /** In an ascending sequence a middle element lies in any interval that holds a strict majority. */
  lemma {:induction false} MiddleInMajority(s: seq<real>, k: nat, lo: real, hi: real)
    requires Ascending(s, Identity) && k < |s| && |s| <= 2 * k + 2 && 2 * k <= |s|
    requires |s| < 2 * CountIn(s, lo, hi)
    ensures lo <= s[k] <= hi
  {
    if s[k] < lo {
      forall i | 0 <= i < k + 1 ensures s[i] < lo {
        Ordered(s, i, k);
      }
      CountWithHeadBelow(s, k + 1, lo, hi);
    } else if hi < s[k] {
      forall i | k <= i < |s| ensures hi < s[i] {
        Ordered(s, k, i);
      }
      CountWithTailAbove(s, k, lo, hi);
    }
  }

  /** If a strict majority of the values lies in [lo, hi], so does the median, whatever the others are. */
  lemma {:induction false} MedianInMajority(values: seq<real>, lo: real, hi: real)
    requires |values| < 2 * CountIn(values, lo, hi)
    ensures lo <= Median(values) <= hi
  {
    SortSorts(values, Identity);
    CountSort(values, lo, hi);
    MiddleWithin(SortBy(values, Identity), lo, hi);
  }

  /** If at least half of the values are r, and the others between zero and r, the median is at least half of r. */
  lemma {:induction false} HalfMedian(values: seq<real>, m: nat, r: real)
    requires values != [] && m <= |values| <= 2 * m
    requires forall i :: 0 <= i < |values| ==> 0.0 <= values[i] && (i < m ==> values[i] == r)
    ensures r / 2.0 <= Median(values)
  {
    hide SortBy, Middle;
    SortSorts(values, Identity);
    SortNonNegative(values);
    CountSort(values, r, r);
    CountWithHeadInside(values, m, r, r);
    HalfMiddle(SortBy(values, Identity), m, r);
  }

  lemma {:induction false} HalfMiddle(s: seq<real>, m: nat, r: real)
    requires s != [] && m <= |s| <= 2 * m && m <= CountIn(s, r, r) && Ascending(s, Identity)
    requires forall i :: 0 <= i < |s| ==> 0.0 <= s[i]
    ensures r / 2.0 <= Middle(s)
  {
    var mid := |s| / 2;
    if s[mid] < r {
      forall i | 0 <= i < mid + 1 ensures s[i] < r {
        Ordered(s, i, mid);
      }
      CountWithHeadBelow(s, mid + 1, r, r);
    }
  }

  lemma {:induction false} MiddleWithin(s: seq<real>, lo: real, hi: real)
    requires s != [] && Ascending(s, Identity) && |s| < 2 * CountIn(s, lo, hi)
    ensures lo <= Middle(s) <= hi
  {
    var mid := |s| / 2;
    MiddleInMajority(s, mid, lo, hi);
    if |s| % 2 == 0 {
      MiddleInMajority(s, mid - 1, lo, hi);
    }
  }

  lemma {:induction false} AllInside(values: seq<real>, lo: real, hi: real)
    requires forall i :: 0 <= i < |values| ==> lo <= values[i] <= hi
    ensures CountIn(values, lo, hi) == |values|
  {
    CountWithHeadInside(values, |values|, lo, hi);
  }

  lemma {:induction false} UpperBound(values: seq<real>) returns (hi: real)
    ensures forall i :: 0 <= i < |values| ==> values[i] <= hi
  {
    if values == [] {
      hi := 0.0;
    } else {
      hi := UpperBound(values[..|values| - 1]);
      if hi < values[|values| - 1] {
        hi := values[|values| - 1];
      }
    }
  }

  lemma {:induction false} MedianNonNegative(values: seq<real>)
    requires forall i :: 0 <= i < |values| ==> 0.0 <= values[i]
    ensures 0.0 <= Median(values)
  {
    if values != [] {
      var hi := UpperBound(values);
      AllInside(values, 0.0, hi);
      MedianInMajority(values, 0.0, hi);
    }
  }

  /** At least half of a list of non-negative numbers does not exceed its median, hence three times its median. */
  lemma {:induction false} HalfWithinTriple(values: seq<real>)
    requires forall i :: 0 <= i < |values| ==> 0.0 <= values[i]
    ensures |values| <= 2 * CountIn(values, 0.0, 3.0 * Median(values))
  {
    if values != [] {
      MedianNonNegative(values);
      SortNonNegative(values);
      HalfWithinCut(values, SortBy(values, Identity), 3.0 * Median(values));
    }
  }

  lemma {:induction false} HalfWithinCut(values: seq<real>, s: seq<real>, cut: real)
    requires values != [] && s == SortBy(values, Identity) && Middle(s) <= cut
    requires forall i :: 0 <= i < |s| ==> 0.0 <= s[i]
    ensures |values| <= 2 * CountIn(values, 0.0, cut)
  {
    SortAscends(values, Identity);
    CountSort(values, 0.0, cut);
    LowerHalfWithin(s, cut);
  }

  lemma {:induction false} SortNonNegative(values: seq<real>)
    requires forall i :: 0 <= i < |values| ==> 0.0 <= values[i]
    ensures forall i :: 0 <= i < |values| ==> 0.0 <= SortBy(values, Identity)[i]
  {
    forall i | 0 <= i < |values| ensures 0.0 <= SortBy(values, Identity)[i] {
      SortMember(values, Identity, i);
    }
  }

  lemma {:induction false} LowerHalfWithin(s: seq<real>, cut: real)
    requires s != [] && Ascending(s, Identity) && forall i :: 0 <= i < |s| ==> 0.0 <= s[i]
    requires Middle(s) <= cut
    ensures |s| <= 2 * CountIn(s, 0.0, cut)
  {
    var k := (|s| + 1) / 2;
    if |s| % 2 == 0 {
      Ordered(s, k - 1, k);
    }
    forall i | 0 <= i < k ensures 0.0 <= s[i] <= cut {
      Ordered(s, i, k - 1);
    }
    CountWithHeadInside(s, k, 0.0, cut);
  }

  /** Sum of squared deviations from c. */
  function SquaredDeviation(values: seq<real>, c: real): real {
    if values == [] then 0.0 else
      var d := values[|values| - 1] - c;
      SquaredDeviation(values[..|values| - 1], c) + d * d
  }

  /** How many values are further than r away from c. */
  function CountFar(values: seq<real>, c: real, r: real): nat {
    if values == [] then 0 else
      CountFar(values[..|values| - 1], c, r) + if r < Abs(values[|values| - 1] - c) then 1 else 0
  }

  function StdDev(values: seq<real>, mean: real, root: real -> real): real {
    if |values| < 2 then 0.0 else root(SquaredDeviation(values, mean) / |values| as real)
  }

  lemma {:induction false} SquaredDeviationNonNegative(values: seq<real>, c: real)
    ensures 0.0 <= SquaredDeviation(values, c)
  {
    if values != [] {
      SquaredDeviationNonNegative(values[..|values| - 1], c);
      var d := values[|values| - 1] - c;
      assert 0.0 <= d * d;
    }
  }

  /** Each value beyond r contributes more than r squared to the squared deviation. */
  lemma {:induction false} FarCost(values: seq<real>, c: real, r: real, rr: real)
    requires 0.0 <= r && rr == r * r
    ensures Times(rr, CountFar(values, c, r)) <= SquaredDeviation(values, c)
    ensures 0 < CountFar(values, c, r) ==> Times(rr, CountFar(values, c, r)) < SquaredDeviation(values, c)
  {
    if values != [] {
      var init, d := values[..|values| - 1], values[|values| - 1] - c;
      FarCost(init, c, r, rr);
      assert 0.0 <= d * d;
      assert SquaredDeviation(values, c) == SquaredDeviation(init, c) + d * d;
      if r < Abs(d) {
        TimesSuccessor(rr, CountFar(init, c, r));
        SquareStrict(Abs(d), r);
        assert Abs(d) * Abs(d) == d * d;
        assert rr < d * d;
        assert CountFar(values, c, r) == CountFar(init, c, r) + 1;
      } else {
        assert CountFar(values, c, r) == CountFar(init, c, r);
      }
    }
  }

  /** Discrete Chebyshev about the median: three standard deviations leave out nobody, or strictly fewer than a ninth. */
  lemma {:induction false} FewBeyondThreeSigma(values: seq<real>, root: real -> real)
    requires IsSqrt(root)
    ensures var m := Median(values);
            var far := CountFar(values, m, 3.0 * StdDev(values, m, root));
            far == 0 || 9 * far < |values|
  {
    var m := Median(values);
    if |values| == 1 {
      SingleIsNotFar(values);
    } else if |values| >= 2 {
      FewBeyondThreeDeviations(values, m, root);
    }
  }

  lemma {:induction false} SingleIsNotFar(values: seq<real>)
    requires |values| == 1
    ensures CountFar(values, Median(values), 0.0) == 0
  {
    SortMember(values, Identity, 0);
    var m := Median(values);
    assert m == SortBy(values, Identity)[0] == values[0];
    assert CountFar(values[..0], m, 0.0) == 0;
  }

  lemma {:induction false} FewBeyondThreeDeviations(values: seq<real>, m: real, root: real -> real)
    requires IsSqrt(root) && 2 <= |values|
    ensures var far := CountFar(values, m, 3.0 * StdDev(values, m, root)); far == 0 || 9 * far < |values|
  {
    var n, dev := |values| as real, SquaredDeviation(values, m);
    SquaredDeviationNonNegative(values, m);
    var sd := StdDev(values, m, root);
    assert 0.0 <= dev / n;
    assert sd * sd == dev / n && 0.0 <= sd;
    var q := sd * sd;
    var far := CountFar(values, m, 3.0 * sd);
    FarCost(values, m, 3.0 * sd, 9.0 * q);
    if 0 < far {
      assert dev == q * n;
      assert Times(9.0 * q, far) == q * (9.0 * far as real);
      ScaleCancel(q, 9.0 * far as real, n);
    }
  }

  lemma {:induction false} ScaleCancel(q: real, x: real, y: real)
    requires 0.0 <= q && q * x < q * y
    ensures x < y
  {
    if y <= x {
      ProductNonNegative(q, x - y);
    }
  }
}
