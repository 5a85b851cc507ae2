/** Real vectors as sequences: inner products, the Cauchy-Schwarz inequality, and sums of vectors; the triangle
    inequality in terms of squared norms, so that bounds on norms need no square root until they are read off at the end. */
module Vectors {

  /** All that is assumed of the square root of the runtime. */
  ghost predicate IsSqrt(root: real -> real) {
    forall x: real :: 0.0 <= x ==> 0.0 <= root(x) && root(x) * root(x) == x
  }

  function Abs(x: real): real {
    if x < 0.0 then -x else x
  }

  /** Sum of a[i] * b[i] for i < n. */
  function Dot(a: seq<real>, b: seq<real>, n: nat): real
    requires n <= |a| && n <= |b|
  {
    if n == 0 then 0.0 else Dot(a, b, n - 1) + a[n - 1] * b[n - 1]
  }

  function NormSq(a: seq<real>): real {
    Dot(a, a, |a|)
  }

  lemma {:induction false} DotSymmetric(a: seq<real>, b: seq<real>, n: nat)
    requires n <= |a| && n <= |b|
    ensures Dot(a, b, n) == Dot(b, a, n)
  {
    if n > 0 {
      DotSymmetric(a, b, n - 1);
    }
  }

  lemma {:induction false} SquareNonNegative(a: seq<real>, n: nat)
    requires n <= |a|
    ensures 0.0 <= Dot(a, a, n)
  {
    if n > 0 {
      SquareNonNegative(a, n - 1);
    }
  }

  /** No square term exceeds the whole sum of squares. */
  lemma {:induction false} TermBelowSquare(a: seq<real>, n: nat, i: nat)
    requires i < n <= |a|
    ensures a[i] * a[i] <= Dot(a, a, n)
  {
    SquareNonNegative(a, n - 1);
    if i < n - 1 {
      TermBelowSquare(a, n - 1, i);
    }
  }

  lemma ProductNonNegative(x: real, y: real)
    requires 0.0 <= x && 0.0 <= y
    ensures 0.0 <= x * y
  {}

  lemma SquareStrict(x: real, y: real)
    requires 0.0 <= y < x
    ensures y * y < x * x
  {
    var u, w := x - y, x + y;
    assert 0.0 < u * w;
    assert u * w == x * x - y * y;
  }

  /** Squares compare as the non-negative numbers themselves. */
  lemma SquareOrder(x: real, y: real)
    requires 0.0 <= y && x * x <= y * y
    ensures -y <= x <= y
  {
    assert (-x) * (-x) == x * x;
    if y < x {
      SquareStrict(x, y);
    } else if y < -x {
      SquareStrict(-x, y);
    }
  }

  /** The step of Cauchy-Schwarz: adding one more coordinate. */
  lemma CauchySchwarzStep(d: real, a: real, b: real, x: real, y: real)
    requires 0.0 <= a && 0.0 <= b && d * d <= a * b
    ensures (d + x * y) * (d + x * y) <= (a + x * x) * (b + y * y)
  {
    var p := a * (y * y) + b * (x * x);
    var q := 2.0 * d * (x * y);
    assert 0.0 <= p by {
      ProductNonNegative(a, y * y);
      ProductNonNegative(b, x * x);
    }
    var r := a * (y * y) - b * (x * x);
    var t := (x * y) * (x * y);
    assert p * p - q * q == r * r + 4.0 * (a * b - d * d) * t;
    ProductNonNegative(a * b - d * d, t);
    assert q * q <= p * p;
    SquareOrder(q, p);
    assert (d + x * y) * (d + x * y) == d * d + q + t;
    assert (a + x * x) * (b + y * y) == a * b + p + t;
  }

  /** Cauchy-Schwarz over the first n coordinates. */
  lemma {:induction false} CauchySchwarz(a: seq<real>, b: seq<real>, n: nat)
    requires n <= |a| && n <= |b|
    ensures Dot(a, b, n) * Dot(a, b, n) <= Dot(a, a, n) * Dot(b, b, n)
  {
    if n > 0 {
      CauchySchwarz(a, b, n - 1);
      SquareNonNegative(a, n - 1);
      SquareNonNegative(b, n - 1);
      CauchySchwarzStep(Dot(a, b, n - 1), Dot(a, a, n - 1), Dot(b, b, n - 1), a[n - 1], b[n - 1]);
    }
  }

  function Plus(a: seq<real>, b: seq<real>): (c: seq<real>)
    requires |a| == |b|
    ensures |c| == |a|
    ensures forall i :: 0 <= i < |c| ==> c[i] == a[i] + b[i]
  {
    seq(|a|, i requires 0 <= i < |a| => a[i] + b[i])
  }

  lemma {:induction false} DotPlus(a: seq<real>, b: seq<real>, n: nat)
    requires |a| == |b| && n <= |a|
    ensures Dot(Plus(a, b), Plus(a, b), n) == Dot(a, a, n) + 2.0 * Dot(a, b, n) + Dot(b, b, n)
  {
    if n > 0 {
      DotPlus(a, b, n - 1);
      var c := Plus(a, b);
      hide Plus;
      assert c[n - 1] == a[n - 1] + b[n - 1];
      SumSquared(a[n - 1], b[n - 1]);
    }
  }

  lemma SumSquared(x: real, y: real)
    ensures (x + y) * (x + y) == x * x + 2.0 * (x * y) + y * y
  {}

  lemma ProductMonotone(p: real, q: real, x: real, y: real)
    requires 0.0 <= p <= x && 0.0 <= q <= y
    ensures p * q <= x * y
  {
    ProductNonNegative(x - p, q);
    ProductNonNegative(x, y - q);
    assert x * y - p * q == (x - p) * q + x * (y - q);
  }

  lemma TriangleArithmetic(p: real, q: real, d: real, r: real, s: real)
    requires 0.0 <= r && 0.0 <= s
    requires 0.0 <= p <= r * r && 0.0 <= q <= s * s && d * d <= p * q
    ensures p + 2.0 * d + q <= (r + s) * (r + s)
  {
    ProductMonotone(p, q, r * r, s * s);
    ProductNonNegative(r, s);
    var rs := r * s;
    assert rs * rs == (r * r) * (s * s);
    SquareOrder(d, rs);
    assert (r + s) * (r + s) == r * r + 2.0 * rs + s * s;
  }

  /** The triangle inequality, on bounds: |a| <= r and |b| <= s give |a + b| <= r + s. */
  lemma {:induction false} Triangle(a: seq<real>, b: seq<real>, r: real, s: real)
    requires |a| == |b| && 0.0 <= r && 0.0 <= s
    requires NormSq(a) <= r * r && NormSq(b) <= s * s
    ensures NormSq(Plus(a, b)) <= (r + s) * (r + s)
  {
    CauchySchwarz(a, b, |a|);
    SquareNonNegative(a, |a|);
    SquareNonNegative(b, |a|);
    DotPlus(a, b, |a|);
    TriangleArithmetic(NormSq(a), NormSq(b), Dot(a, b, |a|), r, s);
  }
}
