/** Finite sums of exact reals over sets, and products with natural numbers. Sums do not depend on the order in which their
    terms are taken, which is what the loops over maps rely on; they are monotone and split over disjoint sets. */
module Sums {

  /** The sum of f over s; the order in which s is enumerated does not matter (SumRemove). */
  ghost function SumOver<K>(s: set<K>, f: K -> real): (total: real) {
    if s == {} then 0.0 else
      var k :| k in s;
      f(k) + SumOver(s - {k}, f)
  }

  lemma {:induction false} SumRemove<K>(s: set<K>, f: K -> real, k: K)
    requires k in s
    ensures SumOver(s, f) == f(k) + SumOver(s - {k}, f)
    decreases |s|
  {
    var p :| p in s && SumOver(s, f) == f(p) + SumOver(s - {p}, f);
    if p != k {
      SumRemove(s - {p}, f, k);
      SumRemove(s - {k}, f, p);
      assert s - {p} - {k} == s - {k} - {p};
    }
  }

  lemma {:induction false} SumInsert<K>(s: set<K>, f: K -> real, k: K)
    requires k !in s
    ensures SumOver(s + {k}, f) == f(k) + SumOver(s, f)
  {
    SumRemove(s + {k}, f, k);
    assert s + {k} - {k} == s;
  }

  lemma {:induction false} SumUnion<K>(s: set<K>, t: set<K>, f: K -> real)
    requires s !! t
    ensures SumOver(s + t, f) == SumOver(s, f) + SumOver(t, f)
    decreases |s|
  {
    if s == {} {
      assert s + t == t;
    } else {
      var k :| k in s;
      SumRemove(s, f, k);
      SumRemove(s + t, f, k);
      assert s + t - {k} == (s - {k}) + t;
      SumUnion(s - {k}, t, f);
    }
  }

  /** Sums are monotone in the summand. */
  lemma {:induction false} SumMonotone<K>(s: set<K>, f: K -> real, g: K -> real)
    requires forall k :: k in s ==> f(k) <= g(k)
    ensures SumOver(s, f) <= SumOver(s, g)
    decreases |s|
  {
    if s != {} {
      var k :| k in s;
      SumRemove(s, f, k);
      SumRemove(s, g, k);
      SumMonotone(s - {k}, f, g);
    }
  }

  lemma {:induction false} SumAgree<K>(s: set<K>, f: K -> real, g: K -> real)
    requires forall k :: k in s ==> f(k) == g(k)
    ensures SumOver(s, f) == SumOver(s, g)
  {
    SumMonotone(s, f, g);
    SumMonotone(s, g, f);
  }

  function Times(c: real, n: nat): real {
    c * n as real
  }

  lemma TimesSuccessor(c: real, n: nat)
    ensures Times(c, n + 1) == Times(c, n) + c
  {
    assert (n + 1) as real == n as real + 1.0;
  }

  /** A sum over s is at most |s| times an upper bound of its terms. */
  lemma {:induction false} SumAtMost<K>(s: set<K>, f: K -> real, hi: real)
    requires forall k :: k in s ==> f(k) <= hi
    ensures SumOver(s, f) <= Times(hi, |s|)
    decreases |s|
  {
    if s != {} {
      var k :| k in s;
      var n := |s - {k}|;
      SumRemove(s, f, k);
      SumAtMost(s - {k}, f, hi);
      TimesSuccessor(hi, n);
      assert |s| == n + 1;
    }
  }

  lemma {:induction false} SumAtLeast<K>(s: set<K>, f: K -> real, lo: real)
    requires forall k :: k in s ==> lo <= f(k)
    ensures Times(lo, |s|) <= SumOver(s, f)
    decreases |s|
  {
    if s != {} {
      var k :| k in s;
      var n := |s - {k}|;
      SumRemove(s, f, k);
      SumAtLeast(s - {k}, f, lo);
      TimesSuccessor(lo, n);
      assert |s| == n + 1;
    }
  }

  /** Keys on which f is zero do not contribute. */
  lemma {:induction false} SumZero<K>(s: set<K>, f: K -> real)
    requires forall k :: k in s ==> f(k) == 0.0
    ensures SumOver(s, f) == 0.0
  {
    SumAtMost(s, f, 0.0);
    SumAtLeast(s, f, 0.0);
  }

  /** Two summands that agree outside part differ in total only by what they do on part. */
  lemma {:induction false} SumChangeOn<K>(all: set<K>, part: set<K>, f: K -> real, g: K -> real)
    requires part <= all && forall k :: k in all && k !in part ==> f(k) == g(k)
    ensures SumOver(all, f) == SumOver(all, g) - SumOver(part, g) + SumOver(part, f)
  {
    assert (all - part) + part == all;
    SumUnion(all - part, part, f);
    SumUnion(all - part, part, g);
    SumAgree(all - part, f, g);
  }

  lemma {:induction false} SumExchange<K>(s: set<K>, f: K -> real, i: K, j: K)
    requires j in s && i !in s && f(j) <= f(i)
    ensures SumOver(s, f) <= SumOver(s - {j} + {i}, f)
    ensures |s - {j} + {i}| == |s|
  {
    SumRemove(s, f, j);
    SumInsert(s - {j}, f, i);
  }

  lemma {:induction false} SubsetSize<K>(a: set<K>, b: set<K>)
    requires a <= b
    ensures |a| <= |b|
    decreases |a|
  {
    if a != {} {
      var x :| x in a;
      SubsetSize(a - {x}, b - {x});
    }
  }

  lemma {:induction false} MissingFrom<K>(kept: set<K>, other: set<K>, j: K) returns (i: K)
    requires |other| <= |kept| && j in other && j !in kept
    ensures i in kept && i !in other
  {
    if forall x :: x in kept ==> x in other {
      SubsetSize(kept, other - {j});
      assert false;
    }
    i :| i in kept && i !in other;
  }

  /** Exchange argument: if no key outside kept beats one inside, kept sums to at least any set no larger. */
  lemma {:induction false} DominatingSum<K>(kept: set<K>, other: set<K>, f: K -> real)
    requires |other| <= |kept|
    requires forall i :: i in kept ==> 0.0 <= f(i)
    requires forall i, j :: i in kept && j in other && j !in kept ==> f(j) <= f(i)
    ensures SumOver(other, f) <= SumOver(kept, f)
    decreases |other - kept|
  {
    hide SumOver;
    if forall x :: x in other ==> x in kept {
      SumUnion(other, kept - other, f);
      assert other + (kept - other) == kept;
      SumAtLeast(kept - other, f, 0.0);
      assert Times(0.0, |kept - other|) == 0.0;
    } else {
      var j :| j in other && j !in kept;
      var i := MissingFrom(kept, other, j);
      SumExchange(other, f, i, j);
      assert (other - {j} + {i}) - kept == other - kept - {j};
      DominatingSum(kept, other - {j} + {i}, f);
    }
  }
}
