/** Keeping the coordinates of largest magnitude, as the compression of gradients does: no other choice of so many keeps
    more of the vector or comes closer to it. The dense and the sparse form. */
module TopK {
  import opened Vectors
  import opened Sums
  import opened Sorting

  function Positions(n: nat): (s: seq<int>)
    ensures |s| == n && forall i :: 0 <= i < n ==> s[i] == i
  {
    seq(n, i => i)
  }

  function Elements<T(==)>(xs: seq<T>): set<T> {
    set x | x in xs
  }

  function Range(n: nat): (r: set<int>)
    ensures |r| == n && forall i :: i in r <==> 0 <= i < n
  {
    if n == 0 then {} else Range(n - 1) + {n - 1}
  }

  /** Sorting ascending by this key is sorting descending by magnitude. */
  function ByMagnitude(v: seq<real>): int -> real {
    i => if 0 <= i < |v| then -Abs(v[i]) else 0.0
  }

  function Energy(v: seq<real>): int -> real {
    i => if 0 <= i < |v| then v[i] * v[i] else 0.0
  }

  function ErrorAt(v: seq<real>, w: seq<real>): int -> real {
    i => if 0 <= i < |v| && i < |w| then (v[i] - w[i]) * (v[i] - w[i]) else 0.0
  }

  /** The squared distance between v and w. */
  ghost function Distance(v: seq<real>, w: seq<real>): real {
    SumOver(Range(|v|), ErrorAt(v, w))
  }

  function Support(w: seq<real>): set<int> {
    set i | 0 <= i < |w| && w[i] != 0.0
  }

  function Min(a: nat, b: nat): nat {
    if a < b then a else b
  }

  /** The first k positions in order of decreasing magnitude. */
  function Largest(v: seq<real>, k: nat): seq<int> {
    SortBy(Positions(|v|), ByMagnitude(v))[..Min(k, |v|)]
  }

  function Kept(v: seq<real>, k: nat): set<int> {
    Elements(Largest(v, k))
  }

  /** v with everything but its k largest coordinates set to zero. */
  function Sparsified(v: seq<real>, k: nat): seq<real> {
    seq(|v|, i requires 0 <= i < |v| => if i in Kept(v, k) then v[i] else 0.0)
  }

  ghost predicate Distinct<T>(xs: seq<T>) {
    forall i, j :: 0 <= i < j < |xs| ==> xs[i] != xs[j]
  }

  lemma {:induction false} DistinctOccursOnce<T>(xs: seq<T>, x: T)
    requires Distinct(xs)
    ensures multiset(xs)[x] <= 1
  {
    if xs != [] {
      var init, last := xs[..|xs| - 1], xs[|xs| - 1];
      assert xs == init + [last];
      DistinctOccursOnce(init, x);
      assert x == last ==> x !in init;
    }
  }

  lemma {:induction false} PermutationDistinct<T>(xs: seq<T>, ys: seq<T>)
    requires Distinct(xs) && multiset(xs) == multiset(ys)
    ensures Distinct(ys)
  {
    forall i, j | 0 <= i < j < |ys| ensures ys[i] != ys[j] {
      DistinctOccursOnce(xs, ys[j]);
      assert ys == ys[..j] + [ys[j]] + ys[j + 1..];
      assert ys[i] in ys[..j];
      assert multiset(ys) == multiset(ys[..j]) + multiset{ys[j]} + multiset(ys[j + 1..]);
    }
  }

  lemma {:induction false} DistinctSize<T>(xs: seq<T>)
    requires Distinct(xs)
    ensures |Elements(xs)| == |xs|
  {
    if xs != [] {
      var init, last := xs[..|xs| - 1], xs[|xs| - 1];
      DistinctSize(init);
      assert Elements(xs) == Elements(init) + {last};
    }
  }

  lemma {:induction false} SameMembers<T>(xs: seq<T>, ys: seq<T>)
    requires multiset(xs) == multiset(ys)
    ensures forall x :: x in xs <==> x in ys
  {
    forall x ensures x in xs <==> x in ys {
      assert x in xs <==> x in multiset(xs);
      assert x in ys <==> x in multiset(ys);
    }
  }

  /** Cutting an ascending sequence: nothing behind the cut has a smaller key than anything before it. */
  lemma {:induction false} CutAscending<T>(s: seq<T>, key: T -> real, m: nat, x: T, y: T)
    requires Ascending(s, key) && m <= |s|
    requires x in s[..m] && y in s && y !in s[..m]
    ensures key(x) <= key(y)
  {
    var a :| 0 <= a < m && s[a] == x;
    var b :| 0 <= b < |s| && s[b] == y;
    assert s[..m][a] == x;
    assert m <= b;
    assert key(s[a]) <= key(s[b]);
  }

  lemma {:induction false} SortedPositions(v: seq<real>)
    ensures var s := SortBy(Positions(|v|), ByMagnitude(v));
            Distinct(s) && Ascending(s, ByMagnitude(v)) && forall i :: i in s <==> 0 <= i < |v|
  {
    var ps, key := Positions(|v|), ByMagnitude(v);
    SortSorts(ps, key);
    PermutationDistinct(ps, SortBy(ps, key));
    SameMembers(ps, SortBy(ps, key));
    forall i | 0 <= i < |v| ensures i in ps {
      assert ps[i] == i;
    }
  }

  lemma {:induction false} CutDominates(v: seq<real>, s: seq<int>, m: nat)
    requires m <= |s| && Ascending(s, ByMagnitude(v)) && forall i :: i in s <==> 0 <= i < |v|
    requires Distinct(s)
    ensures Dominates(v, Elements(s[..m]))
    ensures Elements(s[..m]) <= Range(|v|) && |Elements(s[..m])| == m
  {
    DistinctSize(s[..m]);
    forall i | i in s[..m] ensures i in Range(|v|) {
      assert i in s;
    }
    forall i, j | i in Elements(s[..m]) && j in Range(|v|) && j !in Elements(s[..m]) ensures Larger(v, i, j) {
      assert i in s[..m] && i in s;
      CutAscending(s, ByMagnitude(v), m, i, j);
    }
  }

  /** The kept positions: as many as asked for, and none outside them is larger in magnitude. */
  lemma {:induction false} KeptAreLargest(v: seq<real>, k: nat)
    ensures Kept(v, k) <= Range(|v|) && |Kept(v, k)| == Min(k, |v|)
    ensures Dominates(v, Kept(v, k))
  {
    var s, m := SortBy(Positions(|v|), ByMagnitude(v)), Min(k, |v|);
    SortedPositions(v);
    CutDominates(v, s, m);
  }

  predicate Larger(v: seq<real>, i: int, j: int) {
    0 <= i < |v| && 0 <= j < |v| && Abs(v[j]) <= Abs(v[i])
  }

  ghost predicate Dominates(v: seq<real>, kept: set<int>) {
    forall i, j :: i in kept && j in Range(|v|) && j !in kept ==> Larger(v, i, j)
  }

  lemma AbsSquares(x: real, y: real)
    requires Abs(x) <= Abs(y)
    ensures x * x <= y * y
  {
    assert x * x == Abs(x) * Abs(x) && y * y == Abs(y) * Abs(y);
    if Abs(x) < Abs(y) {
      SquareStrict(Abs(y), Abs(x));
    }
  }

  lemma EnergyFollowsMagnitude(v: seq<real>, i: int, j: int)
    requires Larger(v, i, j)
    ensures Energy(v)(j) <= Energy(v)(i)
  {
    AbsSquares(v[j], v[i]);
  }

  /** No set of positions carries more energy than a dominating one of at least its size. */
  lemma {:induction false} DominatingSetIsBest(v: seq<real>, kept: set<int>, other: set<int>)
    requires kept <= Range(|v|) && other <= Range(|v|) && |other| <= |kept|
    requires Dominates(v, kept)
    ensures SumOver(other, Energy(v)) <= SumOver(kept, Energy(v))
  {
    forall i, j | i in kept && j in other && j !in kept ensures Energy(v)(j) <= Energy(v)(i) {
      EnergyFollowsMagnitude(v, i, j);
    }
    EnergyNonNegative(v, kept);
    DominatingSum(kept, other, Energy(v));
  }

  lemma EnergyNonNegative(v: seq<real>, kept: set<int>)
    ensures forall i :: i in kept ==> 0.0 <= Energy(v)(i)
  {}

  lemma ErrorOfKept(v: seq<real>, r: seq<real>, kept: set<int>)
    requires |r| == |v| && kept <= Range(|v|)
    requires forall i :: 0 <= i < |v| ==> r[i] == if i in kept then v[i] else 0.0
    ensures forall i :: i in kept ==> ErrorAt(v, r)(i) == 0.0
    ensures forall i :: i in Range(|v|) && i !in kept ==> ErrorAt(v, r)(i) == Energy(v)(i)
  {
    forall i | 0 <= i < |v| ensures ErrorAt(v, r)(i) == if i in kept then 0.0 else Energy(v)(i) {
      ErrorValue(v[i], r[i]);
    }
  }

  lemma ErrorValue(x: real, y: real)
    ensures y == x ==> (x - y) * (x - y) == 0.0
    ensures y == 0.0 ==> (x - y) * (x - y) == x * x
  {}

  /** What is lost by keeping only the coordinates in kept: the energy of all the others. */
  lemma {:induction false} DistanceToKept(v: seq<real>, r: seq<real>, kept: set<int>)
    requires |r| == |v| && kept <= Range(|v|)
    requires forall i :: 0 <= i < |v| ==> r[i] == if i in kept then v[i] else 0.0
    ensures Distance(v, r) == SumOver(Range(|v|), Energy(v)) - SumOver(kept, Energy(v))
  {
    ErrorOfKept(v, r, kept);
    DistanceFrom(v, r, kept);
    SumZero(kept, ErrorAt(v, r));
  }

  lemma {:induction false} DistanceFrom(v: seq<real>, w: seq<real>, part: set<int>)
    requires part <= Range(|v|)
    requires forall i :: i in Range(|v|) && i !in part ==> ErrorAt(v, w)(i) == Energy(v)(i)
    ensures Distance(v, w) == SumOver(Range(|v|), Energy(v)) - SumOver(part, Energy(v)) + SumOver(part, ErrorAt(v, w))
  {
    SumChangeOn(Range(|v|), part, ErrorAt(v, w), Energy(v));
  }

  lemma ErrorOffSupport(v: seq<real>, w: seq<real>)
    requires |w| == |v|
    ensures forall i :: i in Range(|v|) && i !in Support(w) ==> ErrorAt(v, w)(i) == Energy(v)(i)
    ensures forall i :: i in Support(w) ==> 0.0 <= ErrorAt(v, w)(i)
  {
    forall i | 0 <= i < |v| ensures 0.0 <= ErrorAt(v, w)(i) {
      var d := v[i] - w[i];
      assert 0.0 <= d * d;
    }
  }

  lemma {:induction false} DistanceAtLeast(v: seq<real>, w: seq<real>)
    requires |w| == |v|
    ensures SumOver(Range(|v|), Energy(v)) - SumOver(Support(w), Energy(v)) <= Distance(v, w)
  {
    ErrorOffSupport(v, w);
    DistanceFrom(v, w, Support(w));
    SumAtLeast(Support(w), ErrorAt(v, w), 0.0);
    assert Times(0.0, |Support(w)|) == 0.0;
  }

  /** Top-k is the best approximation: no vector with at most as many non-zero coordinates is closer. */
  lemma {:induction false} SparsifiedIsClosest(v: seq<real>, k: nat, w: seq<real>)
    requires |w| == |v| && |Support(w)| <= k
    ensures Distance(v, Sparsified(v, k)) <= Distance(v, w)
    ensures |Support(Sparsified(v, k))| <= k
  {
    KeptAreLargest(v, k);
    SubsetSize(Support(w), Range(|v|));
    DominatingSetIsBest(v, Kept(v, k), Support(w));
    DistanceToKept(v, Sparsified(v, k), Kept(v, k));
    DistanceAtLeast(v, w);
    SubsetSize(Support(Sparsified(v, k)), Kept(v, k));
  }

  datatype Entry = Entry(v: real, i: int)

  datatype Sparse = Sparse(values: seq<real>, indices: seq<int>, compressionRatio: real)

  function Indexed(values: seq<real>): (es: seq<Entry>)
    ensures |es| == |values| && forall i :: 0 <= i < |es| ==> es[i] == Entry(values[i], i)
  {
    seq(|values|, i requires 0 <= i < |values| => Entry(values[i], i))
  }

  function EntryMagnitude(e: Entry): real {
    -Abs(e.v)
  }

  function EntryPosition(e: Entry): real {
    e.i as real
  }

  /** max(1, floor(n * ratio)) */
  function KeepCount(n: nat, ratio: real): nat {
    var k := (n as real * ratio).Floor;
    if k < 1 then 1 else k
  }

  /** The sparse form: keep the largest entries, then list them by position. */
  /** The number kept is the greatest that does not exceed the share, but at least one. */
  lemma KeepCountIs(n: nat, ratio: real)
    ensures 1 <= KeepCount(n, ratio) && n as real * ratio < KeepCount(n, ratio) as real + 1.0
    ensures KeepCount(n, ratio) == 1 || KeepCount(n, ratio) as real <= n as real * ratio
  {}

  function CompressGradients(values: seq<real>, ratio: real): Sparse {
    var sorted := SortBy(Indexed(values), EntryMagnitude);
    var topK := SortBy(sorted[..Min(KeepCount(|values|, ratio), |values|)], EntryPosition);
    Sparse(seq(|topK|, j requires 0 <= j < |topK| => topK[j].v),
           seq(|topK|, j requires 0 <= j < |topK| => topK[j].i),
           ratio)
  }

  /** The first m entries in order of magnitude. */
  lemma {:induction false} HeadEntries(values: seq<real>, m: nat)
    requires m <= |values|
    ensures var head := SortBy(Indexed(values), EntryMagnitude)[..m];
            && Distinct(head)
            && (forall e :: e in head ==> 0 <= e.i < |values| && e.v == values[e.i])
            && (forall e, f :: e in head && f in Indexed(values) && f !in head ==> Abs(f.v) <= Abs(e.v))
  {
    var es := Indexed(values);
    var sorted := SortBy(es, EntryMagnitude);
    SortSorts(es, EntryMagnitude);
    PermutationDistinct(es, sorted);
    SameMembers(es, sorted);
    forall e | e in sorted[..m] ensures 0 <= e.i < |values| && e.v == values[e.i] {
      assert e in sorted;
      assert e in es;
    }
    forall e, f | e in sorted[..m] && f in es && f !in sorted[..m] ensures Abs(f.v) <= Abs(e.v) {
      CutAscending(sorted, EntryMagnitude, m, e, f);
    }
  }

  /** Listing them by position keeps the same entries, now at strictly increasing positions. */
  lemma {:induction false} ByPosition(head: seq<Entry>)
    requires Distinct(head)
    requires forall e, f :: e in head && f in head && e.i == f.i ==> e == f
    ensures var topK := SortBy(head, EntryPosition);
            && (forall e :: e in topK <==> e in head)
            && (forall j, k :: 0 <= j < k < |topK| ==> topK[j].i < topK[k].i)
  {
    var topK := SortBy(head, EntryPosition);
    SortSorts(head, EntryPosition);
    PermutationDistinct(head, topK);
    SameMembers(head, topK);
    forall j, k | 0 <= j < k < |topK| ensures topK[j].i < topK[k].i {
      assert EntryPosition(topK[j]) <= EntryPosition(topK[k]);
      assert topK[j] in head && topK[k] in head;
    }
  }

  /**
    The sparse form lists existing positions in strictly increasing order with their own values, keeps
    min(max(1, floor(n * ratio)), n) of them, and no equally large set of positions carries more energy.
  */
  lemma {:induction false} CompressionIsBest(values: seq<real>, ratio: real, other: set<int>)
    requires other <= Range(|values|) && |other| <= KeepCount(|values|, ratio)
    ensures var r := CompressGradients(values, ratio);
            && |r.values| == |r.indices| == Min(KeepCount(|values|, ratio), |values|)
            && (forall j :: 0 <= j < |r.indices| ==> 0 <= r.indices[j] < |values| && r.values[j] == values[r.indices[j]])
            && (forall j, k :: 0 <= j < k < |r.indices| ==> r.indices[j] < r.indices[k])
            && SumOver(other, Energy(values)) <= SumOver(Elements(r.indices), Energy(values))
  {
    hide Indexed, SortBy, Elements, Range, KeepCount, Energy, Dominates, SumOver;
    var m := Min(KeepCount(|values|, ratio), |values|);
    var head := SortBy(Indexed(values), EntryMagnitude)[..m];
    var topK := SortBy(head, EntryPosition);
    HeadEntries(values, m);
    ByPosition(head);
    var r := CompressGradients(values, ratio);
    forall j | 0 <= j < m ensures 0 <= r.indices[j] < |values| && r.values[j] == values[r.indices[j]] {
      assert topK[j] in head;
    }
    IndicesDominate(values, head, topK, r.indices);
    DistinctSize(r.indices);
    SubsetSize(other, Range(|values|));
    DominatingSetIsBest(values, Elements(r.indices), other);
  }

  lemma {:induction false} IndicesDominate(values: seq<real>, head: seq<Entry>, topK: seq<Entry>, indices: seq<int>)
    requires forall e :: e in topK <==> e in head
    requires forall e :: e in head ==> 0 <= e.i < |values| && e.v == values[e.i]
    requires forall e, f :: e in head && f in Indexed(values) && f !in head ==> Abs(f.v) <= Abs(e.v)
    requires |indices| == |topK| && forall j :: 0 <= j < |topK| ==> indices[j] == topK[j].i
    ensures Elements(indices) <= Range(|values|) && Dominates(values, Elements(indices))
  {
    forall e | e in head ensures e.i in indices {
      var b :| 0 <= b < |topK| && topK[b] == e;
      assert indices[b] == e.i;
    }
    forall i | i in indices ensures 0 <= i < |values| && Entry(values[i], i) in head {
      var a :| 0 <= a < |indices| && indices[a] == i;
      assert topK[a] in head;
    }
    forall i, j | i in Elements(indices) && j in Range(|values|) && j !in Elements(indices) ensures Larger(values, i, j) {
      var e, f := Entry(values[i], i), Indexed(values)[j];
      assert e in head && f in Indexed(values) && f !in head;
    }
  }
}
