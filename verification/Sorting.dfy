/** The stable sort of the runtime library, as a function of the keys it compares: the result is a permutation in the order
    of the keys, and entries with the same key stay in the order they came in. It serves wherever entries are ranked. */
module Sorting {

  ghost predicate Ascending<T>(xs: seq<T>, key: T -> real) {
    forall i, j :: 0 <= i < j < |xs| ==> key(xs[i]) <= key(xs[j])
  }

  /** Puts x behind the elements whose key does not exceed its own. */
  function Insert<T>(xs: seq<T>, x: T, key: T -> real): (r: seq<T>)
    ensures |r| == |xs| + 1
  {
    if xs == [] || key(xs[|xs| - 1]) <= key(x) then xs + [x]
    else Insert(xs[..|xs| - 1], x, key) + [xs[|xs| - 1]]
  }

  function SortBy<T>(xs: seq<T>, key: T -> real): (r: seq<T>)
    ensures |r| == |xs|
  {
    if xs == [] then [] else Insert(SortBy(xs[..|xs| - 1], key), xs[|xs| - 1], key)
  }

  /** The elements with key v, in order of occurrence. */
  function WithKey<T>(xs: seq<T>, key: T -> real, v: real): seq<T> {
    if xs == [] then [] else
      WithKey(xs[..|xs| - 1], key, v) + if key(xs[|xs| - 1]) == v then [xs[|xs| - 1]] else []
  }

  ghost predicate SameWithKeys<T>(xs: seq<T>, ys: seq<T>, key: T -> real) {
    forall v :: WithKey(xs, key, v) == WithKey(ys, key, v)
  }

  lemma AscendingAppend<T>(xs: seq<T>, x: T, key: T -> real)
    requires Ascending(xs, key) && forall i :: 0 <= i < |xs| ==> key(xs[i]) <= key(x)
    ensures Ascending(xs + [x], key)
  {}

  lemma AscendingInit<T>(xs: seq<T>, x: T, key: T -> real)
    requires Ascending(xs + [x], key)
    ensures Ascending(xs, key) && forall i :: 0 <= i < |xs| ==> key(xs[i]) <= key(x)
  {
    var all := xs + [x];
    assert all[|xs|] == x && forall i :: 0 <= i < |xs| ==> all[i] == xs[i];
  }

  /** Whatever permutes init and x stays below a bound of both. */
  lemma MembersBelow<T>(r: seq<T>, init: seq<T>, x: T, key: T -> real, bound: real)
    requires multiset(r) == multiset(init) + multiset{x}
    requires key(x) <= bound && forall i :: 0 <= i < |init| ==> key(init[i]) <= bound
    ensures forall i :: 0 <= i < |r| ==> key(r[i]) <= bound
  {
    forall i | 0 <= i < |r| ensures key(r[i]) <= bound {
      assert r[i] in multiset(r);
      if r[i] != x {
        assert r[i] in multiset(init) && r[i] in init;
      }
    }
  }

  lemma {:induction false} InsertCases<T>(xs: seq<T>, x: T, key: T -> real)
    ensures xs == [] ==> Insert(xs, x, key) == [x]
    ensures xs != [] ==>
      var init, last := xs[..|xs| - 1], xs[|xs| - 1];
      && xs == init + [last]
      && Insert(xs, x, key) == if key(last) <= key(x) then xs + [x] else Insert(init, x, key) + [last]
  {}

  lemma {:induction false} InsertPermutes<T>(xs: seq<T>, x: T, key: T -> real)
    ensures multiset(Insert(xs, x, key)) == multiset(xs) + multiset{x}
  {
    InsertCases(xs, x, key);
    hide Insert;
    if xs != [] && key(x) < key(xs[|xs| - 1]) {
      InsertPermutes(xs[..|xs| - 1], x, key);
    }
  }

  lemma {:induction false} InsertIntoAscending<T>(xs: seq<T>, x: T, key: T -> real)
    requires Ascending(xs, key)
    ensures Ascending(Insert(xs, x, key), key)
  {
    InsertCases(xs, x, key);
    if xs != [] {
      var init, last := xs[..|xs| - 1], xs[|xs| - 1];
      hide Insert, Ascending;
      AscendingInit(init, last, key);
      if key(x) < key(last) {
        InsertIntoAscending(init, x, key);
        InsertPermutes(init, x, key);
        MembersBelow(Insert(init, x, key), init, x, key, key(last));
        AscendingAppend(Insert(init, x, key), last, key);
      } else {
        AscendingAppend(xs, x, key);
      }
    }
  }

  /** Sorting yields an ascending permutation. */
  lemma {:induction false} SortSorts<T>(xs: seq<T>, key: T -> real)
    ensures Ascending(SortBy(xs, key), key)
    ensures multiset(SortBy(xs, key)) == multiset(xs)
  {
    if xs != [] {
      var init, last := xs[..|xs| - 1], xs[|xs| - 1];
      assert xs == init + [last];
      SortSorts(init, key);
      InsertIntoAscending(SortBy(init, key), last, key);
      InsertPermutes(SortBy(init, key), last, key);
    }
  }

  /** Sorting invents no element. */
  lemma {:induction false} SortMember<T>(xs: seq<T>, key: T -> real, i: nat)
    requires i < |xs|
    ensures SortBy(xs, key)[i] in xs
  {
    SortSorts(xs, key);
    assert SortBy(xs, key)[i] in multiset(SortBy(xs, key));
  }

  lemma {:induction false} SortAscends<T>(xs: seq<T>, key: T -> real)
    ensures Ascending(SortBy(xs, key), key)
  {
    SortSorts(xs, key);
  }

  lemma {:induction false} InsertStable<T>(xs: seq<T>, x: T, key: T -> real, v: real)
    requires Ascending(xs, key)
    ensures WithKey(Insert(xs, x, key), key, v) == WithKey(xs + [x], key, v)
  {
    if xs != [] && key(x) < key(xs[|xs| - 1]) {
      var init, last := xs[..|xs| - 1], xs[|xs| - 1];
      InsertStable(init, x, key, v);
      assert (Insert(init, x, key) + [last])[..|xs|] == Insert(init, x, key);
      assert (init + [x])[..|xs| - 1] == init;
      assert (xs + [x])[..|xs|] == xs;
    }
  }

  /** Sorting keeps the order among equal keys. */
  lemma {:induction false} SortStable<T>(xs: seq<T>, key: T -> real, v: real)
    ensures WithKey(SortBy(xs, key), key, v) == WithKey(xs, key, v)
  {
    if xs != [] {
      var init, last := xs[..|xs| - 1], xs[|xs| - 1];
      SortStable(init, key, v);
      SortSorts(init, key);
      InsertStable(SortBy(init, key), last, key, v);
      assert (SortBy(init, key) + [last])[..|init|] == SortBy(init, key);
    }
  }

  lemma {:induction false} WithKeyMember<T>(xs: seq<T>, key: T -> real, v: real)
    ensures WithKey(xs, key, v) != [] ==> exists i :: 0 <= i < |xs| && key(xs[i]) == v
  {
    if xs != [] && key(xs[|xs| - 1]) != v {
      WithKeyMember(xs[..|xs| - 1], key, v);
      assert WithKey(xs, key, v) == WithKey(xs[..|xs| - 1], key, v);
    }
  }

  lemma {:induction false} LastIsGreatest<T>(xs: seq<T>, ys: seq<T>, key: T -> real)
    requires Ascending(ys, key) && SameWithKeys(xs, ys, key) && xs != []
    ensures ys != [] && key(xs[|xs| - 1]) <= key(ys[|ys| - 1])
  {
    var v := key(xs[|xs| - 1]);
    assert WithKey(ys, key, v) == WithKey(xs, key, v) != [];
    WithKeyMember(ys, key, v);
  }

  lemma AppendInjective<T>(xs: seq<T>, x: T, ys: seq<T>, y: T)
    requires xs + [x] == ys + [y]
    ensures xs == ys && x == y
  {
    var zs := xs + [x];
    assert |zs| == |xs| + 1 == |ys| + 1;
    assert zs[|xs|] == x && zs[|ys|] == y;
    assert xs == zs[..|xs|] && ys == zs[..|ys|];
  }

  /** An ascending, stable rearrangement is unique, so the library sort can only be SortBy. */
  lemma {:induction false} StableSortUnique<T>(xs: seq<T>, ys: seq<T>, key: T -> real)
    requires Ascending(xs, key) && Ascending(ys, key) && SameWithKeys(xs, ys, key)
    ensures xs == ys
    decreases |xs|
  {
    if xs == [] {
      if ys != [] {
        LastIsGreatest(ys, xs, key);
      }
    } else {
      LastIsGreatest(xs, ys, key);
      LastIsGreatest(ys, xs, key);
      var xs', ys' := xs[..|xs| - 1], ys[..|ys| - 1];
      var x, y := xs[|xs| - 1], ys[|ys| - 1];
      assert WithKey(xs, key, key(x)) == WithKey(ys, key, key(x));
      AppendInjective(WithKey(xs', key, key(x)), x, WithKey(ys', key, key(x)), y);
      forall w ensures WithKey(xs', key, w) == WithKey(ys', key, w) {
        assert WithKey(xs, key, w) == WithKey(ys, key, w);
        if w != key(x) {
          assert WithKey(xs, key, w) == WithKey(xs', key, w);
          assert WithKey(ys, key, w) == WithKey(ys', key, w);
        }
      }
      StableSortUnique(xs', ys', key);
      assert xs == xs' + [x] && ys == ys' + [y];
    }
  }

  lemma {:induction false} SortedIsFixed<T>(xs: seq<T>, key: T -> real)
    requires Ascending(xs, key)
    ensures SortBy(xs, key) == xs
  {
    SortSorts(xs, key);
    forall v ensures WithKey(SortBy(xs, key), key, v) == WithKey(xs, key, v) {
      SortStable(xs, key, v);
    }
    StableSortUnique(SortBy(xs, key), xs, key);
  }

  /** The first position whose key is smallest. */
  function FirstMin<T>(xs: seq<T>, key: T -> real): (i: nat)
    requires xs != []
    ensures i < |xs|
    ensures forall j :: 0 <= j < |xs| ==> key(xs[i]) <= key(xs[j])
    ensures forall j :: 0 <= j < i ==> key(xs[i]) < key(xs[j])
  {
    if |xs| == 1 then 0 else
      var i := FirstMin(xs[..|xs| - 1], key);
      if key(xs[|xs| - 1]) < key(xs[i]) then |xs| - 1 else i
  }

  lemma {:induction false} InsertHead<T>(xs: seq<T>, x: T, key: T -> real)
    requires Ascending(xs, key) && xs != []
    ensures Insert(xs, x, key)[0] == if key(x) < key(xs[0]) then x else xs[0]
  {
    if |xs| > 1 && key(x) < key(xs[|xs| - 1]) {
      InsertHead(xs[..|xs| - 1], x, key);
    }
  }

  /** Sorting puts the first of the smallest elements in front. */
  lemma {:induction false} SortHead<T>(xs: seq<T>, key: T -> real)
    requires xs != []
    ensures SortBy(xs, key)[0] == xs[FirstMin(xs, key)]
  {
    var init, last := xs[..|xs| - 1], xs[|xs| - 1];
    if |xs| > 1 {
      var sorted := SortBy(init, key);
      SortSorts(init, key);
      InsertHead(sorted, last, key);
      SortHead(init, key);
      var i := FirstMin(init, key);
      assert sorted[0] == init[i] == xs[i];
    }
  }
}
