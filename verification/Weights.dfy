/** Dominance in terms of weighted scores. */
module Weights {
  import opened Sums
  import opened Pareto

  /** The score of a record under weights. */
  function Weighted(s: Scores, w: string -> real): string -> real {
    key => w(key) * if key in s then s[key] else 0.0
  }

  ghost function Score(s: Scores, keys: set<string>, w: string -> real): real {
    SumOver(keys, Weighted(s, w))
  }

  ghost predicate AllPositive(w: string -> real) {
    forall key :: 0.0 < w(key)
  }

  /** Under every positive weighting b scores higher. */
  ghost predicate AlwaysHigher(a: Scores, b: Scores) {
    forall w: string -> real :: AllPositive(w) ==> Score(a, a.Keys + b.Keys, w) < Score(b, a.Keys + b.Keys, w)
  }

  function Ones(): string -> real {
    _ => 1.0
  }

  function OnesBut(key: string, m: real): string -> real {
    k => if k == key then m else 1.0
  }

  lemma WeightKeepsOrder(w: real, x: real, y: real)
    requires 0.0 < w
    ensures x <= y ==> w * x <= w * y
    ensures x < y ==> w * x < w * y
  {
    if x < y {
      assert 0.0 < w * (y - x);
    }
  }

  lemma TermsKeepOrder(a: Scores, b: Scores, w: string -> real, k: string)
    requires 0.0 < w(k)
    ensures Get(a, k) <= Get(b, k) ==> Weighted(a, w)(k) <= Weighted(b, w)(k)
    ensures Get(a, k) < Get(b, k) ==> Weighted(a, w)(k) < Weighted(b, w)(k)
  {
    WeightKeepsOrder(w(k), Get(a, k), Get(b, k));
  }

  lemma DominatingScoresHigher(a: Scores, b: Scores, w: string -> real)
    requires IsDominated(a, b) && AllPositive(w)
    ensures Score(a, a.Keys + b.Keys, w) < Score(b, a.Keys + b.Keys, w)
  {
    hide Weighted, SumOver, Get;
    var keys := a.Keys + b.Keys;
    var key :| key in keys && Get(a, key) < Get(b, key);
    forall k | k in keys ensures Weighted(a, w)(k) <= Weighted(b, w)(k) {
      assert Get(a, k) <= Get(b, k);
      TermsKeepOrder(a, b, w, k);
    }
    TermsKeepOrder(a, b, w, key);
    SumRemove(keys, Weighted(a, w), key);
    SumRemove(keys, Weighted(b, w), key);
    SumMonotone(keys - {key}, Weighted(a, w), Weighted(b, w));
  }

  /** A weight large enough for one advantage to outweigh everything else. */
  lemma Outweighs(d: real, more: real) returns (m: real)
    requires 0.0 < d
    ensures 0.0 < m && more <= m * d
  {
    if more <= 0.0 {
      m := 1.0;
      assert more <= m * d;
    } else {
      m := 1.0 + more / d;
      assert (more / d) * d == more;
      assert m * d == d + more;
    }
  }

  /** The score when one dimension weighs m and the others one. */
  lemma ScoreWithOne(s: Scores, keys: set<string>, key: string, m: real)
    requires key in keys
    ensures Score(s, keys, OnesBut(key, m)) == m * Get(s, key) + SumOver(keys - {key}, Weighted(s, Ones()))
  {
    SumAgree(keys - {key}, Weighted(s, OnesBut(key, m)), Weighted(s, Ones()));
    assert Weighted(s, OnesBut(key, m))(key) == m * Get(s, key);
    hide Weighted, SumOver, OnesBut;
    SumRemove(keys, Weighted(s, OnesBut(key, m)), key);
  }

  /** A record that is better in one dimension scores higher under some positive weighting. */
  lemma SomeWeightPrefers(a: Scores, b: Scores, key: string) returns (w: string -> real)
    requires key in a.Keys + b.Keys && Get(b, key) < Get(a, key)
    ensures AllPositive(w) && Score(b, a.Keys + b.Keys, w) <= Score(a, a.Keys + b.Keys, w)
  {
    var keys := a.Keys + b.Keys;
    var x, y := SumOver(keys - {key}, Weighted(a, Ones())), SumOver(keys - {key}, Weighted(b, Ones()));
    var m := Outweighs(Get(a, key) - Get(b, key), y - x);
    w := OnesBut(key, m);
    ScoreWithOne(a, keys, key, m);
    ScoreWithOne(b, keys, key, m);
    assert AllPositive(w);
    hide Score, SumOver, Weighted, OnesBut, Get;
    Distribute(m, Get(a, key), Get(b, key));
  }

  lemma Distribute(m: real, x: real, y: real)
    ensures m * (x - y) == m * x - m * y
  {}

  /** One record dominates another exactly if it scores higher under every positive weighting of the dimensions. */
  lemma {:induction false} DominatedIff(a: Scores, b: Scores)
    ensures IsDominated(a, b) <==> AlwaysHigher(a, b)
  {
    var keys := a.Keys + b.Keys;
    if IsDominated(a, b) {
      forall w: string -> real | AllPositive(w) ensures Score(a, keys, w) < Score(b, keys, w) {
        DominatingScoresHigher(a, b, w);
      }
    } else if key :| key in keys && Get(b, key) < Get(a, key) {
      var w := SomeWeightPrefers(a, b, key);
      hide Score, Weighted;
    } else {
      SumMonotone(keys, Weighted(b, Ones()), Weighted(a, Ones()));
      assert AllPositive(Ones());
    }
  }

  /** The best of a list is the first one whose scores add up to the most. */
  lemma {:induction false} BestIsFirst(ps: seq<Point>) returns (i: nat)
    requires ps != []
    ensures i < |ps| && ps[i] == FirstBest(ps)
    ensures forall j :: 0 <= j < |ps| ==> SumOver(ps[j].scores.Keys, Weighted(ps[j].scores, Ones())) <= SumOver(ps[i].scores.Keys, Weighted(ps[i].scores, Ones()))
    ensures forall j :: 0 <= j < i ==> SumOver(ps[j].scores.Keys, Weighted(ps[j].scores, Ones())) < SumOver(ps[i].scores.Keys, Weighted(ps[i].scores, Ones()))
  {
    forall p | p in ps ensures SumOver(p.scores.Keys, Weighted(p.scores, Ones())) == ScoreSum(p.scores) {
      SumAgree(p.scores.Keys, Weighted(p.scores, Ones()), ScoreAt(p.scores));
    }
    hide Weighted, ScoreSum;
    i := FirstOf(ps);
  }

  lemma {:induction false} FirstOf(ps: seq<Point>) returns (i: nat)
    requires ps != []
    ensures i < |ps| && ps[i] == FirstBest(ps)
    ensures forall j :: 0 <= j < |ps| ==> ScoreSum(ps[j].scores) <= ScoreSum(ps[i].scores)
    ensures forall j :: 0 <= j < i ==> ScoreSum(ps[j].scores) < ScoreSum(ps[i].scores)
  {
    hide ScoreSum;
    if |ps| == 1 {
      i := 0;
    } else {
      var init, last := ps[..|ps| - 1], ps[|ps| - 1];
      i := FirstOf(init);
      assert ps == init + [last];
      FirstBestAppend(init, last);
      hide FirstBest;
      if ScoreSum(last.scores) > ScoreSum(FirstBest(init).scores) {
        i := |ps| - 1;
      }
    }
  }
}
