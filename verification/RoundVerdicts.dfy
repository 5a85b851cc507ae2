/** Who passes the checks of a round, and at what cost. */
module RoundVerdicts {
  import opened Sums
  import opened Vectors
  import opened Sorting
  import opened Statistics
  import opened Aggregation
  import opened Collection
  import TopK
  import opened Coordinator

  ghost predicate Rises(s: seq<real>) {
    forall i, j :: 0 <= i < j < |s| ==> s[i] <= s[j]
  }

  lemma LastsAgree(s: seq<real>, t: seq<real>)
    requires Rises(s) && Rises(t) && multiset(s) == multiset(t) && s != [] && t != []
    ensures s[|s| - 1] == t[|t| - 1]
  {
    assert s[|s| - 1] in multiset(t) && t[|t| - 1] in multiset(s);
    LastIsMost(s, t[|t| - 1]);
    LastIsMost(t, s[|s| - 1]);
  }

  lemma InitHas(s: seq<real>)
    requires s != []
    ensures multiset(s[..|s| - 1]) == multiset(s) - multiset{s[|s| - 1]}
  {
    assert s == s[..|s| - 1] + [s[|s| - 1]];
  }

  lemma PrefixRises(s: seq<real>)
    requires Rises(s) && s != []
    ensures Rises(s[..|s| - 1])
  {}

  /** Two rising sequences of the same values are the same. */
  lemma {:induction false} RisingUnique(s: seq<real>, t: seq<real>)
    requires Rises(s) && Rises(t) && multiset(s) == multiset(t)
    ensures s == t
  {
    assert |s| == |multiset(s)| == |multiset(t)| == |t|;
    if s != [] {
      LastsAgree(s, t);
      InitHas(s);
      InitHas(t);
      hide Rises;
      assert Rises(s[..|s| - 1]) && Rises(t[..|t| - 1]) by {
        PrefixRises(s);
        PrefixRises(t);
      }
      RisingUnique(s[..|s| - 1], t[..|t| - 1]);
      assert s == s[..|s| - 1] + [s[|s| - 1]] && t == t[..|t| - 1] + [t[|t| - 1]];
    }
  }

  lemma LastIsMost(s: seq<real>, x: real)
    requires Rises(s) && x in s
    ensures x <= s[|s| - 1]
  {}

  /** The median is the mean of the two middle values in rising order, or the middle one. */
  lemma {:induction false} MedianOfRanks(values: seq<real>, s: seq<real>)
    requires values != [] && Rises(s) && multiset(s) == multiset(values)
    ensures |s| == |values| && 2.0 * Median(values) == s[(|s| - 1) / 2] + s[|s| / 2]
  {
    SortSorts(values, Identity);
    var t := SortBy(values, Identity);
    hide SortBy;
    forall i, j | 0 <= i < j < |t| ensures t[i] <= t[j] {
      Ordered(t, i, j);
    }
    RisingUnique(t, s);
  }

  function Squared(x: real): real {
    x * x
  }

  function SquareFrom(norms: seq<real>, m: real): int -> real {
    i => if 0 <= i < |norms| then Squared(norms[i] - m) else 0.0
  }

  lemma LastDeviation(norms: seq<real>, m: real)
    requires norms != []
    ensures SquaredDeviation(norms, m) == SquaredDeviation(norms[..|norms| - 1], m) + Squared(norms[|norms| - 1] - m)
  {}

  lemma PrefixTerms(norms: seq<real>, m: real)
    requires norms != []
    ensures var n := |norms| - 1;
      SumOver(TopK.Range(n), SquareFrom(norms[..n], m)) == SumOver(TopK.Range(n), SquareFrom(norms, m))
  {
    var n := |norms| - 1;
    hide Squared, SumOver;
    SumAgree(TopK.Range(n), SquareFrom(norms[..n], m), SquareFrom(norms, m));
  }

  lemma LastTerm(norms: seq<real>, m: real)
    requires norms != []
    ensures var n := |norms| - 1;
      SumOver(TopK.Range(n + 1), SquareFrom(norms, m)) == SumOver(TopK.Range(n), SquareFrom(norms, m)) + Squared(norms[n] - m)
  {
    var n := |norms| - 1;
    hide Squared, SumOver;
    SumInsert(TopK.Range(n), SquareFrom(norms, m), n);
  }

  lemma {:induction false} DeviationIsSum(norms: seq<real>, m: real)
    ensures SquaredDeviation(norms, m) == SumOver(TopK.Range(|norms|), SquareFrom(norms, m))
  {
    if norms != [] {
      DeviationIsSum(norms[..|norms| - 1], m);
      LastDeviation(norms, m);
      hide Squared, SumOver, SquareFrom, SquaredDeviation, TopK.Range;
      PrefixTerms(norms, m);
      LastTerm(norms, m);
    }
  }

  lemma SquaresCompare(x: real, y: real)
    requires 0.0 <= x && 0.0 <= y
    ensures x > y <==> x * x > y * y
  {
    if x > y {
      SquareStrict(x, y);
    } else {
      SquareMonotone(x, y);
    }
  }

  /** A norm is an outlier exactly if its squared distance from the median, times the number of reports, is more than nine
      times the sum of all these squares. */
  lemma {:induction false} OutlierIff(norm: real, norms: seq<real>, root: real -> real)
    requires IsSqrt(root)
    ensures var m := Median(norms);
      IsOutlier(norm, norms, root) <==>
        if |norms| < 2 then norm != m
        else (norm - m) * (norm - m) * |norms| as real > 9.0 * SumOver(TopK.Range(|norms|), SquareFrom(norms, m))
  {
    hide Median, SquaredDeviation, SumOver, SquareFrom, IsSqrt, TopK.Range;
    var m := Median(norms);
    if 2 <= |norms| {
      DeviationIsSum(norms, m);
      DeviationSquared(norms, m, root);
      hide StdDev;
      BeyondThree(norm - m, StdDev(norms, m, root), SquaredDeviation(norms, m), |norms| as real);
      hide Abs;
      assert IsOutlier(norm, norms, root) <==> Abs(norm - m) > 3.0 * StdDev(norms, m, root);
    }
  }

  lemma DeviationSquared(norms: seq<real>, m: real, root: real -> real)
    requires IsSqrt(root) && 2 <= |norms|
    ensures var sd := StdDev(norms, m, root); 0.0 <= sd && sd * sd == SquaredDeviation(norms, m) / |norms| as real
  {
    SquaredDeviationNonNegative(norms, m);
    assert 0.0 <= SquaredDeviation(norms, m) / |norms| as real;
  }

  lemma BeyondThree(d: real, sd: real, dev: real, n: real)
    requires 0.0 < n && 0.0 <= sd && sd * sd == dev / n
    ensures Abs(d) > 3.0 * sd <==> d * d * n > 9.0 * dev
  {
    var q, x := sd * sd, Abs(d);
    assert dev == q * n;
    SquaresCompare(x, 3.0 * sd);
    assert x * x == d * d && (3.0 * sd) * (3.0 * sd) == 9.0 * q;
    assert (9.0 * q) * n == 9.0 * dev;
    if d * d > 9.0 * q {
      ScaleStrict(n, d * d, 9.0 * q);
    } else {
      ScaleAtMost(n, d * d, 9.0 * q);
    }
  }

  lemma ScaleAtMost(n: real, x: real, y: real)
    requires 0.0 < n && x <= y
    ensures x * n <= y * n
  {
    assert 0.0 <= (y - x) * n;
  }

  /** A gradient that was accepted is handed over unless enough were accepted for the outlier pass and it is an outlier. */
  lemma {:induction false} HandedOverIff(r: Round, minWorkers: nat, root: real -> real, c: Contribution)
    requires Recorded(r.accepted, r.recorded)
    ensures c in Outcome(r, minWorkers, root)
      <==> c in r.accepted && (minWorkers <= |r.accepted| ==> !IsOutlier(r.recorded[c.id], r.norms, root))
  {
    WithoutIff(r.accepted, r.recorded, r.norms, root, c);
    hide WithoutOutliers, IsOutlier;
  }

  lemma {:induction false} WithoutIff(gs: seq<Contribution>, recorded: map<string, real>, norms: seq<real>, root: real -> real, c: Contribution)
    requires Recorded(gs, recorded)
    ensures c in WithoutOutliers(gs, recorded, norms, root) <==> c in gs && !IsOutlier(recorded[c.id], norms, root)
  {
    hide IsOutlier;
    if gs != [] {
      var init, last := gs[..|gs| - 1], gs[|gs| - 1];
      assert gs == init + [last] && last in gs;
      WithoutIff(init, recorded, norms, root, c);
    }
  }

  /** What is on record when worker k is judged: what those up to k have sent now, and what is left of earlier rounds. */
  ghost predicate OnRecord(order: seq<string>, live: set<string>, local: string -> seq<real>, recorded: map<string, real>,
                           root: real -> real, k: nat, now: map<string, real>)
  {
    forall i :: 0 <= i < |order| ==>
      && order[i] in recorded && order[i] in now
      && now[order[i]] == if i <= k && order[i] in live then Norm(local(order[i]), root) else recorded[order[i]]
  }

  /** The same after k turns. */
  ghost predicate RecordBy(order: seq<string>, live: set<string>, local: string -> seq<real>, recorded: map<string, real>,
                           root: real -> real, k: nat, now: map<string, real>)
  {
    forall i :: 0 <= i < |order| ==>
      && order[i] in recorded && order[i] in now
      && now[order[i]] == if i < k && order[i] in live then Norm(local(order[i]), root) else recorded[order[i]]
  }

  lemma {:induction false} RecordAfter(order: seq<string>, live: set<string>, local: string -> seq<real>, recorded: map<string, real>,
                                       root: real -> real, k: nat)
    requires NoRepeats(order) && k <= |order| && forall id :: id in order ==> id in recorded
    ensures RecordBy(order, live, local, recorded, root, k, CollectFrom(order, live, local, recorded, root, k).recorded)
  {
    hide Norm, Accepts, PositiveNorms;
    if k > 0 {
      RecordAfter(order, live, local, recorded, root, k - 1);
    }
  }

  lemma {:induction false} SameRecordSameNorms(order: seq<string>, r: map<string, real>, now: map<string, real>)
    requires forall i :: 0 <= i < |order| ==> order[i] in r && order[i] in now && r[order[i]] == now[order[i]]
    ensures PositiveNorms(order, r) == PositiveNorms(order, now)
  {
    if order != [] {
      SameRecordSameNorms(order[..|order| - 1], r, now);
    }
  }

  /** The positions whose norm on record is v. */
  ghost function Holders(order: seq<string>, now: map<string, real>, v: real): set<int> {
    set i | 0 <= i < |order| && order[i] in now && now[order[i]] == v
  }

  /** The norms that count are the positive ones, each as often as it is on record. */
  lemma {:induction false} KnownAreThePositive(order: seq<string>, now: map<string, real>, v: real)
    requires forall id :: id in order ==> id in now
    ensures multiset(PositiveNorms(order, now))[v] == if v > 0.0 then |Holders(order, now, v)| else 0
  {
    if order == [] {
      assert Holders(order, now, v) == {};
    } else {
      var n := |order| - 1;
      KnownAreThePositive(order[..n], now, v);
      MoreHolders(order, now, v);
    }
  }

  lemma MoreHolders(order: seq<string>, now: map<string, real>, v: real)
    requires order != [] && order[|order| - 1] in now
    ensures var n := |order| - 1;
      |Holders(order, now, v)| == |Holders(order[..n], now, v)| + if now[order[n]] == v then 1 else 0
  {
    var n := |order| - 1;
    assert Holders(order, now, v) == Holders(order[..n], now, v) + if now[order[n]] == v then {n} else {};
  }

  ghost predicate IsAccepted(r: Round, id: string) {
    exists c :: c in r.accepted && c.id == id
  }

  lemma {:induction false} LaterTurnsKeep(order: seq<string>, live: set<string>, local: string -> seq<real>, recorded: map<string, real>,
                                          root: real -> real, k: nat, n: nat)
    requires NoRepeats(order) && k < n <= |order| && forall id :: id in order ==> id in recorded
    ensures IsAccepted(CollectFrom(order, live, local, recorded, root, n), order[k])
      <==> IsAccepted(CollectFrom(order, live, local, recorded, root, k + 1), order[k])
    ensures order[k] in CollectFrom(order, live, local, recorded, root, n).rejected
      <==> order[k] in CollectFrom(order, live, local, recorded, root, k + 1).rejected
  {
    hide Norm, Accepts, PositiveNorms;
    if k + 1 < n {
      LaterTurnsKeep(order, live, local, recorded, root, k, n - 1);
      hide CollectFrom;
      TurnKeeps(order, live, local, CollectFrom(order, live, local, recorded, root, n - 1), root, n - 1, order[k]);
      NextTurn(order, live, local, recorded, root, n - 1);
    }
  }

  lemma NextTurn(order: seq<string>, live: set<string>, local: string -> seq<real>, recorded: map<string, real>, root: real -> real, k: nat)
    requires k < |order| && forall id :: id in order ==> id in recorded
    ensures CollectFrom(order, live, local, recorded, root, k + 1)
      == CollectStep(order, live, local, CollectFrom(order, live, local, recorded, root, k), root, k)
  {}

  lemma TurnKeeps(order: seq<string>, live: set<string>, local: string -> seq<real>, r: Round, root: real -> real, k: nat, id: string)
    requires k < |order| && id != order[k] && forall id :: id in order ==> id in r.recorded
    ensures IsAccepted(CollectStep(order, live, local, r, root, k), id) <==> IsAccepted(r, id)
    ensures id in CollectStep(order, live, local, r, root, k).rejected <==> id in r.rejected
  {
    hide Norm, Accepts, PositiveNorms;
    var later := CollectStep(order, live, local, r, root, k);
    if c :| c in r.accepted && c.id == id {
      assert c in later.accepted;
    }
  }

  /** In every round a worker's gradient is accepted exactly if the worker is live and either no positive norm is known at
      its turn, its own included, or its norm is at most three times the median of those known; a live worker that is not
      accepted is rejected, and nobody else is. */
  lemma {:induction false} AcceptedIff(order: seq<string>, live: set<string>, local: string -> seq<real>, recorded: map<string, real>,
                                       root: real -> real, k: nat, now: map<string, real>)
    requires NoRepeats(order) && k < |order| && forall id :: id in order ==> id in recorded
    requires OnRecord(order, live, local, recorded, root, k, now)
    ensures forall id :: id in order ==> id in now
    ensures var r, known := CollectFrom(order, live, local, recorded, root, |order|), PositiveNorms(order, now);
      && (IsAccepted(r, order[k]) <==> order[k] in live && (known == [] || Norm(local(order[k]), root) <= 3.0 * Median(known)))
      && (order[k] in r.rejected <==> order[k] in live && !IsAccepted(r, order[k]))
  {
    hide Norm, PositiveNorms, Median, CollectFrom;
    CollectRecords(order, live, local, recorded, root, k);
    RecordAfter(order, live, local, recorded, root, k);
    LaterTurnsKeep(order, live, local, recorded, root, k, |order|);
    NextTurn(order, live, local, recorded, root, k);
    TurnDecides(order, live, local, recorded, root, k, now, CollectFrom(order, live, local, recorded, root, k));
  }

  lemma TurnDecides(order: seq<string>, live: set<string>, local: string -> seq<real>, recorded: map<string, real>,
                    root: real -> real, k: nat, now: map<string, real>, before: Round)
    requires NoRepeats(order) && k < |order| && (forall id :: id in order ==> id in before.recorded)
    requires RecordBy(order, live, local, recorded, root, k, before.recorded) && OnRecord(order, live, local, recorded, root, k, now)
    requires (forall c :: c in before.accepted ==> c.id in order[..k]) && (forall id :: id in before.rejected ==> id in order[..k])
    ensures forall id :: id in order ==> id in now
    ensures var r, known := CollectStep(order, live, local, before, root, k), PositiveNorms(order, now);
      && (IsAccepted(r, order[k]) <==> order[k] in live && (known == [] || Norm(local(order[k]), root) <= 3.0 * Median(known)))
      && (order[k] in r.rejected <==> order[k] in live && !IsAccepted(r, order[k]))
  {
    hide Norm, PositiveNorms, Median;
    var id := order[k];
    assert id !in order[..k];
    if id in live {
      var later := before.recorded[id := Norm(local(id), root)];
      forall i | 0 <= i < |order| ensures order[i] in later && later[order[i]] == now[order[i]] {
        assert i != k ==> order[i] != id;
      }
      SameRecordSameNorms(order, later, now);
      var r := CollectStep(order, live, local, before, root, k);
      if Accepts(Norm(local(id), root), PositiveNorms(order, later)) {
        assert Contribution(id, local(id)) in r.accepted;
      }
    }
  }

  /** What a round costs a worker: ten points if its gradient was rejected; then twenty more, but not below zero, if it was
      an outlier among enough accepted ones. */
  lemma ScoresFollow(score: int, id: string, r: Round, minWorkers: nat, root: real -> real)
    requires Recorded(r.accepted, r.recorded)
    ensures var isOut := minWorkers <= |r.accepted| && exists c :: c in r.accepted && c.id == id && IsOutlier(r.recorded[id], r.norms, root);
      var left := if id in r.rejected then score - 10 else score;
      ScoreAfter(score, id, r, minWorkers, root) == if !isOut then left else if left < 20 then 0 else left - 20
  {
    hide IsOutlier;
  }

  /** Every worker but the last holds the same number of weights, the next ones in the model. */
  lemma ShardIs(model: seq<real>, n: nat, k: nat)
    requires k < n
    ensures var size := |model| / n;
      && 0 <= k * size <= |model|
      && |Shard(model, n, k)| == (if k < n - 1 then size else |model| - k * size)
      && forall i :: 0 <= i < |Shard(model, n, k)| && k * size + i < |model| ==> Shard(model, n, k)[i] == model[k * size + i]
  {
    ShardFits(|model|, n, k);
    assert (k + 1) * (|model| / n) == k * (|model| / n) + |model| / n;
  }

  /** The live workers among the first k that send norm v. */
  ghost function Senders(order: seq<string>, live: set<string>, local: string -> seq<real>, root: real -> real, k: nat, v: real): set<int> {
    set i | 0 <= i < k && i < |order| && order[i] in live && Norm(local(order[i]), root) == v
  }

  /** The norms that the outlier pass looks at are those of all live workers, accepted or not, one each. */
  lemma {:induction false} ReportedNorms(order: seq<string>, live: set<string>, local: string -> seq<real>, recorded: map<string, real>,
                                         root: real -> real, k: nat, v: real)
    requires k <= |order| && forall id :: id in order ==> id in recorded
    ensures multiset(CollectFrom(order, live, local, recorded, root, k).norms)[v] == |Senders(order, live, local, root, k, v)|
  {
    hide Norm, Accepts, PositiveNorms;
    if k == 0 {
      assert Senders(order, live, local, root, 0, v) == {};
    } else {
      ReportedNorms(order, live, local, recorded, root, k - 1, v);
      MoreSenders(order, live, local, root, k, v);
      NextTurn(order, live, local, recorded, root, k - 1);
      hide Senders, CollectFrom;
    }
  }

  lemma MoreSenders(order: seq<string>, live: set<string>, local: string -> seq<real>, root: real -> real, k: nat, v: real)
    requires 0 < k <= |order|
    ensures |Senders(order, live, local, root, k, v)|
      == |Senders(order, live, local, root, k - 1, v)| + if order[k - 1] in live && Norm(local(order[k - 1]), root) == v then 1 else 0
  {
    hide Norm;
    var before := Senders(order, live, local, root, k - 1, v);
    assert Senders(order, live, local, root, k, v)
        == before + if order[k - 1] in live && Norm(local(order[k - 1]), root) == v then {k - 1} else {};
  }
}
