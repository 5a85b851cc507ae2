/** Two rounds of 2b + 3 workers in which b of them send too much and still outvote the rest. The first leaves norms on record
    against which all that those b send passes. In the second the others send less, and the last three of them, each four
    times what the one before sent, are refused: b gradients too large and b honest ones are handed over. */
module OverrunRound {
  import opened Sums
  import opened Vectors
  import opened Statistics
  import opened Aggregation
  import opened Collection
  import opened TopK
  import opened HonestRounds
  import opened Majority

  /** Ids of different lengths. */
  function Worker(i: nat): string {
    seq(i + 1, j requires 0 <= j < i + 1 => 'w')
  }

  function Workers(b: nat): (order: seq<string>)
    ensures |order| == 2 * b + 3
  {
    seq(2 * b + 3, i requires 0 <= i < 2 * b + 3 => Worker(i))
  }

  function All(b: nat): set<string> {
    set id | id in Workers(b)
  }

  /** The norm of what worker i sends in the first round. */
  function First(b: nat, s: real, r: real, i: int): real {
    if i <= 2 * b then r else s
  }

  /** The norm of what worker i sends in the second round; nobody but the first b exceeds 64 s. */
  function Second(b: nat, s: real, r: real, i: int): real {
    if i < b then r
    else if i == 2 * b then 4.0 * s
    else if i == 2 * b + 1 then 16.0 * s
    else if i == 2 * b + 2 then 64.0 * s
    else s
  }

  function Values(norm: int -> real, n: nat): (values: seq<real>)
    ensures |values| == n && forall i :: 0 <= i < n ==> values[i] == norm(i)
  {
    seq(n, i requires 0 <= i < n => norm(i))
  }

  /** Everybody sends one coordinate. */
  function Sends(norm: int -> real): string -> seq<real> {
    id => [norm(|id| - 1)]
  }

  function FirstNorm(b: nat, s: real, r: real): int -> real {
    i => First(b, s, r, i)
  }

  function SecondNorm(b: nat, s: real, r: real): int -> real {
    i => Second(b, s, r, i)
  }

  /** What is on record once the first k workers have had their second turn. */
  function RecordNorm(b: nat, s: real, r: real, k: nat): int -> real {
    i => if i < k then Second(b, s, r, i) else First(b, s, r, i)
  }

  ghost predicate Holds(b: nat, recorded: map<string, real>, norm: int -> real) {
    forall i :: 0 <= i < 2 * b + 3 ==> Worker(i) in recorded && recorded[Worker(i)] == norm(i)
  }

  lemma WorkersDiffer(b: nat)
    ensures NoRepeats(Workers(b))
    ensures forall i, j :: 0 <= i < 2 * b + 3 && 0 <= j < 2 * b + 3 && i != j ==> Worker(i) != Worker(j)
    ensures forall i :: 0 <= i < 2 * b + 3 ==> Workers(b)[i] == Worker(i) && Worker(i) in All(b)
  {
    forall i, j | 0 <= i < 2 * b + 3 && 0 <= j < 2 * b + 3 && i != j ensures Worker(i) != Worker(j) {
      assert |Worker(i)| != |Worker(j)|;
    }
    forall i | 0 <= i < 2 * b + 3 ensures Worker(i) in All(b) {
      assert Workers(b)[i] in Workers(b);
    }
  }

  lemma SentNorm(norm: int -> real, i: nat, root: real -> real)
    requires IsSqrt(root) && 0.0 <= norm(i)
    ensures Sends(norm)(Worker(i)) == [norm(i)] && Norm(Sends(norm)(Worker(i)), root) == norm(i)
  {
    hide IsSqrt, Norm;
    SingletonNorm(norm(i), root);
  }

  lemma {:induction false} PositiveNormsAre(order: seq<string>, recorded: map<string, real>, values: seq<real>)
    requires |values| == |order|
    requires forall i :: 0 <= i < |order| ==> order[i] in recorded && recorded[order[i]] == values[i] && 0.0 < values[i]
    ensures PositiveNorms(order, recorded) == values
  {
    if order != [] {
      var n := |order| - 1;
      assert order[..n] != order;
      PositiveNormsAre(order[..n], recorded, values[..n]);
      assert values == values[..n] + [values[n]];
    }
  }

  /** The known norms at turn k of the second round: those on record, with what worker k has just sent. */
  function Known(b: nat, s: real, r: real, k: nat): (values: seq<real>)
    ensures |values| == 2 * b + 3
  {
    Values(RecordNorm(b, s, r, k + 1), 2 * b + 3)
  }

  lemma KnownMedian(b: nat, s: real, r: real, k: nat, p: nat, q: nat, a: nat, c: nat, lo: real, hi: real)
    requires p <= q <= a <= c <= 2 * b + 3 && b + 2 <= (q - p) + (c - a)
    requires forall i :: p <= i < q || a <= i < c ==> lo <= Known(b, s, r, k)[i] <= hi
    ensures lo <= Median(Known(b, s, r, k)) <= hi
  {
    hide Known, Median;
    CountBlocks(Known(b, s, r, k), p, q, a, c, lo, hi);
    MedianInMajority(Known(b, s, r, k), lo, hi);
  }

  /** The first 2b gradients pass, the last three are refused. */
  lemma Verdicts(b: nat, s: real, r: real, k: nat)
    requires 1 <= b && 0.0 < s && 64.0 * s < r && k < 2 * b + 3
    ensures Accepts(Second(b, s, r, k), Known(b, s, r, k)) <==> k < 2 * b
  {
    hide Median;
    if k < b {
      KnownMedian(b, s, r, k, 0, 2 * b + 1, 2 * b + 1, 2 * b + 1, r, r);
    } else if k <= 2 * b - 2 {
      KnownMedian(b, s, r, k, 0, b, k + 1, 2 * b + 1, r, r);
    } else if k <= 2 * b {
      KnownMedian(b, s, r, k, b, 2 * b, 2 * b + 1, 2 * b + 3, s, s);
    } else if k == 2 * b + 1 {
      KnownMedian(b, s, r, k, b, 2 * b + 1, 2 * b + 2, 2 * b + 3, s, 4.0 * s);
    } else {
      KnownMedian(b, s, r, k, b, 2 * b + 2, 2 * b + 2, 2 * b + 2, s, 16.0 * s);
    }
  }

  /** A round leaves every worker its norm on record, accepted or not. */
  lemma {:induction false} RoundRecords(b: nat, norm: int -> real, recorded: map<string, real>, root: real -> real)
    requires IsSqrt(root) && (forall i :: 0 <= i < 2 * b + 3 ==> 0.0 <= norm(i)) && forall id :: id in Workers(b) ==> id in recorded
    ensures Holds(b, CollectFrom(Workers(b), All(b), Sends(norm), recorded, root, 2 * b + 3).recorded, norm)
  {
    hide CollectFrom, Norm, IsSqrt, Sends, NoRepeats, Worker, Workers, All;
    WorkersDiffer(b);
    CollectRecords(Workers(b), All(b), Sends(norm), recorded, root, 2 * b + 3);
    var later := CollectFrom(Workers(b), All(b), Sends(norm), recorded, root, 2 * b + 3).recorded;
    forall i | 0 <= i < 2 * b + 3 ensures Worker(i) in later && later[Worker(i)] == norm(i) {
      assert Workers(b)[i] == Worker(i) && Workers(b)[i] in later;
      SentNorm(norm, i, root);
    }
  }

  /** What the second round has accepted after k turns. */
  function AcceptedBy(b: nat, s: real, r: real, k: nat): seq<Contribution> {
    var n := if k <= 2 * b then k else 2 * b;
    seq(n, i requires 0 <= i < n => Contribution(Worker(i), [Second(b, s, r, i)]))
  }

  /** One turn, once the worker's norm and the norms then known are worked out. */
  lemma TurnIs(order: seq<string>, live: set<string>, local: string -> seq<real>, before: Round, root: real -> real, k: nat,
               norm: real, known: seq<real>)
    requires k < |order| && (forall id :: id in order ==> id in before.recorded) && order[k] in live
    requires Norm(local(order[k]), root) == norm && PositiveNorms(order, before.recorded[order[k] := norm]) == known
    ensures var after := CollectStep(order, live, local, before, root, k);
      && after.norms == before.norms + [norm] && after.recorded == before.recorded[order[k] := norm]
      && after.accepted == before.accepted + if Accepts(norm, known) then [Contribution(order[k], local(order[k]))] else []
  {
    hide Norm, PositiveNorms, Accepts;
  }

  lemma RecordNext(b: nat, s: real, r: real, k: nat, recorded: map<string, real>)
    requires k < 2 * b + 3 && Holds(b, recorded, RecordNorm(b, s, r, k))
    ensures Holds(b, recorded[Worker(k) := Second(b, s, r, k)], RecordNorm(b, s, r, k + 1))
  {
    hide Worker, Second, First;
    WorkersDiffer(b);
  }

  lemma KnownIsRecorded(b: nat, s: real, r: real, k: nat, recorded: map<string, real>)
    requires 0.0 < s && 0.0 < r && k < 2 * b + 3 && Holds(b, recorded, RecordNorm(b, s, r, k + 1))
    ensures (forall id :: id in Workers(b) ==> id in recorded) && PositiveNorms(Workers(b), recorded) == Known(b, s, r, k)
  {
    hide PositiveNorms, Worker;
    forall id | id in Workers(b) ensures id in recorded {
      var i :| 0 <= i < 2 * b + 3 && Workers(b)[i] == id;
      assert Worker(i) in recorded;
    }
    PositiveNormsAre(Workers(b), recorded, Known(b, s, r, k));
  }

  lemma AcceptedNext(b: nat, s: real, r: real, k: nat)
    ensures AcceptedBy(b, s, r, k + 1)
      == AcceptedBy(b, s, r, k) + if k < 2 * b then [Contribution(Worker(k), [Second(b, s, r, k)])] else []
    ensures Values(SecondNorm(b, s, r), k + 1) == Values(SecondNorm(b, s, r), k) + [Second(b, s, r, k)]
  {
    hide Worker, Second;
  }

  /** The state of the second round after k turns. */
  ghost predicate After(b: nat, s: real, r: real, round: Round, k: nat) {
    && round.norms == Values(SecondNorm(b, s, r), k) && round.accepted == AcceptedBy(b, s, r, k)
    && Holds(b, round.recorded, RecordNorm(b, s, r, k))
  }

  lemma Turn(b: nat, s: real, r: real, before: Round, root: real -> real, k: nat)
    requires IsSqrt(root) && 1 <= b && 0.0 < s && 64.0 * s < r && k < 2 * b + 3 && After(b, s, r, before, k)
    requires forall id :: id in Workers(b) ==> id in before.recorded
    ensures After(b, s, r, CollectStep(Workers(b), All(b), Sends(SecondNorm(b, s, r)), before, root, k), k + 1)
  {
    hide IsSqrt, Norm, Accepts, PositiveNorms, Sends, CollectStep, Holds, AcceptedBy, Known, Values, Worker, Workers, All, NoRepeats;
    var x := Second(b, s, r, k);
    hide Second;
    WorkersDiffer(b);
    assert 0.0 <= x by { SecondPositive(b, s, r, k); }
    SentNorm(SecondNorm(b, s, r), k, root);
    RecordNext(b, s, r, k, before.recorded);
    KnownIsRecorded(b, s, r, k, before.recorded[Worker(k) := x]);
    TurnIs(Workers(b), All(b), Sends(SecondNorm(b, s, r)), before, root, k, x, Known(b, s, r, k));
    Verdicts(b, s, r, k);
    AcceptedNext(b, s, r, k);
  }

  lemma SecondPositive(b: nat, s: real, r: real, i: int)
    requires 0.0 < s && 64.0 * s < r
    ensures 0.0 < Second(b, s, r, i) <= r && (b <= i ==> Second(b, s, r, i) <= 64.0 * s)
  {}

  lemma {:induction false} SecondRound(b: nat, s: real, r: real, recorded: map<string, real>, root: real -> real, k: nat)
    requires IsSqrt(root) && 1 <= b && 0.0 < s && 64.0 * s < r && k <= 2 * b + 3
    requires Holds(b, recorded, FirstNorm(b, s, r)) && forall id :: id in Workers(b) ==> id in recorded
    ensures After(b, s, r, CollectFrom(Workers(b), All(b), Sends(SecondNorm(b, s, r)), recorded, root, k), k)
    decreases k
  {
    hide IsSqrt, Norm, Accepts, PositiveNorms, CollectStep, Sends, Worker, Workers, All, Second, First;
    if k > 0 {
      hide After, Holds;
      SecondRound(b, s, r, recorded, root, k - 1);
      Turn(b, s, r, CollectFrom(Workers(b), All(b), Sends(SecondNorm(b, s, r)), recorded, root, k - 1), root, k - 1);
    }
  }

  /** Values at the head of a list count towards its squared deviation. */
  lemma {:induction false} DeviationOfHead(values: seq<real>, b: nat, x: real, c: real)
    requires b <= |values| && forall i :: 0 <= i < b ==> values[i] == x
    ensures Times((x - c) * (x - c), b) <= SquaredDeviation(values, c)
    decreases |values|
  {
    if values != [] {
      var init, d := values[..|values| - 1], values[|values| - 1] - c;
      assert 0.0 <= d * d;
      if b == |values| {
        DeviationOfHead(init, b - 1, x, c);
        TimesSuccessor((x - c) * (x - c), b - 1);
      } else {
        DeviationOfHead(init, b, x, c);
      }
    }
  }

  lemma ThreeDeviations(sd: real, dev: real, d: real, b: nat)
    requires 3 <= b && 0.0 <= sd && 0.0 <= d && sd * sd == dev / (2 * b + 3) as real && Times(d * d, b) <= dev
    ensures d <= 3.0 * sd
  {
    var n, q := (2 * b + 3) as real, d * d;
    assert dev == sd * sd * n;
    ProductNonNegative(q, 9.0 * b as real - n);
    assert q * (9.0 * b as real - n) == 9.0 * (q * b as real) - q * n;
    assert q * n <= (9.0 * (sd * sd)) * n;
    ScaleCancelAtMost(n, q, 9.0 * (sd * sd));
    assert (3.0 * sd) * (3.0 * sd) == 9.0 * (sd * sd);
    SquareOrder(d, 3.0 * sd);
  }

  /** No norm of the second round is an outlier: those that are too large make three deviations reach beyond themselves. */
  lemma NobodyIsFar(b: nat, s: real, r: real, x: real, root: real -> real)
    requires IsSqrt(root) && 3 <= b && 0.0 < s && 128.0 * s < r && 0.0 <= x <= r
    ensures !IsOutlier(x, Values(SecondNorm(b, s, r), 2 * b + 3), root)
  {
    hide Median, SquaredDeviation, CountIn;
    var values := Values(SecondNorm(b, s, r), 2 * b + 3);
    CountBlocks(values, b, 2 * b + 3, 2 * b + 3, 2 * b + 3, 0.0, 64.0 * s);
    MedianInMajority(values, 0.0, 64.0 * s);
    var m, dev := Median(values), SquaredDeviation(values, Median(values));
    DeviationOfHead(values, b, r, m);
    SquaredDeviationNonNegative(values, m);
    var sd := StdDev(values, m, root);
    assert 0.0 <= dev / (2 * b + 3) as real;
    assert 0.0 <= sd && sd * sd == dev / (2 * b + 3) as real;
    ThreeDeviations(sd, dev, r - m, b);
  }

  lemma {:induction false} NoOutliers(gs: seq<Contribution>, recorded: map<string, real>, norms: seq<real>, root: real -> real)
    requires Recorded(gs, recorded) && forall i :: 0 <= i < |gs| ==> !IsOutlier(recorded[gs[i].id], norms, root)
    ensures WithoutOutliers(gs, recorded, norms, root) == gs
  {
    hide IsOutlier;
    if gs != [] {
      var init, last := gs[..|gs| - 1], gs[|gs| - 1];
      assert last in gs && gs == init + [last];
      NoOutliers(init, recorded, norms, root);
      assert !IsOutlier(recorded[last.id], norms, root);
    }
  }

  /** The b gradients too large and the b honest ones that a second round hands over. */
  lemma HandedOver(b: nat, s: real, r: real, round: Round, minWorkers: nat, root: real -> real)
    requires IsSqrt(root) && 3 <= b && 0.0 < s && 128.0 * s < r && After(b, s, r, round, 2 * b + 3)
    ensures Recorded(round.accepted, round.recorded)
    ensures Outcome(round, minWorkers, root) == AcceptedBy(b, s, r, 2 * b) == round.accepted
  {
    hide IsSqrt, IsOutlier, Values, Worker, Second, First;
    var gs := round.accepted;
    forall i | 0 <= i < |gs|
      ensures gs[i].id in round.recorded && !IsOutlier(round.recorded[gs[i].id], round.norms, root)
    {
      assert gs[i].id == Worker(i) && round.recorded[Worker(i)] == Second(b, s, r, i);
      SecondPositive(b, s, r, i);
      NobodyIsFar(b, s, r, Second(b, s, r, i), root);
    }
    NoOutliers(gs, round.recorded, round.norms, root);
  }

  lemma HandedOverTops(b: nat, s: real, r: real)
    requires 0.0 < s && 64.0 * s < r
    ensures |AcceptedBy(b, s, r, 2 * b)| == 2 * b && FirstAreTops(AcceptedBy(b, s, r, 2 * b), b, r)
  {
    hide Worker, Second;
    forall i | 0 <= i < 2 * b ensures 0.0 <= Second(b, s, r, i) <= r && (i < b ==> Second(b, s, r, i) == r) {
      SecondPositive(b, s, r, i);
      FirstSendMost(b, s, r, i);
    }
  }

  lemma FirstSendMost(b: nat, s: real, r: real, i: nat)
    ensures i < b ==> Second(b, s, r, i) == r
  {}

  /** The b first workers are the dishonest ones, a strict minority. */
  lemma FirstAreDishonest(b: nat, s: real, r: real, root: real -> real)
    requires IsSqrt(root) && 0.0 < s && 64.0 * s < r
    ensures var d := Dishonest(Workers(b), All(b), Sends(SecondNorm(b, s, r)), 64.0 * s, root);
      |d| <= b && |Reporting(Workers(b), All(b))| == 2 * b + 3
  {
    hide IsSqrt, Norm, Sends, Second;
    WorkersDiffer(b);
    var d := Dishonest(Workers(b), All(b), Sends(SecondNorm(b, s, r)), 64.0 * s, root);
    var head := Elements(Workers(b)[..b]);
    forall id | id in d ensures id in head {
      var i :| 0 <= i < 2 * b + 3 && Workers(b)[i] == id;
      SecondPositive(b, s, r, i);
      SentNorm(SecondNorm(b, s, r), i, root);
      assert Workers(b)[..b][if i < b then i else 0] in Workers(b)[..b];
    }
    SubsetSize(d, head);
    DistinctSize(Workers(b)[..b]);
    DistinctSize(Workers(b));
    assert Reporting(Workers(b), All(b)) == Elements(Workers(b));
  }
}
