/** The optimizer that keeps the Pareto archive: point records, the frontier list and the offer loops. */
module GepaOptimizer {
  import opened Wrappers
  import opened Sums
  import opened Pareto

  class ParetoPoint {
    const point: Point
    var dominated: bool

    constructor (point: Point)
      ensures this.point == point && !dominated
    {
      this.point, dominated := point, false;
    }
  }

  /** What the evaluator of a target returns for a candidate. */
  datatype Evaluation = Evaluation(score: real, dimensions: Scores, trace: string)

  ghost function Points(ps: seq<ParetoPoint>): (r: seq<Point>)
    ensures |r| == |ps|
  {
    seq(|ps|, i requires 0 <= i < |ps| => ps[i].point)
  }

  ghost predicate DistinctIds(ps: seq<ParetoPoint>) {
    forall i, j :: 0 <= i < j < |ps| ==> ps[i].point.id != ps[j].point.id
  }

  method CheckDominated(a: Scores, b: Scores) returns (dominated: bool)
    ensures dominated == IsDominated(a, b)
  {
    var rest, strictlyBetter := a.Keys + b.Keys, false;
    while rest != {}
      invariant rest <= a.Keys + b.Keys
      invariant forall key :: key in a.Keys + b.Keys && key !in rest ==> Get(a, key) <= Get(b, key)
      invariant strictlyBetter <==> exists key :: key in a.Keys + b.Keys && key !in rest && Get(a, key) < Get(b, key)
    {
      var key :| key in rest;
      if Get(b, key) < Get(a, key) {
        return false;
      }
      if Get(b, key) > Get(a, key) {
        strictlyBetter := true;
      }
      rest := rest - {key};
    }
    dominated := strictlyBetter;
  }

  method SumScores(s: Scores) returns (sum: real)
    ensures sum == ScoreSum(s)
  {
    var rest := s.Keys;
    sum := 0.0;
    while rest != {}
      invariant rest <= s.Keys && sum == SumOver(s.Keys - rest, ScoreAt(s))
    {
      var key :| key in rest;
      SumInsert(s.Keys - rest, ScoreAt(s), key);
      assert s.Keys - (rest - {key}) == s.Keys - rest + {key};
      sum := sum + s[key];
      rest := rest - {key};
    }
    assert s.Keys - rest == s.Keys;
  }

  lemma {:induction false} NotDominatedAppend(ps: seq<Point>, q: Point, p: Point)
    ensures NotDominatedBy(ps + [q], p) == NotDominatedBy(ps, p) + if IsDominated(q.scores, p.scores) then [] else [q]
  {
    hide IsDominated;
    assert (ps + [q])[..|ps|] == ps;
  }

  lemma NothingEvicted(p: Point)
    ensures NotDominatedBy([], p) == []
  {}

  lemma NotBothDominated(a: Scores, b: Scores)
    ensures !(IsDominated(a, b) && IsDominated(b, a))
  {
    if IsDominated(a, b) && IsDominated(b, a) {
      DominanceTransitive(a, b, a);
      NothingDominatesItself(a);
    }
  }

  /** w is one of the two contestants, and the other does not dominate it. */
  ghost predicate Beats(a: ParetoPoint, b: ParetoPoint, w: ParetoPoint) {
    (w == a && !IsDominated(a.point.scores, b.point.scores)) || (w == b && !IsDominated(b.point.scores, a.point.scores))
  }

  class GEPAOptimizer {
    const populationSize: nat
    const maxIterations: nat
    var frontier: seq<ParetoPoint>
    var traces: map<string, string>
    var overallScores: map<string, real>
    /** Every point offered so far, in order. */
    ghost var offered: seq<Point>

    ghost predicate Valid()
      reads this, frontier
    {
      && Points(frontier) == Archive(offered)
      && (forall p :: p in frontier ==> !p.dominated && Stored(p.point.id))
      && DistinctIds(frontier)
    }

    constructor (populationSize: nat, maxIterations: nat)
      ensures Valid() && offered == [] && this.populationSize == populationSize && this.maxIterations == maxIterations
    {
      this.populationSize, this.maxIterations := populationSize, maxIterations;
      frontier, traces, overallScores, offered := [], map[], map[], [];
    }

    /** Whether some point of the frontier dominates the newcomer. */
    method Refuses(newPoint: ParetoPoint) returns (refused: bool)
      requires forall p :: p in frontier ==> !p.dominated
      ensures refused <==> DominatedIn(newPoint.point, Points(frontier))
    {
      for i := 0 to |frontier|
        invariant forall j :: 0 <= j < i ==> !IsDominated(newPoint.point.scores, frontier[j].point.scores)
      {
        var point := frontier[i];
        var dominated := CheckDominated(newPoint.point.scores, point.point.scores);
        if !point.dominated && dominated {
          assert Points(frontier)[i] in Points(frontier);
          return true;
        }
      }
      refused := false;
    }

    /** Trace and score of a point are on record. */
    ghost predicate Stored(id: string)
      reads this`traces, this`overallScores
    {
      id in traces && id in overallScores
    }

    /** Filters out what the newcomer dominates, and forgets what was stored about it. */
    method Evict(newPoint: ParetoPoint)
      requires DistinctIds(frontier)
      requires forall p :: p in frontier ==> p.point.id != newPoint.point.id && Stored(p.point.id)
      requires Stored(newPoint.point.id)
      modifies this`frontier, this`traces, this`overallScores
      ensures Points(frontier) == NotDominatedBy(Points(old(frontier)), newPoint.point)
      ensures forall p :: p in frontier ==> p in old(frontier) && Stored(p.point.id)
      ensures Stored(newPoint.point.id) && DistinctIds(frontier)
    {
      hide IsDominated, NotDominatedBy;
      var kept: seq<ParetoPoint> := [];
      NothingEvicted(newPoint.point);
      for i := 0 to |frontier|
        invariant frontier == old(frontier)
        invariant Points(kept) == NotDominatedBy(Points(frontier[..i]), newPoint.point)
        invariant forall p :: p in kept ==> p in frontier[..i]
        invariant DistinctIds(kept) && forall p :: p in kept ==> Stored(p.point.id)
        invariant forall j :: i <= j < |frontier| ==> Stored(frontier[j].point.id)
        invariant Stored(newPoint.point.id)
      {
        var point := frontier[i];
        assert point in frontier;
        assert forall p :: p in kept ==> p.point.id != point.point.id;
        assert Points(frontier[..i + 1]) == Points(frontier[..i]) + [point.point];
        NotDominatedAppend(Points(frontier[..i]), point.point, newPoint.point);
        var dominated := CheckDominated(point.point.scores, newPoint.point.scores);
        if dominated {
          DropStored(point);
        } else {
          kept := kept + [point];
        }
      }
      assert frontier[..|frontier|] == frontier;
      frontier := kept;
    }

    method DropStored(point: ParetoPoint)
      modifies this`traces, this`overallScores
      ensures forall id :: id != point.point.id && old(Stored(id)) ==> Stored(id)
    {
      traces := traces - {point.point.id};
      overallScores := overallScores - {point.point.id};
    }

    /** The acceptance test for a point whose trace and score are on record. */
    method UpdateFrontier(newPoint: ParetoPoint) returns (accepted: bool)
      requires Valid() && !newPoint.dominated && Stored(newPoint.point.id)
      requires forall p :: p in frontier ==> p.point.id != newPoint.point.id
      modifies this, newPoint`dominated
      ensures Valid() && offered == old(offered) + [newPoint.point]
      ensures accepted <==> newPoint in frontier
      ensures forall p :: p in frontier ==> p in old(frontier) || p == newPoint
      ensures accepted <==> Maximal(newPoint.point, offered)
      ensures newPoint.dominated <==> !accepted
    {
      hide Maximal, IsDominated, NotDominatedBy, Archive, DominatedIn;
      ArchiveStep(offered, newPoint.point);
      assert newPoint !in frontier;
      var refused := Refuses(newPoint);
      offered := offered + [newPoint.point];
      if refused {
        newPoint.dominated := true;
        return false;
      }
      Evict(newPoint);
      Append(newPoint);
      accepted := true;
    }

    method Append(newPoint: ParetoPoint)
      requires DistinctIds(frontier) && forall p :: p in frontier ==> p.point.id != newPoint.point.id
      modifies this`frontier
      ensures Points(frontier) == Points(old(frontier)) + [newPoint.point] && DistinctIds(frontier)
      ensures forall p :: p in frontier <==> p in old(frontier) || p == newPoint
    {
      frontier := frontier + [newPoint];
    }

    /** The points not marked as dominated: every point of the frontier. */
    method GetFrontier() returns (points: seq<ParetoPoint>)
      requires Valid()
      ensures points == frontier
    {
      points := [];
      for i := 0 to |frontier|
        invariant points == frontier[..i]
      {
        if !frontier[i].dominated {
          points := points + [frontier[i]];
        }
      }
    }

    /** The first point with the largest sum of scores, or with the largest score in one dimension. */
    method GetBest(dimension: Option<string>) returns (best: Point)
      requires Valid()
      ensures offered == [] ==> best == Point("none", "", map[])
      ensures offered != [] && (dimension == None || dimension == Some("")) ==> best == FirstBest(offered)
      ensures offered != [] && dimension.Some? && dimension.value != "" ==>
        best in Archive(offered) && forall q :: q in offered ==> Get(q.scores, dimension.value) <= Get(best.scores, dimension.value)
    {
      hide Archive, ScoreSum, FirstBest;
      var candidates := GetFrontier();
      if candidates == [] {
        if offered != [] {
          PruningLosesNoBest(offered);
        }
        NoOffers();
        return Point("none", "", map[]);
      }
      NoOffers();
      PruningLosesNoBest(offered);
      if dimension.Some? && dimension.value != "" {
        best := BestIn(candidates, dimension.value);
        forall q | q in offered ensures Get(q.scores, dimension.value) <= Get(best.scores, dimension.value) {
          PruningLosesNoDimension(offered, q, dimension.value);
        }
      } else {
        best := BestOverall(candidates);
      }
    }

    /** Two members of the frontier, drawn at random, and the one that comes out. */
    ghost predicate ComesOut(w: ParetoPoint)
      reads this`frontier
    {
      exists x, y :: 0 <= x < |frontier| && 0 <= y < |frontier| && Beats(frontier[x], frontier[y], w)
    }

    /** Tournament selection; the random draws are left open. */
    method SelectFromFrontier(count: nat) returns (selected: seq<ParetoPoint>)
      requires Valid()
      ensures |selected| == if frontier == [] then 0 else count
      ensures forall p :: p in selected ==> p in frontier
      ensures forall i :: 0 <= i < |selected| ==> ComesOut(selected[i])
    {
      hide Beats, Archive;
      var nonDominated := GetFrontier();
      selected := [];
      if nonDominated == [] {
        return;
      }
      for i := 0 to count
        invariant |selected| == i && (forall p :: p in selected ==> p in frontier)
        invariant forall j :: 0 <= j < |selected| ==> ComesOut(selected[j])
      {
        var x :| 0 <= x < |nonDominated|;
        var y :| 0 <= y < |nonDominated|;
        var winner := Tournament(nonDominated[x], nonDominated[y]);
        assert Beats(frontier[x], frontier[y], winner);
        assert ComesOut(winner);
        selected := selected + [winner];
      }
    }

    /** The dominated contestant loses; between equals a coin decides. */
    method Tournament(a: ParetoPoint, b: ParetoPoint) returns (winner: ParetoPoint)
      ensures Beats(a, b, winner) && (winner == a || winner == b)
    {
      hide IsDominated;
      var coin: bool := *;
      var aLoses := CheckDominated(a.point.scores, b.point.scores);
      var bLoses := CheckDominated(b.point.scores, a.point.scores);
      NotBothDominated(a.point.scores, b.point.scores);
      winner := if aLoses then b else if bLoses then a else if coin then a else b;
    }

    /** Evaluates one candidate, stores what is known about it and offers it. */
    method OfferCandidate(ids: nat -> string, candidates: nat -> string, evaluator: nat -> Evaluation, k: nat)
      requires Valid() && FreshFrom(ids, k)
      modifies this
      ensures Valid() && FreshFrom(ids, k + 1)
      ensures offered == old(offered) + [Drawn(ids, candidates, evaluator, k)]
    {
      hide Archive;
      var result := evaluator(k);
      var point := new ParetoPoint(Point(ids(k), candidates(k), result.dimensions));
      traces := traces[ids(k) := result.trace];
      overallScores := overallScores[ids(k) := result.score];
      var accepted := UpdateFrontier(point);
    }

    /** No id drawn from number k on is used in the frontier, and none is drawn twice. */
    ghost predicate FreshFrom(ids: nat -> string, k: nat)
      reads this`frontier
    {
      && (forall p, j: nat :: p in frontier && k <= j ==> p.point.id != ids(j))
      && (forall i: nat, j: nat :: i < j ==> ids(i) != ids(j))
    }

    /** How many parents an iteration selects, hence how many candidates it offers. */
    function Parents(): nat {
      if populationSize / 2 < 1 then 1 else populationSize / 2
    }

    /** How many candidates have been evaluated after n iterations; without any point there are no parents. */
    function Draws(n: nat, begun: bool): nat {
      if n == 0 then populationSize else Draws(n - 1, begun) + if populationSize == 0 && !begun then 0 else Parents()
    }

    /** A run draws the population first and then, each time, half of it but at least one; none if there is nobody to draw
        parents from. */
    lemma {:induction false} DrawsInAll(n: nat, begun: bool)
      ensures Draws(n, begun) == populationSize
        + if populationSize == 0 && !begun then 0 else n * if populationSize <= 3 then 1 else populationSize / 2
    {
      if n > 0 {
        DrawsInAll(n - 1, begun);
      }
    }

    /**
      The optimisation loop, which may start from the frontier of an earlier one. The candidate texts, ids and
      evaluations come in the order in which they are drawn, whatever the mutation and the evaluator do. Afterwards
      the frontier is the archive and the best point the first best of everything evaluated, now and before.
    */
    method Optimize(ids: nat -> string, candidates: nat -> string, evaluator: nat -> Evaluation)
      returns (best: Point, result: seq<ParetoPoint>, iterations: nat)
      requires Valid() && FreshFrom(ids, 0)
      modifies this
      ensures Valid() && iterations == maxIterations && result == frontier
      ensures offered == old(offered) + FirstDraws(ids, candidates, evaluator, Draws(maxIterations, old(offered) != []))
      ensures Points(result) == Archive(offered)
      ensures offered == [] ==> best == Point("none", "", map[])
      ensures offered != [] ==> best == FirstBest(offered)
    {
      hide Archive, FirstBest, ScoreSum, Drawn, DistinctIds;
      ghost var base := offered;
      NoOffers();
      Populate(ids, candidates, evaluator);
      var k: nat := populationSize;
      for iter := 0 to maxIterations
        invariant Valid() && FreshFrom(ids, k) && offered == base + FirstDraws(ids, candidates, evaluator, k)
        invariant k == Draws(iter, base != []) && (k == 0 <==> populationSize == 0 && (iter == 0 || base == []))
      {
        k := Iterate(ids, candidates, evaluator, k, base);
      }
      iterations := maxIterations;
      best := GetBest(None);
      result := GetFrontier();
    }

    /** The initial population. */
    method Populate(ids: nat -> string, candidates: nat -> string, evaluator: nat -> Evaluation)
      requires Valid() && FreshFrom(ids, 0)
      modifies this
      ensures Valid() && FreshFrom(ids, populationSize)
      ensures offered == old(offered) + FirstDraws(ids, candidates, evaluator, populationSize)
    {
      hide Archive, Drawn, DistinctIds;
      ghost var base := offered;
      for i := 0 to populationSize
        invariant Valid() && FreshFrom(ids, i) && offered == base + FirstDraws(ids, candidates, evaluator, i)
      {
        OfferCandidate(ids, candidates, evaluator, i);
      }
    }

    /** One iteration: select parents, offer a mutant of each. */
    method Iterate(ids: nat -> string, candidates: nat -> string, evaluator: nat -> Evaluation, k: nat, ghost base: seq<Point>)
      returns (k': nat)
      requires Valid() && FreshFrom(ids, k) && offered == base + FirstDraws(ids, candidates, evaluator, k)
      modifies this
      ensures Valid() && FreshFrom(ids, k') && offered == base + FirstDraws(ids, candidates, evaluator, k')
      ensures k' == k + if k == 0 && base == [] then 0 else Parents()
      ensures k <= k'
    {
      hide Archive, FirstBest, ScoreSum, Drawn;
      if offered != [] {
        PruningLosesNoBest(offered);
      }
      NoOffers();
      var selected := SelectFromFrontier(Parents());
      for j := 0 to |selected|
        invariant Valid() && FreshFrom(ids, k + j) && offered == base + FirstDraws(ids, candidates, evaluator, k + j)
      {
        OfferCandidate(ids, candidates, evaluator, k + j);
      }
      k' := k + |selected|;
    }
  }

  /** The k-th point evaluated. */
  function Drawn(ids: nat -> string, candidates: nat -> string, evaluator: nat -> Evaluation, k: nat): Point {
    Point(ids(k), candidates(k), evaluator(k).dimensions)
  }

  ghost function FirstDraws(ids: nat -> string, candidates: nat -> string, evaluator: nat -> Evaluation, n: nat): (ps: seq<Point>)
    ensures |ps| == n
  {
    if n == 0 then [] else FirstDraws(ids, candidates, evaluator, n - 1) + [Drawn(ids, candidates, evaluator, n - 1)]
  }

  lemma NoOffers()
    ensures Archive([]) == []
  {}

  method BestIn(candidates: seq<ParetoPoint>, dimension: string) returns (best: Point)
    requires candidates != []
    ensures best in Points(candidates)
    ensures forall q :: q in Points(candidates) ==> Get(q.scores, dimension) <= Get(best.scores, dimension)
  {
    best := candidates[0].point;
    assert Points(candidates)[0] == best;
    for i := 1 to |candidates|
      invariant best in Points(candidates)
      invariant forall j :: 0 <= j < i ==> Get(candidates[j].point.scores, dimension) <= Get(best.scores, dimension)
    {
      var curr := candidates[i].point;
      if Get(curr.scores, dimension) > Get(best.scores, dimension) {
        assert Points(candidates)[i] == curr;
        best := curr;
      }
    }
  }

  method BestOverall(candidates: seq<ParetoPoint>) returns (best: Point)
    requires candidates != []
    ensures best == FirstBest(Points(candidates))
  {
    hide ScoreSum;
    best := candidates[0].point;
    assert Points(candidates[..1]) == [best];
    for i := 1 to |candidates|
      invariant best == FirstBest(Points(candidates[..i]))
    {
      assert Points(candidates[..i + 1]) == Points(candidates[..i]) + [candidates[i].point];
      FirstBestAppend(Points(candidates[..i]), candidates[i].point);
      var currSum := SumScores(candidates[i].point.scores);
      var bestSum := SumScores(best.scores);
      if currSum > bestSum {
        best := candidates[i].point;
      }
    }
    assert candidates[..|candidates|] == candidates;
  }
}
