/** Pareto dominance over score records, and the set of undominated points of everything ever offered. */
module Pareto {
  import opened Sums

  type Scores = map<string, real>

  /** A missing dimension counts as zero. */
  function Get(s: Scores, key: string): real {
    if key in s then s[key] else 0.0
  }

  /** b is at least a everywhere and greater somewhere, over the dimensions either of them has. */
  ghost predicate IsDominated(a: Scores, b: Scores) {
    && (forall key :: key in a.Keys + b.Keys ==> Get(a, key) <= Get(b, key))
    && (exists key :: key in a.Keys + b.Keys && Get(a, key) < Get(b, key))
  }

  datatype Point = Point(id: string, candidate: string, scores: Scores)

  lemma NothingDominatesItself(a: Scores)
    ensures !IsDominated(a, a)
  {}

  lemma AtMostEverywhere(a: Scores, b: Scores, key: string)
    requires IsDominated(a, b)
    ensures Get(a, key) <= Get(b, key)
  {
    if key !in a.Keys + b.Keys {
      assert Get(a, key) == 0.0 == Get(b, key);
    }
  }

  /** Dominance is transitive although the three records may list different dimensions. */
  lemma DominanceTransitive(a: Scores, b: Scores, c: Scores)
    requires IsDominated(a, b) && IsDominated(b, c)
    ensures IsDominated(a, c)
  {
    forall key ensures Get(a, key) <= Get(c, key) {
      AtMostEverywhere(a, b, key);
      AtMostEverywhere(b, c, key);
    }
    var key :| key in a.Keys + b.Keys && Get(a, key) < Get(b, key);
    AtMostEverywhere(b, c, key);
    assert key in a.Keys + c.Keys;
  }

  ghost predicate Maximal(p: Point, offered: seq<Point>) {
    forall q :: q in offered ==> !IsDominated(p.scores, q.scores)
  }

  /** The points of ps that no point of offered dominates, in order. */
  ghost function Undominated(ps: seq<Point>, offered: seq<Point>): seq<Point> {
    if ps == [] then [] else
      var p := ps[|ps| - 1];
      Undominated(ps[..|ps| - 1], offered) + if Maximal(p, offered) then [p] else []
  }

  ghost function Maxima(offered: seq<Point>): seq<Point> {
    Undominated(offered, offered)
  }

  /** The points of ps that p does not dominate, in order. */
  ghost function NotDominatedBy(ps: seq<Point>, p: Point): seq<Point> {
    if ps == [] then [] else
      var q := ps[|ps| - 1];
      NotDominatedBy(ps[..|ps| - 1], p) + if IsDominated(q.scores, p.scores) then [] else [q]
  }

  /** The incremental rule: a dominated newcomer is refused, otherwise it joins and evicts what it dominates. */
  ghost function Offer(frontier: seq<Point>, p: Point): seq<Point> {
    if exists q :: q in frontier && IsDominated(p.scores, q.scores) then frontier
    else NotDominatedBy(frontier, p) + [p]
  }

  lemma {:induction false} UndominatedMembers(ps: seq<Point>, offered: seq<Point>)
    ensures forall p :: p in Undominated(ps, offered) <==> p in ps && Maximal(p, offered)
  {
    hide Maximal;
    if ps != [] {
      UndominatedMembers(ps[..|ps| - 1], offered);
      assert ps == ps[..|ps| - 1] + [ps[|ps| - 1]];
    }
  }

  /** Every point offered is in the archive or dominated by a point of the archive. */
  ghost predicate Covered(offered: seq<Point>, frontier: seq<Point>) {
    forall p :: p in offered ==> p in frontier || DominatedIn(p, frontier)
  }

  ghost predicate DominatedIn(p: Point, frontier: seq<Point>) {
    exists q :: q in frontier && IsDominated(p.scores, q.scores)
  }

  lemma {:induction false} RefusedChangesNothing(ps: seq<Point>, offered: seq<Point>, p: Point)
    requires DominatedIn(p, offered)
    ensures Undominated(ps, offered + [p]) == Undominated(ps, offered)
  {
    if ps != [] {
      var last := ps[|ps| - 1];
      RefusedChangesNothing(ps[..|ps| - 1], offered, p);
      if IsDominated(last.scores, p.scores) {
        var q :| q in offered && IsDominated(p.scores, q.scores);
        DominanceTransitive(last.scores, p.scores, q.scores);
      }
      assert Maximal(last, offered + [p]) <==> Maximal(last, offered) && !IsDominated(last.scores, p.scores);
    }
  }

  lemma {:induction false} AcceptedEvicts(ps: seq<Point>, offered: seq<Point>, p: Point)
    ensures Undominated(ps, offered + [p]) == NotDominatedBy(Undominated(ps, offered), p)
  {
    if ps != [] {
      var init, last := ps[..|ps| - 1], ps[|ps| - 1];
      AcceptedEvicts(init, offered, p);
      assert Maximal(last, offered + [p]) <==> Maximal(last, offered) && !IsDominated(last.scores, p.scores);
      if Maximal(last, offered) {
        assert (Undominated(init, offered) + [last])[..|Undominated(init, offered)|] == Undominated(init, offered);
      } else {
        assert Undominated(ps, offered) == Undominated(init, offered);
      }
    }
  }

  lemma CoveredPointDominated(offered: seq<Point>, p: Point)
    requires Covered(offered, Maxima(offered)) && DominatedIn(p, offered)
    ensures DominatedIn(p, Maxima(offered))
  {
    var q :| q in offered && IsDominated(p.scores, q.scores);
    if q !in Maxima(offered) {
      var m :| m in Maxima(offered) && IsDominated(q.scores, m.scores);
      DominanceTransitive(p.scores, q.scores, m.scores);
    }
  }

  /** One offer takes the maxima of what was offered to the maxima of what is offered now. */
  lemma {:induction false} OfferKeepsMaxima(offered: seq<Point>, p: Point)
    requires Covered(offered, Maxima(offered))
    ensures Offer(Maxima(offered), p) == Maxima(offered + [p])
    ensures Covered(offered + [p], Maxima(offered + [p]))
  {
    hide IsDominated, Undominated, NotDominatedBy;
    var frontier, all := Maxima(offered), offered + [p];
    UndominatedMembers(offered, offered);
    UndominatedMembers(all, all);
    AppendUndominated(offered, p);
    if DominatedIn(p, frontier) {
      RefusedChangesNothing(offered, offered, p);
    } else {
      AcceptedEvicts(offered, offered, p);
      if DominatedIn(p, offered) {
        CoveredPointDominated(offered, p);
      }
      NothingDominatesItself(p.scores);
      AcceptedCovers(offered, p);
    }
  }

  lemma {:induction false} AppendUndominated(offered: seq<Point>, p: Point)
    ensures Maxima(offered + [p]) == Undominated(offered, offered + [p]) + (if Maximal(p, offered + [p]) then [p] else [])
  {
    assert (offered + [p])[..|offered|] == offered;
  }

  lemma {:induction false} AcceptedCovers(offered: seq<Point>, p: Point)
    requires Covered(offered, Maxima(offered)) && Maximal(p, offered + [p])
    ensures Covered(offered + [p], Maxima(offered + [p]))
  {
    hide IsDominated, Undominated;
    var all := offered + [p];
    UndominatedMembers(offered, offered);
    UndominatedMembers(all, all);
    forall q | q in all ensures q in Maxima(all) || DominatedIn(q, Maxima(all)) {
      if q !in Maxima(all) {
        var r :| r in all && IsDominated(q.scores, r.scores);
        assert p in Maxima(all);
        if !IsDominated(q.scores, p.scores) {
          assert q in offered && r in offered;
          CoveredByKept(offered, p, q, r);
        }
      }
    }
  }

  lemma {:induction false} CoveredByKept(offered: seq<Point>, p: Point, q: Point, r: Point)
    requires Covered(offered, Maxima(offered)) && Maximal(p, offered + [p])
    requires r in offered && IsDominated(q.scores, r.scores)
    ensures DominatedIn(q, Maxima(offered + [p]))
  {
    hide IsDominated, Undominated;
    var all := offered + [p];
    UndominatedMembers(offered, offered);
    UndominatedMembers(all, all);
    var m := r;
    if r !in Maxima(offered) {
      m :| m in Maxima(offered) && IsDominated(r.scores, m.scores);
      DominanceTransitive(q.scores, r.scores, m.scores);
    }
    if IsDominated(m.scores, p.scores) {
      DominanceTransitive(q.scores, m.scores, p.scores);
      assert p in Maxima(all);
    } else {
      assert m in Maxima(all);
    }
  }

  /** The archive after a sequence of offers. */
  ghost function Archive(offered: seq<Point>): seq<Point> {
    if offered == [] then [] else Offer(Archive(offered[..|offered| - 1]), offered[|offered| - 1])
  }

  /** After any sequence of offers the archive is exactly the points no point ever offered dominates, in order. */
  lemma {:induction false} ArchiveIsExact(offered: seq<Point>)
    ensures Archive(offered) == Maxima(offered)
    ensures Covered(offered, Archive(offered))
    ensures forall p :: p in Archive(offered) <==> p in offered && Maximal(p, offered)
  {
    hide IsDominated, Offer;
    UndominatedMembers(offered, offered);
    if offered != [] {
      var init, p := offered[..|offered| - 1], offered[|offered| - 1];
      assert offered == init + [p];
      ArchiveIsExact(init);
      OfferKeepsMaxima(init, p);
    }
  }

  /** A newcomer is refused exactly when something ever offered dominates it. */
  lemma {:induction false} ArchiveStep(offered: seq<Point>, p: Point)
    ensures Maximal(p, offered + [p]) <==> !DominatedIn(p, Archive(offered))
    ensures Archive(offered + [p])
      == if DominatedIn(p, Archive(offered)) then Archive(offered) else NotDominatedBy(Archive(offered), p) + [p]
  {
    hide IsDominated, NotDominatedBy, Archive, Undominated;
    ArchiveIsExact(offered);
    ArchiveIsExact(offered + [p]);
    OfferKeepsMaxima(offered, p);
    if DominatedIn(p, offered) {
      CoveredPointDominated(offered, p);
    }
    NothingDominatesItself(p.scores);
  }

  lemma {:induction false} UndominatedMultiset(ps: seq<Point>, offered: seq<Point>, p: Point)
    ensures multiset(Undominated(ps, offered))[p] == if Maximal(p, offered) then multiset(ps)[p] else 0
  {
    hide Maximal;
    if ps != [] {
      UndominatedMultiset(ps[..|ps| - 1], offered, p);
      assert ps == ps[..|ps| - 1] + [ps[|ps| - 1]];
    }
  }

  lemma {:induction false} KeptMultiplicity(offered: seq<Point>, p: Point)
    ensures multiset(Archive(offered))[p] == if Maximal(p, offered) then multiset(offered)[p] else 0
  {
    hide IsDominated, Archive, Undominated, Maximal;
    ArchiveIsExact(offered);
    UndominatedMultiset(offered, offered, p);
  }

  lemma SameMembersSameMaxima(ps: seq<Point>, qs: seq<Point>, p: Point)
    requires multiset(ps) == multiset(qs)
    ensures Maximal(p, ps) <==> Maximal(p, qs)
  {
    hide IsDominated;
    assert forall q :: q in ps <==> q in multiset(ps);
    assert forall q :: q in qs <==> q in multiset(qs);
    assert forall q :: q in ps <==> q in qs;
  }

  /** The kept points do not depend on the order in which the points were offered. */
  lemma {:induction false} ArchiveIgnoresOrder(ps: seq<Point>, qs: seq<Point>)
    requires multiset(ps) == multiset(qs)
    ensures multiset(Archive(ps)) == multiset(Archive(qs))
  {
    hide IsDominated, Archive, Maximal;
    forall p ensures multiset(Archive(ps))[p] == multiset(Archive(qs))[p] {
      KeptMultiplicity(ps, p);
      KeptMultiplicity(qs, p);
      SameMembersSameMaxima(ps, qs, p);
    }
  }

  function ScoreAt(s: Scores): string -> real {
    key => Get(s, key)
  }

  /** The sum of all the scores a record lists. */
  ghost function ScoreSum(s: Scores): real {
    SumOver(s.Keys, ScoreAt(s))
  }

  lemma SumOverMore(s: Scores, keys: set<string>)
    requires s.Keys <= keys
    ensures SumOver(keys, ScoreAt(s)) == ScoreSum(s)
  {
    assert s.Keys + (keys - s.Keys) == keys;
    SumUnion(s.Keys, keys - s.Keys, ScoreAt(s));
    SumZero(keys - s.Keys, ScoreAt(s));
  }

  /** A dominating point has the larger sum of scores. */
  lemma DominatingSumsHigher(a: Scores, b: Scores)
    requires IsDominated(a, b)
    ensures ScoreSum(a) < ScoreSum(b)
  {
    var keys := a.Keys + b.Keys;
    SumOverMore(a, keys);
    SumOverMore(b, keys);
    var key :| key in keys && Get(a, key) < Get(b, key);
    SumRemove(keys, ScoreAt(a), key);
    SumRemove(keys, ScoreAt(b), key);
    SumMonotone(keys - {key}, ScoreAt(a), ScoreAt(b));
  }

  /** The first of the points with the largest sum of scores. */
  ghost function FirstBest(ps: seq<Point>): (p: Point)
    requires ps != []
    ensures p in ps && forall q :: q in ps ==> ScoreSum(q.scores) <= ScoreSum(p.scores)
  {
    if |ps| == 1 then ps[0] else
      var init, last := ps[..|ps| - 1], ps[|ps| - 1];
      var best := FirstBest(init);
      assert ps == init + [last];
      if ScoreSum(last.scores) > ScoreSum(best.scores) then last else best
  }

  /** The choice between the best so far and one more point. */
  lemma {:induction false} FirstBestAppend(ps: seq<Point>, p: Point)
    ensures ps == [] ==> FirstBest(ps + [p]) == p
    ensures ps != [] ==>
      FirstBest(ps + [p]) == if ScoreSum(p.scores) > ScoreSum(FirstBest(ps).scores) then p else FirstBest(ps)
  {
    hide ScoreSum;
    assert (ps + [p])[..|ps|] == ps;
  }

  lemma {:induction false} PruningKeepsFirstBest(ps: seq<Point>, offered: seq<Point>)
    requires ps != [] && Maximal(FirstBest(ps), offered)
    ensures Undominated(ps, offered) != [] && FirstBest(Undominated(ps, offered)) == FirstBest(ps)
  {
    hide Maximal, ScoreSum, FirstBest;
    var init, last := ps[..|ps| - 1], ps[|ps| - 1];
    var kept := Undominated(init, offered);
    assert ps == init + [last];
    FirstBestAppend(init, last);
    FirstBestAppend(kept, last);
    if init == [] {
      assert kept == [];
    } else if FirstBest(ps) == FirstBest(init) {
      PruningKeepsFirstBest(init, offered);
      assert Undominated(ps, offered) == kept || Undominated(ps, offered) == kept + [last];
    } else {
      if kept != [] {
        KeptNoBetter(init, offered);
      }
    }
  }

  lemma {:induction false} KeptNoBetter(ps: seq<Point>, offered: seq<Point>)
    requires ps != [] && Undominated(ps, offered) != []
    ensures ScoreSum(FirstBest(Undominated(ps, offered)).scores) <= ScoreSum(FirstBest(ps).scores)
  {
    hide Maximal, ScoreSum, Undominated;
    UndominatedMembers(ps, offered);
    assert FirstBest(Undominated(ps, offered)) in ps;
  }

  /** The best point of the archive by sum of scores is the first best point of everything ever offered. */
  lemma {:induction false} PruningLosesNoBest(offered: seq<Point>)
    requires offered != []
    ensures Archive(offered) != [] && FirstBest(Archive(offered)) == FirstBest(offered)
  {
    hide ScoreSum, IsDominated;
    var best := FirstBest(offered);
    forall q | q in offered ensures !IsDominated(best.scores, q.scores) {
      if IsDominated(best.scores, q.scores) {
        DominatingSumsHigher(best.scores, q.scores);
      }
    }
    ArchiveIsExact(offered);
    PruningKeepsFirstBest(offered, offered);
  }

  /** No point ever offered beats the archive in any single dimension. */
  lemma {:induction false} PruningLosesNoDimension(offered: seq<Point>, p: Point, key: string)
    requires p in offered
    ensures exists q :: q in Archive(offered) && Get(p.scores, key) <= Get(q.scores, key)
  {
    hide IsDominated;
    ArchiveIsExact(offered);
    if p !in Archive(offered) {
      var q :| q in Archive(offered) && IsDominated(p.scores, q.scores);
      AtMostEverywhere(p.scores, q.scores, key);
    }
  }
}
