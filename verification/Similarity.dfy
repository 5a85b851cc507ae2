/** Cosine similarity of real vectors, and the two ways the dedup index searches for the most similar block: a single pass
    that keeps the best so far, and a sort by similarity. They agree. */
module Similarity {
  import opened Wrappers
  import opened Vectors
  import opened Sorting

  datatype Block = Block(id: string, codeHash: string, vector: seq<real>, source: string)

  datatype Match = Match(id: string, sim: real)

  /** Dot product over the product of the magnitudes, both over the length of a; zero if a magnitude is zero. */
  function Cosine(a: seq<real>, b: seq<real>, root: real -> real): real
    requires |a| <= |b|
  {
    var mag := root(Dot(a, a, |a|)) * root(Dot(b, b, |a|));
    if mag == 0.0 then 0.0 else Dot(a, b, |a|) / mag
  }

  lemma {:induction false} CosineSymmetric(a: seq<real>, b: seq<real>, root: real -> real)
    requires |a| == |b|
    ensures Cosine(a, b, root) == Cosine(b, a, root)
  {
    hide Dot;
    DotSymmetric(a, b, |a|);
  }

  lemma QuotientWithinOne(d: real, mag: real)
    requires 0.0 < mag && -mag <= d <= mag
    ensures -1.0 <= d / mag <= 1.0
  {
    var q := d / mag;
    assert q * mag == d && (-q) * mag == -d;
    if 1.0 < q {
      Beyond(q, mag);
    } else if q < -1.0 {
      Beyond(-q, mag);
    }
  }

  lemma Beyond(q: real, mag: real)
    requires 0.0 < mag && 1.0 < q
    ensures mag < q * mag
  {
    assert 0.0 < (q - 1.0) * mag;
  }

  lemma MagnitudeSquared(x: real, y: real, rx: real, ry: real)
    requires 0.0 <= rx && 0.0 <= ry && rx * rx == x && ry * ry == y
    ensures 0.0 <= rx * ry && (rx * ry) * (rx * ry) == x * y
  {}

  /** Cauchy-Schwarz: no cosine leaves [-1, 1]. */
  lemma {:induction false} CosineBounded(a: seq<real>, b: seq<real>, root: real -> real)
    requires IsSqrt(root) && |a| <= |b|
    ensures -1.0 <= Cosine(a, b, root) <= 1.0
  {
    hide Dot;
    var n := |a|;
    var x, y := Dot(a, a, n), Dot(b, b, n);
    SquareNonNegative(a, n);
    SquareNonNegative(b, n);
    CauchySchwarz(a, b, n);
    MagnitudeSquared(x, y, root(x), root(y));
    var mag := root(x) * root(y);
    assert Dot(a, b, n) * Dot(a, b, n) <= mag * mag;
    SquareOrder(Dot(a, b, n), mag);
    if mag != 0.0 {
      QuotientWithinOne(Dot(a, b, n), mag);
      assert Cosine(a, b, root) == Dot(a, b, n) / mag;
    }
  }

  /** Similarity to a query; blocks too short for it are never compared. */
  function Sim(v: seq<real>, root: real -> real): Block -> real {
    (b: Block) => if |v| <= |b.vector| then Cosine(v, b.vector, root) else 0.0
  }

  /** Sorting ascending by this key is sorting descending by similarity. */
  function BySimilarity(v: seq<real>, root: real -> real): Block -> real {
    (b: Block) => -Sim(v, root)(b)
  }

  /** The single pass of findSimilar: the best so far is replaced only by something strictly better. */
  function FindSimilar(blocks: seq<Block>, v: seq<real>, threshold: real, root: real -> real): Option<Match> {
    if blocks == [] then None else
      var best := FindSimilar(blocks[..|blocks| - 1], v, threshold, root);
      var last := blocks[|blocks| - 1];
      var sim := Sim(v, root)(last);
      if sim >= threshold && (best.None? || sim > best.value.sim) then Some(Match(last.id, sim)) else best
  }

  /** searchByVector: all blocks, most similar first, cut off after topK. */
  function SearchByVector(blocks: seq<Block>, query: seq<real>, topK: nat, root: real -> real): seq<Match> {
    var sorted := SortBy(blocks, BySimilarity(query, root));
    var n := if topK < |sorted| then topK else |sorted|;
    seq(n, i requires 0 <= i < n => Match(sorted[i].id, Sim(query, root)(sorted[i])))
  }

  /** lookup: the most similar block if it reaches the threshold. */
  function Lookup(blocks: seq<Block>, query: seq<real>, threshold: real, root: real -> real): Option<string> {
    var results := SearchByVector(blocks, query, 1, root);
    if results != [] && results[0].sim >= threshold then Some(results[0].id) else None
  }

  /** The single pass finds the first of the most similar blocks, if that reaches the threshold. */
  lemma {:induction false} SinglePassFindsFirstBest(blocks: seq<Block>, v: seq<real>, threshold: real, root: real -> real)
    requires blocks != []
    ensures var best := blocks[FirstMin(blocks, BySimilarity(v, root))];
      FindSimilar(blocks, v, threshold, root)
        == if Sim(v, root)(best) >= threshold then Some(Match(best.id, Sim(v, root)(best))) else None
  {
    hide Cosine;
    if |blocks| == 1 {
      assert FindSimilar(blocks[..0], v, threshold, root) == None;
    } else {
      SinglePassFindsFirstBest(blocks[..|blocks| - 1], v, threshold, root);
    }
  }

  /** The two search paths agree: lookup hits exactly when the single pass does, and names the same block. */
  lemma {:induction false} SearchPathsAgree(blocks: seq<Block>, v: seq<real>, threshold: real, root: real -> real)
    ensures var found := FindSimilar(blocks, v, threshold, root);
      Lookup(blocks, v, threshold, root) == if found.Some? then Some(found.value.id) else None
  {
    hide Cosine;
    if blocks != [] {
      SinglePassFindsFirstBest(blocks, v, threshold, root);
      SortHead(blocks, BySimilarity(v, root));
    }
  }

  /** No duplicate is missed: the single pass finds nothing exactly when every block is below the threshold. */
  lemma {:induction false} NothingSimilar(blocks: seq<Block>, v: seq<real>, threshold: real, root: real -> real)
    ensures FindSimilar(blocks, v, threshold, root) == None
      <==> forall i :: 0 <= i < |blocks| ==> Sim(v, root)(blocks[i]) < threshold
  {
    hide Cosine;
    if blocks != [] {
      var best := FirstMin(blocks, BySimilarity(v, root));
      SinglePassFindsFirstBest(blocks, v, threshold, root);
      forall i | 0 <= i < |blocks| ensures Sim(v, root)(blocks[i]) <= Sim(v, root)(blocks[best]) {
        assert BySimilarity(v, root)(blocks[best]) <= BySimilarity(v, root)(blocks[i]);
      }
    }
  }
}
