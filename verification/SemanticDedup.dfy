/** The dedup engine: maps, counters and threshold updated in place, and the loops that compare vectors. */
module SemanticDedup {
  import opened Wrappers
  import opened Vectors
  import opened Similarity
  import opened DedupIndex

  const DIMENSION: nat := 768

  /** The model's output padded with zeros or cut off to the fixed dimension. */
  function FitDimension(output: seq<real>): (v: seq<real>)
    ensures |v| == DIMENSION
  {
    if |output| < DIMENSION then output + seq(DIMENSION - |output|, _ => 0.0) else output[..DIMENSION]
  }

  class SemanticDedupEngine {
    /** The stored blocks in insertion order. */
    var embeddings: seq<Block>
    var codeToId: map<string, string>
    var threshold: real
    var total: nat
    var duplicates: nat
    var saved: nat
    ghost var peak: real
    const hash: string -> string
    const root: real -> real

    ghost function View(): Index
      reads this
    {
      Index(embeddings, codeToId, threshold, peak, total, duplicates, saved)
    }

    ghost predicate Valid()
      reads this
    {
      Inv(View(), DIMENSION, root)
    }

    constructor (threshold: Option<real>, hash: string -> string, root: real -> real)
      ensures Valid() && View() == Fresh(threshold) && this.hash == hash && this.root == root
    {
      this.hash, this.root := hash, root;
      embeddings, codeToId, total, duplicates, saved := [], map[], 0, 0, 0;
      this.threshold := if threshold.Some? && threshold.value != 0.0 then threshold.value else 0.92;
      peak := if threshold.Some? && threshold.value != 0.0 then threshold.value else 0.92;
      new;
      FreshIsSound(threshold, DIMENSION, root);
    }

    method ComputeCosine(a: seq<real>, b: seq<real>) returns (r: real)
      requires |a| <= |b|
      ensures r == Cosine(a, b, root)
    {
      var dotProduct, magnitudeA, magnitudeB := 0.0, 0.0, 0.0;
      for i := 0 to |a|
        invariant dotProduct == Dot(a, b, i) && magnitudeA == Dot(a, a, i) && magnitudeB == Dot(b, b, i)
      {
        dotProduct := dotProduct + a[i] * b[i];
        magnitudeA := magnitudeA + a[i] * a[i];
        magnitudeB := magnitudeB + b[i] * b[i];
      }
      var mag := root(magnitudeA) * root(magnitudeB);
      r := if mag == 0.0 then 0.0 else dotProduct / mag;
    }

    /** Ingests one piece of code; output is what the embedding model yields for it, id a fresh identifier. */
    method IngestCode(code: string, output: seq<real>, id: string) returns (r: DedupResult)
      requires Valid() && forall i :: 0 <= i < |embeddings| ==> embeddings[i].id != id
      modifies this
      ensures Valid()
      ensures View() == Step(old(View()), Ingest(code, hash(code), FitDimension(output), id), root)
      ensures r == Answer(old(View()), Ingest(code, hash(code), FitDimension(output), id), root)
    {
      hide Separated, Bijective, FindSimilar;
      ghost var c := Ingest(code, hash(code), FitDimension(output), id);
      StepKeepsInv(View(), c, DIMENSION, root);
      total := total + 1;
      var codeHash := hash(code);
      if codeHash in codeToId {
        duplicates := duplicates + 1;
        saved := saved + |code|;
        return Duplicate(codeToId[codeHash], 1.0);
      }
      var vector := FitDimension(output);
      var similar := FindMostSimilar(vector, threshold);
      if similar.Some? {
        duplicates := duplicates + 1;
        saved := saved + |code|;
        return Duplicate(similar.value.id, similar.value.sim);
      }
      var block := Block(id, codeHash, vector, code);
      embeddings := embeddings + [block];
      codeToId := codeToId[codeHash := id];
      r := NewBlock(block);
    }

    /** The single pass over the stored embeddings. */
    method FindMostSimilar(v: seq<real>, limit: real) returns (best: Option<Match>)
      requires |v| == DIMENSION && SameDimension(embeddings, DIMENSION)
      ensures best == FindSimilar(embeddings, v, limit, root)
    {
      hide Cosine;
      best := None;
      for i := 0 to |embeddings|
        invariant best == FindSimilar(embeddings[..i], v, limit, root)
      {
        assert embeddings[..i + 1][..i] == embeddings[..i];
        var emb := embeddings[i];
        var sim := ComputeCosine(v, emb.vector);
        if sim >= limit && (best.None? || sim > best.value.sim) {
          best := Some(Match(emb.id, sim));
        }
      }
      assert embeddings[..|embeddings|] == embeddings;
    }

    /** lookup by the embedding of the intent. */
    method LookupIntent(output: seq<real>) returns (r: Option<string>)
      requires Valid()
      ensures r == Lookup(embeddings, FitDimension(output), threshold, root)
      ensures var found := FindSimilar(embeddings, FitDimension(output), threshold, root);
        r == if found.Some? then Some(found.value.id) else None
    {
      hide Inv, Cosine, FindSimilar;
      var query := FitDimension(output);
      SearchPathsAgree(embeddings, query, threshold, root);
      var results := SearchByVector(embeddings, query, 1, root);
      if results != [] && results[0].sim >= threshold {
        return Some(results[0].id);
      }
      r := None;
    }

    method UpdateThreshold(t: real)
      requires Valid()
      modifies this`threshold, this`peak
      ensures Valid() && View() == Step(old(View()), SetThreshold(t), root)
    {
      hide Inv;
      StepKeepsInv(View(), SetThreshold(t), DIMENSION, root);
      threshold := Clamp(t);
      peak := MaxReal(peak, threshold);
    }

    method ClearAll()
      requires Valid()
      modifies this
      ensures Valid() && View() == Step(old(View()), Clear, root)
    {
      hide Inv;
      StepKeepsInv(View(), Clear, DIMENSION, root);
      embeddings, codeToId, total, duplicates, saved := [], map[], 0, 0, 0;
      peak := threshold;
    }
  }
}
