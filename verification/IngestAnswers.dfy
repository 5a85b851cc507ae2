/** What ingesting answers and stores, in every reachable index. */
module IngestAnswers {
  import opened Wrappers
  import opened Vectors
  import opened Sums
  import opened Sorting
  import opened Similarity
  import opened DedupIndex
  import opened SemanticDedup
  import TopK

  /** Block i is the first of the most similar ones. */
  ghost predicate FirstMostSimilar(x: Index, v: seq<real>, i: int, root: real -> real) {
    && 0 <= i < |x.blocks|
    && (forall j :: 0 <= j < |x.blocks| ==> Sim(v, root)(x.blocks[j]) <= Sim(v, root)(x.blocks[i]))
    && (forall j :: 0 <= j < i ==> Sim(v, root)(x.blocks[j]) < Sim(v, root)(x.blocks[i]))
  }

  ghost predicate KnowsHash(x: Index, codeHash: string) {
    exists i :: 0 <= i < |x.blocks| && x.blocks[i].codeHash == codeHash
  }

  ghost predicate NothingNear(x: Index, v: seq<real>, root: real -> real) {
    forall i :: 0 <= i < |x.blocks| ==> Sim(v, root)(x.blocks[i]) < x.threshold
  }

  /** The first of the most similar blocks has this id and this similarity, which reaches the threshold. */
  ghost predicate NamesNearest(x: Index, v: seq<real>, id: string, sim: real, root: real -> real) {
    exists i :: FirstMostSimilar(x, v, i, root) && id == x.blocks[i].id && sim == Sim(v, root)(x.blocks[i]) && x.threshold <= sim
  }

  /** The right answer: for a known hash the block that has it, in full; otherwise the first of the most similar blocks with
      its similarity, if that reaches the threshold; otherwise a new block of what was handed in. */
  ghost predicate Answers(x: Index, r: DedupResult, code: string, codeHash: string, v: seq<real>, id: string, root: real -> real) {
    && (r.NewBlock? <==> !KnowsHash(x, codeHash) && NothingNear(x, v, root))
    && (r.NewBlock? ==> r.block == Block(id, codeHash, v, code))
    && (KnowsHash(x, codeHash) ==>
          exists i :: 0 <= i < |x.blocks| && x.blocks[i].codeHash == codeHash && r == Duplicate(x.blocks[i].id, 1.0))
    && (r.Duplicate? && !KnowsHash(x, codeHash) ==>
          NamesNearest(x, v, r.originalId, r.similarity, root))
  }

  lemma {:induction false} BestIsFirst(x: Index, v: seq<real>, root: real -> real)
    requires x.blocks != []
    ensures FirstMostSimilar(x, v, FirstMin(x.blocks, BySimilarity(v, root)), root)
  {
    hide Cosine, Sim;
    var best := FirstMin(x.blocks, BySimilarity(v, root));
    forall j | 0 <= j < |x.blocks| ensures Sim(v, root)(x.blocks[j]) <= Sim(v, root)(x.blocks[best]) {
      assert BySimilarity(v, root)(x.blocks[best]) <= BySimilarity(v, root)(x.blocks[j]);
    }
    forall j | 0 <= j < best ensures Sim(v, root)(x.blocks[j]) < Sim(v, root)(x.blocks[best]) {
      assert BySimilarity(v, root)(x.blocks[best]) < BySimilarity(v, root)(x.blocks[j]);
    }
  }

  lemma HashesAreBlocks(x: Index, codeHash: string)
    requires Bijective(x.blocks, x.codeToId)
    ensures codeHash in x.codeToId <==> KnowsHash(x, codeHash)
    ensures codeHash in x.codeToId ==>
      exists i :: 0 <= i < |x.blocks| && x.blocks[i].codeHash == codeHash && x.codeToId[codeHash] == x.blocks[i].id
  {}

  lemma {:induction false} SearchIsRight(x: Index, v: seq<real>, root: real -> real)
    ensures var found := FindSimilar(x.blocks, v, x.threshold, root);
      && (found.None? <==> NothingNear(x, v, root))
      && (found.Some? ==> NamesNearest(x, v, found.value.id, found.value.sim, root))
  {
    hide Sim, FirstMostSimilar, FindSimilar;
    NothingSimilar(x.blocks, v, x.threshold, root);
    if x.blocks != [] {
      SinglePassFindsFirstBest(x.blocks, v, x.threshold, root);
      BestIsFirst(x, v, root);
    }
  }

  lemma {:induction false} IngestIsRight(x: Index, dimension: nat, code: string, codeHash: string, v: seq<real>, id: string, root: real -> real)
    requires Inv(x, dimension, root)
    ensures Answers(x, Answer(x, Ingest(code, codeHash, v, id), root), code, codeHash, v, id, root)
  {
    HashesAreBlocks(x, codeHash);
    SearchIsRight(x, v, root);
    hide Inv, Separated, Bijective, Sim, FindSimilar, NothingNear, NamesNearest;
  }

  /** What ingesting leaves: one more processed; a duplicate saves its length and stores nothing, a new block is stored. */
  ghost predicate Stores(x: Index, y: Index, r: DedupResult, code: string, codeHash: string, id: string) {
    && y.total == x.total + 1 && y.threshold == x.threshold && y.peak == x.peak
    && (r.Duplicate? ==> y.blocks == x.blocks && y.codeToId == x.codeToId && y.duplicates == x.duplicates + 1 && y.saved == x.saved + |code|)
    && (r.NewBlock? ==> y.blocks == x.blocks + [r.block] && y.codeToId == x.codeToId[codeHash := id]
                        && y.duplicates == x.duplicates && y.saved == x.saved)
  }

  /** In every reachable index the answer is the right one, and exactly what it says is stored. */
  lemma {:induction false} IngestAnswersRight(threshold: Option<real>, calls: seq<Call>, dimension: nat, root: real -> real,
                                              code: string, codeHash: string, v: seq<real>, id: string)
    requires AdmissibleRun(Fresh(threshold), calls, dimension, root)
    ensures var x, c := Run(Fresh(threshold), calls, root), Ingest(code, codeHash, v, id);
      && Answers(x, Answer(x, c, root), code, codeHash, v, id, root)
      && Stores(x, Step(x, c, root), Answer(x, c, root), code, codeHash, id)
  {
    hide Run, Inv, Answers, AdmissibleRun;
    ReachableIsSound(threshold, calls, dimension, root);
    IngestIsRight(Run(Fresh(threshold), calls, root), dimension, code, codeHash, v, id, root);
  }

  function ProductAt(a: seq<real>, b: seq<real>): int -> real {
    i => if 0 <= i < |a| && i < |b| then a[i] * b[i] else 0.0
  }

  lemma LastProduct(a: seq<real>, b: seq<real>, n: nat)
    requires 0 < n <= |a| && n <= |b|
    ensures Dot(a, b, n) == Dot(a, b, n - 1) + ProductAt(a, b)(n - 1)
    ensures TopK.Range(n) == TopK.Range(n - 1) + {n - 1}
  {}

  lemma {:induction false} ProductIsSum(a: seq<real>, b: seq<real>, n: nat)
    requires n <= |a| && n <= |b|
    ensures Dot(a, b, n) == SumOver(TopK.Range(n), ProductAt(a, b))
  {
    if n > 0 {
      ProductIsSum(a, b, n - 1);
      LastProduct(a, b, n);
      assert n - 1 !in TopK.Range(n - 1);
      hide TopK.Range, SumOver, ProductAt, Dot;
      SumInsert(TopK.Range(n - 1), ProductAt(a, b), n - 1);
    }
  }

  /** x is the length of the first n coordinates. */
  ghost predicate IsLength(x: real, a: seq<real>, n: nat) {
    0.0 <= x && x * x == SumOver(TopK.Range(n), ProductAt(a, a))
  }

  function Product(x: real, y: real): real {
    x * y
  }

  predicate IsQuotient(c: real, s: real, m: real) {
    if m == 0.0 then c == 0.0 else c * m == s
  }

  /** The similarity is the inner product over both lengths, and zero where a length is zero. */
  ghost predicate IsCosine(c: real, a: seq<real>, b: seq<real>, n: nat) {
    exists x, y :: IsLength(x, a, n) && IsLength(y, b, n) && IsQuotient(c, SumOver(TopK.Range(n), ProductAt(a, b)), Product(x, y))
  }

  lemma RootIsLength(a: seq<real>, n: nat, root: real -> real)
    requires IsSqrt(root) && n <= |a|
    ensures IsLength(root(Dot(a, a, n)), a, n)
  {
    ProductIsSum(a, a, n);
    SquareNonNegative(a, n);
    hide Dot, SumOver, ProductAt, TopK.Range;
  }

  lemma {:induction false} SimilarityIsCosine(v: seq<real>, b: Block, root: real -> real)
    requires IsSqrt(root) && |v| == |b.vector|
    ensures IsCosine(Sim(v, root)(b), v, b.vector, |v|)
  {
    var w, n := b.vector, |v|;
    RootIsLength(v, n, root);
    RootIsLength(w, n, root);
    ProductIsSum(v, w, n);
    SimIsQuotient(v, b, root);
    hide Dot, SumOver, ProductAt, TopK.Range, IsLength, IsSqrt, IsQuotient, Sim, Quotient, Product;
    QuotientIs(Dot(v, w, n), Product(root(Dot(v, v, n)), root(Dot(w, w, n))));
  }

  lemma SimIsQuotient(v: seq<real>, b: Block, root: real -> real)
    requires |v| == |b.vector|
    ensures Sim(v, root)(b)
      == Quotient(Dot(v, b.vector, |v|), Product(root(Dot(v, v, |v|)), root(Dot(b.vector, b.vector, |v|))))
  {
    hide Dot;
  }

  function Quotient(s: real, m: real): real {
    if m == 0.0 then 0.0 else s / m
  }

  lemma QuotientIs(s: real, m: real)
    ensures IsQuotient(Quotient(s, m), s, m)
  {}

  /** Vectors are cut off or filled with zeros to the dimension. */
  lemma FittedIs(output: seq<real>, i: nat)
    requires i < DIMENSION
    ensures FitDimension(output)[i] == if i < |output| then output[i] else 0.0
  {}

  /** A threshold is moved into the unit interval by no more than needed. */
  lemma ClampIsNearest(t: real, s: real)
    requires 0.0 <= s <= 1.0
    ensures 0.0 <= Clamp(t) <= 1.0 && Abs(Clamp(t) - t) <= Abs(s - t)
  {}

  /** A new index has the given threshold, or 0.92 where none or zero is given. */
  lemma StartsWith(threshold: Option<real>)
    ensures var x := Fresh(threshold);
      && x.blocks == [] && x.codeToId == map[] && x.total == x.duplicates == x.saved == 0
      && (match threshold case Some(t) => x.threshold == (if t == 0.0 then 0.92 else t) case None => x.threshold == 0.92)
  {}

  /** Setting the threshold touches nothing else that is stored; clearing empties everything and keeps the threshold. */
  lemma SettingsStep(x: Index, t: real, root: real -> real)
    ensures var y := Step(x, SetThreshold(t), root);
      && y.blocks == x.blocks && y.codeToId == x.codeToId && y.total == x.total && y.duplicates == x.duplicates && y.saved == x.saved
      && (0.0 <= t <= 1.0 ==> y.threshold == t)
    ensures var z := Step(x, Clear, root);
      z.blocks == [] && z.codeToId == map[] && z.total == z.duplicates == z.saved == 0 && z.threshold == x.threshold
  {}
}
