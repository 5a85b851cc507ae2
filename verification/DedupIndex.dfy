/** The deduplication index as a step function: exact hits, similar hits, new blocks, and moves of the threshold. */
module DedupIndex {
  import opened Wrappers
  import opened Vectors
  import opened Similarity

  /** Embeddings in insertion order; peak is the largest threshold in force since the index was last empty. */
  datatype Index = Index(
    blocks: seq<Block>,
    codeToId: map<string, string>,
    threshold: real,
    peak: real,
    total: nat,
    duplicates: nat,
    saved: nat)

  /** The calls. An ingest comes with what hashing, embedding and id generation yield for it. */
  datatype Call =
    | Ingest(code: string, codeHash: string, vector: seq<real>, id: string)
    | SetThreshold(threshold: real)
    | Clear

  datatype DedupResult = Duplicate(originalId: string, similarity: real) | NewBlock(block: Block)

  function MaxReal(x: real, y: real): real {
    if x < y then y else x
  }

  function Clamp(threshold: real): real {
    if threshold < 0.0 then 0.0 else if threshold > 1.0 then 1.0 else threshold
  }

  /** The constructor takes a non-zero threshold as it is and falls back to 0.92 otherwise. */
  function Fresh(threshold: Option<real>): Index {
    var t := if threshold.Some? && threshold.value != 0.0 then threshold.value else 0.92;
    Index([], map[], t, t, 0, 0, 0)
  }

  /** What an ingest answers: the exact hit first, then the most similar block, otherwise a new block. */
  function Answer(x: Index, c: Call, root: real -> real): DedupResult
    requires c.Ingest?
  {
    if c.codeHash in x.codeToId then Duplicate(x.codeToId[c.codeHash], 1.0) else
      var similar := FindSimilar(x.blocks, c.vector, x.threshold, root);
      if similar.Some? then Duplicate(similar.value.id, similar.value.sim)
      else NewBlock(Block(c.id, c.codeHash, c.vector, c.code))
  }

  function Step(x: Index, c: Call, root: real -> real): Index {
    match c
    case Ingest(code, codeHash, _, id) =>
      var answer := Answer(x, c, root);
      if answer.Duplicate? then x.(total := x.total + 1, duplicates := x.duplicates + 1, saved := x.saved + |code|)
      else x.(total := x.total + 1, blocks := x.blocks + [answer.block], codeToId := x.codeToId[codeHash := id])
    case SetThreshold(threshold) => x.(threshold := Clamp(threshold), peak := MaxReal(x.peak, Clamp(threshold)))
    case Clear => Index([], map[], x.threshold, x.threshold, 0, 0, 0)
  }

  function Run(x: Index, calls: seq<Call>, root: real -> real): Index {
    if calls == [] then x else Step(Run(x, calls[..|calls| - 1], root), calls[|calls| - 1], root)
  }

  lemma RunAppend(x: Index, calls: seq<Call>, c: Call, root: real -> real)
    ensures Run(x, calls + [c], root) == Step(Run(x, calls, root), c, root)
  {
    assert (calls + [c])[..|calls|] == calls;
  }

  /** Any two stored embeddings are less similar than t, whichever is compared with which. */
  ghost predicate Separated(blocks: seq<Block>, t: real, root: real -> real) {
    forall i, j :: 0 <= i < |blocks| && 0 <= j < |blocks| && i != j ==> Sim(blocks[i].vector, root)(blocks[j]) < t
  }

  ghost predicate SameDimension(blocks: seq<Block>, dimension: nat) {
    forall i :: 0 <= i < |blocks| ==> |blocks[i].vector| == dimension
  }

  /** codeToId is a bijection between the hashes and the ids of the stored blocks. */
  ghost predicate Bijective(blocks: seq<Block>, codeToId: map<string, string>) {
    && (forall i :: 0 <= i < |blocks| ==> blocks[i].codeHash in codeToId && codeToId[blocks[i].codeHash] == blocks[i].id)
    && (forall h :: h in codeToId ==> exists i :: 0 <= i < |blocks| && blocks[i].codeHash == h)
    && (forall i, j :: 0 <= i < j < |blocks| ==> blocks[i].id != blocks[j].id && blocks[i].codeHash != blocks[j].codeHash)
  }

  ghost predicate Inv(x: Index, dimension: nat, root: real -> real) {
    && SameDimension(x.blocks, dimension)
    && Separated(x.blocks, x.peak, root)
    && Bijective(x.blocks, x.codeToId)
    && x.total == x.duplicates + |x.blocks|
    && x.threshold <= x.peak
  }

  /** A call is admissible if its vector has the common dimension and its id is fresh. */
  ghost predicate Admissible(x: Index, c: Call, dimension: nat) {
    c.Ingest? ==> |c.vector| == dimension && forall i :: 0 <= i < |x.blocks| ==> x.blocks[i].id != c.id
  }

  ghost predicate AdmissibleRun(x: Index, calls: seq<Call>, dimension: nat, root: real -> real) {
    forall k :: 0 <= k < |calls| ==> Admissible(Run(x, calls[..k], root), calls[k], dimension)
  }

  lemma {:induction false} AddedStaysSeparated(blocks: seq<Block>, b: Block, threshold: real, peak: real, dimension: nat, root: real -> real)
    requires SameDimension(blocks + [b], dimension) && Separated(blocks, peak, root) && threshold <= peak
    requires FindSimilar(blocks, b.vector, threshold, root) == None
    ensures Separated(blocks + [b], peak, root)
  {
    hide Cosine, FindSimilar;
    NothingSimilar(blocks, b.vector, threshold, root);
    var all := blocks + [b];
    forall i, j | 0 <= i < |all| && 0 <= j < |all| && i != j ensures Sim(all[i].vector, root)(all[j]) < peak {
      if j == |blocks| {
        assert |all[i].vector| == |b.vector| == dimension;
        CosineSymmetric(all[i].vector, b.vector, root);
        assert Sim(b.vector, root)(blocks[i]) < threshold;
      }
    }
  }

  lemma {:induction false} AddedStaysBijective(blocks: seq<Block>, codeToId: map<string, string>, b: Block)
    requires Bijective(blocks, codeToId) && b.codeHash !in codeToId
    requires forall i :: 0 <= i < |blocks| ==> blocks[i].id != b.id
    ensures Bijective(blocks + [b], codeToId[b.codeHash := b.id])
  {
    var all, m := blocks + [b], codeToId[b.codeHash := b.id];
    forall h | h in m ensures exists i :: 0 <= i < |all| && all[i].codeHash == h {
      if h == b.codeHash {
        assert all[|blocks|].codeHash == h;
      } else {
        var i :| 0 <= i < |blocks| && blocks[i].codeHash == h;
        assert all[i].codeHash == h;
      }
    }
  }

  lemma SeparatedAtHigher(blocks: seq<Block>, t: real, t': real, root: real -> real)
    requires Separated(blocks, t, root) && t <= t'
    ensures Separated(blocks, t', root)
  {
    hide Cosine;
  }

  lemma {:induction false} StepKeepsInv(x: Index, c: Call, dimension: nat, root: real -> real)
    requires Inv(x, dimension, root) && Admissible(x, c, dimension)
    ensures Inv(Step(x, c, root), dimension, root)
  {
    hide Separated, Bijective, FindSimilar;
    match c
    case Ingest(_, _, _, _) =>
      var answer := Answer(x, c, root);
      if answer.NewBlock? {
        AddedStaysSeparated(x.blocks, answer.block, x.threshold, x.peak, dimension, root);
        AddedStaysBijective(x.blocks, x.codeToId, answer.block);
      }
    case SetThreshold(threshold) =>
      SeparatedAtHigher(x.blocks, x.peak, MaxReal(x.peak, Clamp(threshold)), root);
    case Clear =>
      EmptyIsSound(x.threshold, root);
  }

  lemma EmptyIsSound(t: real, root: real -> real)
    ensures Separated([], t, root) && Bijective([], map[])
  {}

  /** After every admissible run: embeddings separated at the peak threshold, hashes and ids in bijection, counts balanced. */
  lemma {:induction false} ReachableIsSound(threshold: Option<real>, calls: seq<Call>, dimension: nat, root: real -> real)
    requires AdmissibleRun(Fresh(threshold), calls, dimension, root)
    ensures Inv(Run(Fresh(threshold), calls, root), dimension, root)
  {
    hide Step, Inv;
    if calls == [] {
      FreshIsSound(threshold, dimension, root);
    } else {
      var init := calls[..|calls| - 1];
      forall k | 0 <= k < |init| ensures Admissible(Run(Fresh(threshold), init[..k], root), init[k], dimension) {
        assert init[..k] == calls[..k];
      }
      ReachableIsSound(threshold, init, dimension, root);
      StepKeepsInv(Run(Fresh(threshold), init, root), calls[|calls| - 1], dimension, root);
    }
  }

  lemma FreshIsSound(threshold: Option<real>, dimension: nat, root: real -> real)
    ensures Inv(Fresh(threshold), dimension, root)
  {
    EmptyIsSound(Fresh(threshold).threshold, root);
  }

  /** No call of the run lowers the threshold then in force. */
  ghost predicate NeverLowers(x: Index, calls: seq<Call>, root: real -> real) {
    forall k :: 0 <= k < |calls| && calls[k].SetThreshold? ==> Run(x, calls[..k], root).threshold <= Clamp(calls[k].threshold)
  }

  lemma {:induction false} PeakIsCurrent(threshold: Option<real>, calls: seq<Call>, root: real -> real)
    requires NeverLowers(Fresh(threshold), calls, root)
    ensures Run(Fresh(threshold), calls, root).peak == Run(Fresh(threshold), calls, root).threshold
  {
    hide Answer;
    if calls != [] {
      var init, c := calls[..|calls| - 1], calls[|calls| - 1];
      forall k | 0 <= k < |init| && init[k].SetThreshold?
        ensures Run(Fresh(threshold), init[..k], root).threshold <= Clamp(init[k].threshold)
      {
        assert init[..k] == calls[..k] && init[k] == calls[k];
      }
      PeakIsCurrent(threshold, init, root);
      if c.SetThreshold? {
        assert calls[..|calls| - 1] == init;
      }
    }
  }

  /** With the threshold fixed or only raised, any two stored embeddings are less similar than the threshold now in force. */
  lemma {:induction false} StoredStaySeparated(threshold: Option<real>, calls: seq<Call>, dimension: nat, root: real -> real)
    requires AdmissibleRun(Fresh(threshold), calls, dimension, root) && NeverLowers(Fresh(threshold), calls, root)
    ensures Separated(Run(Fresh(threshold), calls, root).blocks, Run(Fresh(threshold), calls, root).threshold, root)
  {
    hide Separated, Run, AdmissibleRun, NeverLowers;
    ReachableIsSound(threshold, calls, dimension, root);
    PeakIsCurrent(threshold, calls, root);
  }

  /** The vector (x, y, 0, ..., 0). */
  function Along(n: nat, x: real, y: real): (v: seq<real>)
    ensures |v| == n
  {
    seq(n, i => if i == 0 then x else if i == 1 then y else 0.0)
  }

  lemma {:induction false} AlongDot(n: nat, x: real, y: real, u: real, v: real, k: nat)
    requires 2 <= k <= n
    ensures Dot(Along(n, x, y), Along(n, u, v), k) == x * u + y * v
  {
    if k > 2 {
      AlongDot(n, x, y, u, v, k - 1);
    } else {
      var a, b := Along(n, x, y), Along(n, u, v);
      assert Dot(a, b, 0) == 0.0 && Dot(a, b, 1) == a[0] * b[0];
    }
  }

  lemma RootOfOne(root: real -> real)
    requires IsSqrt(root)
    ensures root(1.0) == 1.0
  {
    var r := root(1.0);
    if 1.0 < r {
      SquareStrict(r, 1.0);
    } else if r < 1.0 {
      SquareStrict(1.0, r);
    }
  }

  /** A unit vector whose cosine with (1, 0, ..., 0) is c. */
  function Tilted(n: nat, c: real, root: real -> real): seq<real> {
    Along(n, c, root(1.0 - c * c))
  }

  lemma TiltedCosine(n: nat, c: real, root: real -> real)
    requires IsSqrt(root) && 2 <= n && 0.0 <= c <= 1.0
    ensures Cosine(Tilted(n, c, root), Along(n, 1.0, 0.0), root) == c
  {
    hide Dot, Along;
    ProductNonNegative(1.0 - c, 1.0 + c);
    assert (1.0 - c) * (1.0 + c) == 1.0 - c * c;
    var s := root(1.0 - c * c);
    AlongDot(n, c, s, c, s, n);
    AlongDot(n, 1.0, 0.0, 1.0, 0.0, n);
    AlongDot(n, c, s, 1.0, 0.0, n);
    RootOfOne(root);
    var a, b := Tilted(n, c, root), Along(n, 1.0, 0.0);
    assert s * s == 1.0 - c * c;
    assert Dot(a, a, n) == 1.0 && Dot(b, b, n) == 1.0 && Dot(a, b, n) == c;
    assert root(Dot(a, a, n)) * root(Dot(b, b, n)) == 1.0;
  }

  lemma RunNothing(x: Index, root: real -> real)
    ensures Run(x, [], root) == x
  {}

  /** Two blocks of similarity c. */
  function TwoBlocks(n: nat, c: real, root: real -> real): seq<Call> {
    [Ingest("a", "h", Along(n, 1.0, 0.0), "1"), Ingest("b", "i", Tilted(n, c, root), "2")]
  }

  lemma NewIsStored(x: Index, c: Call, root: real -> real)
    requires c.Ingest? && c.codeHash !in x.codeToId && FindSimilar(x.blocks, c.vector, x.threshold, root) == None
    ensures Step(x, c, root) == x.(total := x.total + 1, blocks := x.blocks + [Block(c.id, c.codeHash, c.vector, c.code)],
                                   codeToId := x.codeToId[c.codeHash := c.id])
  {}

  lemma {:induction false} NothingBelow(b: Block, v: seq<real>, threshold: real, root: real -> real)
    ensures FindSimilar([], v, threshold, root) == None
    ensures Sim(v, root)(b) < threshold ==> FindSimilar([b], v, threshold, root) == None
  {
    hide Cosine;
    assert [b][..0] == [];
  }

  /** The index after the first of two ingests, and after both. */
  lemma {:induction false} TwoSteps(x: Index, c1: Call, c2: Call, root: real -> real)
    ensures Run(x, [c1], root) == Step(x, c1, root)
    ensures Run(x, [c1, c2], root) == Step(Step(x, c1, root), c2, root)
  {
    hide Step;
    RunNothing(x, root);
    RunAppend(x, [], c1, root);
    assert [] + [c1] == [c1];
    RunAppend(x, [c1], c2, root);
    assert [c1] + [c2] == [c1, c2];
  }

  lemma {:induction false} BothAreStored(n: nat, c: real, high: real, root: real -> real)
    requires IsSqrt(root) && 2 <= n && 0.0 <= c < high <= 1.0
    ensures var x := Run(Fresh(Some(high)), TwoBlocks(n, c, root), root);
      && x.blocks == [Block("1", "h", Along(n, 1.0, 0.0), "a"), Block("2", "i", Tilted(n, c, root), "b")]
      && x.threshold == high
    ensures AdmissibleRun(Fresh(Some(high)), TwoBlocks(n, c, root), n, root)
  {
    hide Cosine, Along, Run, Step, FindSimilar;
    TiltedCosine(n, c, root);
    var x := Fresh(Some(high));
    var u, v := Along(n, 1.0, 0.0), Tilted(n, c, root);
    var c1, c2 := Ingest("a", "h", u, "1"), Ingest("b", "i", v, "2");
    var b1 := Block("1", "h", u, "a");
    TwoSteps(x, c1, c2, root);
    NothingBelow(b1, u, high, root);
    NewIsStored(x, c1, root);
    var x1 := Step(x, c1, root);
    assert x1.blocks == [b1] && x1.codeToId.Keys == {"h"} && x1.threshold == high;
    NothingBelow(b1, v, high, root);
    assert "i"[0] != "h"[0] && "1"[0] != "2"[0];
    NewIsStored(x1, c2, root);
    RunNothing(x, root);
    assert [c1, c2][..0] == [] && [c1, c2][..1] == [c1];
  }

  /** The stored embeddings are separated at the new threshold, whatever was ingested before under the old one. */
  ghost predicate SeparatedUnder(high: real, t: real, dimension: nat, root: real -> real) {
    forall calls ::
      && AdmissibleRun(Fresh(Some(high)), calls, dimension, root) && NeverLowers(Fresh(Some(high)), calls, root)
      && Run(Fresh(Some(high)), calls, root).threshold == high
      ==> Separated(Run(Fresh(Some(high)), calls, root).blocks, Clamp(t), root)
  }

  /** Moving the threshold keeps everything separated, whatever has been stored, exactly if it does not lower it. */
  lemma {:induction false} SeparationSurvivesIff(n: nat, high: real, t: real, root: real -> real)
    requires IsSqrt(root) && 2 <= n && 0.0 < high <= 1.0
    ensures SeparatedUnder(high, t, n, root) <==> high <= Clamp(t)
  {
    hide Cosine, Along, Run, AdmissibleRun, FindSimilar;
    if high <= Clamp(t) {
      hide Separated;
      forall calls | AdmissibleRun(Fresh(Some(high)), calls, n, root) && NeverLowers(Fresh(Some(high)), calls, root)
        && Run(Fresh(Some(high)), calls, root).threshold == high
        ensures Separated(Run(Fresh(Some(high)), calls, root).blocks, Clamp(t), root)
      {
        StoredStaySeparated(Some(high), calls, n, root);
        SeparatedAtHigher(Run(Fresh(Some(high)), calls, root).blocks, high, Clamp(t), root);
      }
    } else {
      var low, calls := Clamp(t), TwoBlocks(n, Clamp(t), root);
      BothAreStored(n, low, high, root);
      TiltedCosine(n, low, root);
      var blocks := Run(Fresh(Some(high)), calls, root).blocks;
      assert Sim(blocks[1].vector, root)(blocks[0]) == low;
      assert !Separated(blocks, low, root);
    }
  }
}
