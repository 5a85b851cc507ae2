/** How large chunks are, and what they are called. */
module ChunkSizes {
  import opened Wrappers
  import opened Text
  import opened Chunking
  import opened ChunkCoverage

  /** So many tokens of four characters each, the last one begun. */
  predicate IsEstimate(tokens: nat, content: string) {
    if content == "" then tokens == 0 else 4 * tokens - 3 <= |content| <= 4 * tokens
  }

  /** n lines of average length fit into the limit of four characters per token. */
  predicate Fit(n: int, content: string, maxTokens: real) {
    n as real * |content| as real <= 4.0 * maxTokens * |Split(content)| as real
  }

  /** As many lines as fit, but at least five. */
  predicate IsPieceSize(n: int, content: string, maxTokens: real) {
    5 <= n && (n == 5 || Fit(n, content, maxTokens)) && !Fit(n + 1, content, maxTokens)
  }

  function AtMost(n: nat, length: nat): nat {
    if n < length then n else length
  }

  /** Where piece k of pieces of n lines begins. */
  function Begin(k: nat, n: nat): nat {
    k * n
  }

  /** The segment whole, under its own name. */
  predicate IsWhole(c: CodeChunk, seg: Segment, language: string, counter: nat) {
    && c.id == ChunkId(language, counter) && c.content == seg.content && c.language == language && c.kind == seg.kind
    && c.name == seg.name && c.startLine == seg.startLine && c.endLine == seg.endLine && IsEstimate(c.tokenEstimate, c.content)
  }

  /** Piece k of a segment cut into pieces of n lines, named after the segment and numbered from one. */
  ghost predicate IsPiece(c: CodeChunk, seg: Segment, language: string, counter: nat, n: nat, k: nat) {
    var lines := Split(seg.content);
    var lo, hi := Begin(k, n), AtMost(Begin(k + 1, n), |lines|);
    && lo < hi && c.id == ChunkId(language, counter + k) && c.content == Join(lines[lo..hi]) && c.language == language && c.kind == seg.kind
    && c.name == (if seg.name.Some? && seg.name.value != "" then Some(seg.name.value + "_part" + Decimal(k + 1)) else None)
    && c.startLine == seg.startLine + lo && c.endLine == seg.startLine + hi - 1 && IsEstimate(c.tokenEstimate, c.content)
  }

  lemma TokensAreEstimate(content: string)
    ensures IsEstimate(Tokens(content), content)
  {}

  lemma TooManyTokens(content: string, maxTokens: real)
    ensures Tokens(content) as real > maxTokens <==> |content| > 4 * maxTokens.Floor
  {
    assert maxTokens.Floor as real <= maxTokens < maxTokens.Floor as real + 1.0;
  }

  lemma FittingIsGreatest(q: real, a: real, b: real, n: int)
    requires 0.0 < a && q == b / a
    ensures n <= q.Floor <==> n as real * a <= b
  {
    assert q * a == b;
    assert n <= q.Floor <==> n as real <= q;
    if n as real <= q {
      assert 0.0 <= (q - n as real) * a;
    } else {
      assert 0.0 < (n as real - q) * a;
    }
  }

  lemma SameQuotient(length: real, lines: real, maxTokens: real)
    requires 0.0 < length && 0.0 < lines
    ensures maxTokens * 4.0 / (length / lines) == 4.0 * maxTokens * lines / length
  {
    var q := length / lines;
    assert q * lines == length;
    var x, y := maxTokens * 4.0 / q, 4.0 * maxTokens * lines / length;
    assert x * q == maxTokens * 4.0;
    assert y * length == 4.0 * maxTokens * lines;
    assert x * length == x * q * lines;
    assert (x - y) * length == 0.0;
  }

  lemma PieceSizeIs(content: string, maxTokens: real)
    requires content != "" || maxTokens < 0.0
    ensures IsPieceSize(LinesPerChunk(|content|, |Split(content)|, maxTokens), content, maxTokens)
  {
    var length, lines := |content| as real, |Split(content)| as real;
    hide Split;
    if content == "" {
      assert length == 0.0;
      assert 4.0 * maxTokens * lines < 0.0;
    } else {
      SameQuotient(length, lines, maxTokens);
      var q := 4.0 * maxTokens * lines / length;
      var n := LinesPerChunk(|content|, |Split(content)|, maxTokens);
      assert n == if q.Floor < 5 then 5 else q.Floor;
      FittingIsGreatest(q, length, 4.0 * maxTokens * lines, n);
      FittingIsGreatest(q, length, 4.0 * maxTokens * lines, n + 1);
    }
  }

  lemma PartsHead(lines: seq<string>, start: int, k: nat, size: nat, seg: Segment, language: string, counter: nat)
    requires 0 < size && lines != []
    ensures var head, rest := lines[..AtMost(size, |lines|)], Drop(lines, size);
      Parts(lines, start, k, size, seg, language, counter)
      == [CodeChunk(ChunkId(language, counter), Join(head), language, seg.kind, PartName(seg.name, k),
                    start, start + |head| - 1, Tokens(Join(head)))]
         + Parts(rest, start + size, k + 1, size, seg, language, counter + 1)
  {
    hide ChunkId, Join, PartName, Tokens;
    assert Take(lines, size) == lines[..AtMost(size, |lines|)];
  }

  lemma SliceOfRest(lines: seq<string>, size: nat, j: nat)
    requires 0 < size && 0 < j && Begin(j - 1, size) < AtMost(Begin(j, size), |Drop(lines, size)|)
    ensures var rest := Drop(lines, size);
      var lo, hi := Begin(j - 1, size), AtMost(Begin(j, size), |rest|);
      && lo < hi && size + lo == Begin(j, size) && size + hi == AtMost(Begin(j + 1, size), |lines|)
      && rest[lo..hi] == lines[Begin(j, size)..AtMost(Begin(j + 1, size), |lines|)]
  {
    var rest := Drop(lines, size);
    BeginsLater(j, size);
    BeginsLater(j + 1, size);
    hide Begin;
    var lo, hi := Begin(j - 1, size), AtMost(Begin(j, size), |rest|);
    assert |rest| == |lines| - size && hi + size == AtMost(Begin(j + 1, size), |lines|);
    SliceOfSlice(lines, size, lo, hi);
  }

  lemma SliceOfSlice(lines: seq<string>, size: nat, lo: nat, hi: nat)
    requires size + hi <= |lines| && lo <= hi
    ensures Drop(lines, size) == lines[size..] && lines[size..][lo..hi] == lines[size + lo..size + hi]
  {}

  lemma BeginsLater(j: nat, size: nat)
    requires 0 < j && 0 < size
    ensures Begin(j, size) == Begin(j - 1, size) + size && Begin(j - 1, size) < Begin(j, size)
  {
    Shifted(j, size);
  }

  /** Part j, worked out from the lines it holds. */
  function PartOf(lines: seq<string>, start: int, k: nat, size: nat, seg: Segment, language: string, counter: nat, j: nat): CodeChunk
    requires Begin(j, size) < AtMost(Begin(j + 1, size), |lines|)
  {
    var lo, hi := Begin(j, size), AtMost(Begin(j + 1, size), |lines|);
    CodeChunk(ChunkId(language, counter + j), Join(lines[lo..hi]), language, seg.kind, PartName(seg.name, k + j),
              start + lo, start + hi - 1, Tokens(Join(lines[lo..hi])))
  }

  lemma PartMoves(lines: seq<string>, start: int, k: nat, size: nat, seg: Segment, language: string, counter: nat, j: nat)
    requires 0 < size && 0 < j && Begin(j - 1, size) < AtMost(Begin(j, size), |Drop(lines, size)|)
    ensures Begin(j, size) < AtMost(Begin(j + 1, size), |lines|)
    ensures PartOf(lines, start, k, size, seg, language, counter, j)
      == PartOf(Drop(lines, size), start + size, k + 1, size, seg, language, counter + 1, j - 1)
  {
    SliceOfRest(lines, size, j);
    hide ChunkId, Join, PartName, Tokens, Drop, Begin, AtMost;
    assert counter + 1 + (j - 1) == counter + j && k + 1 + (j - 1) == k + j;
  }

  lemma FirstPart(lines: seq<string>, start: int, k: nat, size: nat, seg: Segment, language: string, counter: nat)
    requires 0 < size && lines != []
    ensures Begin(0, size) < AtMost(Begin(1, size), |lines|)
    ensures Parts(lines, start, k, size, seg, language, counter)
      == [PartOf(lines, start, k, size, seg, language, counter, 0)]
         + Parts(Drop(lines, size), start + size, k + 1, size, seg, language, counter + 1)
  {
    hide ChunkId, Join, PartName, Tokens;
    assert Begin(0, size) == 0 && Begin(1, size) == size;
    PartsHead(lines, start, k, size, seg, language, counter);
    hide Parts, Begin;
  }

  lemma {:induction false} PartAt(lines: seq<string>, start: int, k: nat, size: nat, seg: Segment, language: string, counter: nat, j: nat)
    requires 0 < size && j < |Parts(lines, start, k, size, seg, language, counter)|
    ensures Begin(j, size) < AtMost(Begin(j + 1, size), |lines|)
    ensures Parts(lines, start, k, size, seg, language, counter)[j] == PartOf(lines, start, k, size, seg, language, counter, j)
    decreases j
  {
    assert lines != [];
    FirstPart(lines, start, k, size, seg, language, counter);
    hide Parts, Drop, Begin, AtMost, PartOf;
    if j > 0 {
      PartAt(Drop(lines, size), start + size, k + 1, size, seg, language, counter + 1, j - 1);
      PartMoves(lines, start, k, size, seg, language, counter, j);
    }
  }

  lemma Shifted(j: nat, size: nat)
    requires 0 < j
    ensures size + (j - 1) * size == j * size && size + j * size == (j + 1) * size
  {}

  lemma {:induction false} PartsCover(lines: seq<string>, start: int, k: nat, size: nat, seg: Segment, language: string, counter: nat)
    requires 0 < size && lines != []
    ensures var n := |Parts(lines, start, k, size, seg, language, counter)|;
      0 < n && (n - 1) * size < |lines| <= n * size
    decreases |lines|
  {
    hide ChunkId, Join, PartName, Tokens;
    var rest := Drop(lines, size);
    if rest != [] {
      PartsCover(rest, start + size, k + 1, size, seg, language, counter + 1);
      var n := |Parts(lines, start, k, size, seg, language, counter)|;
      Shifted(n - 1, size);
    }
  }

  /** The segment is cut into pieces of n lines, the last one with what is left, and no line is left over. */
  ghost predicate IsCut(chunks: seq<CodeChunk>, seg: Segment, language: string, counter: nat, n: nat) {
    && chunks != [] && (|chunks| - 1) * n < |Split(seg.content)| <= |chunks| * n
    && forall k :: 0 <= k < |chunks| ==> IsPiece(chunks[k], seg, language, counter, n, k)
  }

  lemma {:induction false} SplitIsCut(seg: Segment, language: string, maxTokens: real, counter: nat)
    ensures IsCut(SplitByLines(seg, language, maxTokens, counter), seg, language, counter,
                  LinesPerChunk(|seg.content|, |Split(seg.content)|, maxTokens))
  {
    hide Split, ChunkId, Join, Parts, Tokens, LinesPerChunk;
    var lines, n := Split(seg.content), LinesPerChunk(|seg.content|, |Split(seg.content)|, maxTokens);
    PartsCover(lines, seg.startLine, 0, n, seg, language, counter);
    var chunks := SplitByLines(seg, language, maxTokens, counter);
    forall k | 0 <= k < |chunks| ensures IsPiece(chunks[k], seg, language, counter, n, k) {
      PartAt(lines, seg.startLine, 0, n, seg, language, counter, k);
      TokensAreEstimate(chunks[k].content);
      hide IsEstimate;
    }
  }

  /** A segment stays one chunk under its own name exactly if it has no more than four characters for each whole token of the
      limit; otherwise it is cut into pieces of as many lines as fit, but at least five. */
  lemma {:induction false} SegmentIsCut(seg: Segment, language: string, maxTokens: real, counter: nat)
    ensures var chunks := SegmentChunks(seg, language, maxTokens, counter);
      if |seg.content| <= 4 * maxTokens.Floor then |chunks| == 1 && IsWhole(chunks[0], seg, language, counter)
      else exists n: nat :: IsPieceSize(n, seg.content, maxTokens) && IsCut(chunks, seg, language, counter, n)
  {
    TooManyTokens(seg.content, maxTokens);
    TokensAreEstimate(seg.content);
    if |seg.content| > 4 * maxTokens.Floor {
      assert seg.content != "" || maxTokens < 0.0;
      PieceSizeIs(seg.content, maxTokens);
      SplitIsCut(seg, language, maxTokens, counter);
    }
    hide Tokens, IsPieceSize, IsCut, SplitByLines, ChunkId, LinesPerChunk;
  }

  /** A chunk that is a whole segment within the limit, or a piece of one that is beyond it. */
  ghost predicate IsSized(c: CodeChunk, seg: Segment, language: string, maxTokens: real) {
    exists counter: nat ::
      if |seg.content| <= 4 * maxTokens.Floor then IsWhole(c, seg, language, counter)
      else IsSizedPiece(c, seg, language, maxTokens, counter)
  }

  ghost predicate IsSizedPiece(c: CodeChunk, seg: Segment, language: string, maxTokens: real, counter: nat) {
    exists n: nat, k: nat :: IsPieceSize(n, seg.content, maxTokens) && IsPiece(c, seg, language, counter, n, k)
  }

  lemma {:induction false} ChunksOfSegmentAreSized(seg: Segment, language: string, maxTokens: real, counter: nat)
    ensures forall c :: c in SegmentChunks(seg, language, maxTokens, counter) ==> IsSized(c, seg, language, maxTokens)
  {
    SegmentIsCut(seg, language, maxTokens, counter);
    var chunks := SegmentChunks(seg, language, maxTokens, counter);
    hide SegmentChunks, IsWhole, IsPiece, IsPieceSize;
    forall c | c in chunks ensures IsSized(c, seg, language, maxTokens) {
      var k: nat :| k < |chunks| && chunks[k] == c;
      if |seg.content| > 4 * maxTokens.Floor {
        var n: nat :| IsPieceSize(n, seg.content, maxTokens) && IsCut(chunks, seg, language, counter, n);
        assert IsPiece(c, seg, language, counter, n, k);
        assert IsSizedPiece(c, seg, language, maxTokens, counter);
      }
    }
  }

  /** Every chunk of a text is one of these, of some segment. */
  lemma {:induction false} EveryChunkIsSized(segments: seq<Segment>, language: string, maxTokens: real)
    ensures forall c :: c in ChunkAll(segments, language, maxTokens) ==> exists s :: s in segments && IsSized(c, s, language, maxTokens)
  {
    hide SegmentChunks, IsSized;
    if segments != [] {
      var init, last := segments[..|segments| - 1], segments[|segments| - 1];
      EveryChunkIsSized(init, language, maxTokens);
      var before := ChunkAll(init, language, maxTokens);
      ChunksOfSegmentAreSized(last, language, maxTokens, |before|);
      forall c | c in ChunkAll(segments, language, maxTokens) ensures exists s :: s in segments && IsSized(c, s, language, maxTokens) {
        if c in before {
          var s :| s in init && IsSized(c, s, language, maxTokens);
          assert s in segments;
        } else {
          assert last in segments;
        }
      }
    }
  }

  /** Functions are chunked by their bodies, classes by their lines of the source, each under its own name, kind and lines. */
  lemma SegmentsAre(code: string, fs: seq<FunctionNode>, cs: seq<ClassNode>)
    ensures var segments, lines := Segments(code, fs, cs), Split(code);
      && |fs| + |cs| <= |segments|
      && (forall i :: 0 <= i < |fs| ==> segments[i] == Segment(fs[i].body, fs[i].startLine, fs[i].endLine, FunctionChunk, Some(fs[i].name)))
      && (forall i :: 0 <= i < |cs| && 1 <= cs[i].startLine <= cs[i].endLine <= |lines| ==>
            segments[|fs| + i] == Segment(Join(lines[cs[i].startLine - 1..cs[i].endLine]), cs[i].startLine, cs[i].endLine,
                                          ClassChunk, Some(cs[i].name)))
      && (forall i :: |fs| + |cs| <= i < |segments| ==> segments[i].kind == ModuleChunk)
  {
    hide Split, Join, ModuleSegments;
    ModulesAreModules(Split(code), Covered(fs, cs));
  }

  lemma {:induction false} ModulesAreModules(lines: seq<string>, covered: set<int>)
    ensures AllModules(ModuleSegments(lines, covered))
  {
    hide Join;
    ScannedAreModules(lines, covered, |lines|);
  }

  lemma {:induction false} ScannedAreModules(lines: seq<string>, covered: set<int>, k: nat)
    requires k <= |lines|
    ensures AllModules(ScanTo(lines, covered, k).segments)
  {
    hide Join;
    if k > 0 {
      ScannedAreModules(lines, covered, k - 1);
    }
  }
}
