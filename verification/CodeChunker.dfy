/** The chunker as it runs: one pass over functions, one over classes, one over the lines neither covers, with the covered
    set and the counter of chunks that the three passes share and update. */
module CodeChunker {
  import opened Wrappers
  import opened Text
  import opened Chunking
  import opened ChunkCoverage

  /** The counter every chunk takes its number from. */
  class Counter {
    var n: nat

    constructor ()
      ensures n == 0
    {
      n := 0;
    }
  }

  lemma ProductGap(q: nat, k: nat, size: nat)
    requires q < k
    ensures q * size + size <= k * size
  {
    assert (k - q - 1) * size >= 0;
    assert k * size == q * size + size + (k - q - 1) * size;
  }

  lemma PartNumber(n: nat, k: nat, size: nat)
    requires 0 < size && n == k * size
    ensures n / size == k
  {
    var q := n / size;
    assert q * size <= n < q * size + size;
    if q > k {
      ProductGap(k, q, size);
    } else if q < k {
      ProductGap(q, k, size);
    }
  }

  lemma DropMore(lines: seq<string>, i: nat, size: nat)
    ensures Drop(Drop(lines, i), size) == Drop(lines, i + size)
  {}

  lemma PartsStep(lines: seq<string>, start: int, k: nat, size: nat, seg: Segment, language: string, counter: nat)
    requires 0 < size && lines != []
    ensures var head := Take(lines, size);
      var part := CodeChunk(ChunkId(language, counter), Join(head), language, seg.kind, PartName(seg.name, k),
                            start, start + |head| - 1, Tokens(Join(head)));
      Parts(lines, start, k, size, seg, language, counter)
      == [part] + Parts(Drop(lines, size), start + size, k + 1, size, seg, language, counter + 1)
  {
    hide Join, PartName, Tokens, ChunkId;
  }

  class SemanticChunker {
    /** The parser's two queries, taking the code and its language. */
    const extractFunctions: (string, string) -> seq<FunctionNode>
    const extractClasses: (string, string) -> seq<ClassNode>

    constructor (extractFunctions: (string, string) -> seq<FunctionNode>, extractClasses: (string, string) -> seq<ClassNode>)
      ensures this.extractFunctions == extractFunctions && this.extractClasses == extractClasses
    {
      this.extractFunctions, this.extractClasses := extractFunctions, extractClasses;
    }

    /** Everything chunk hands on, as the parser sees the code. */
    ghost function SegmentsOf(code: string, language: string): seq<Segment> {
      Segments(code, extractFunctions(code, language), extractClasses(code, language))
    }

    method Chunk(code: string, language: string, maxTokens: real) returns (chunks: seq<CodeChunk>)
      ensures chunks == ChunkAll(SegmentsOf(code, language), language, maxTokens)
    {
      hide ChunkAll, Covered, Split, ModuleSegments;
      var counter := new Counter();
      var functions := extractFunctions(code, language);
      var covered;
      chunks, covered := ChunkFunctions(functions, language, maxTokens, counter);
      var classes := extractClasses(code, language);
      chunks, covered := ChunkClasses(code, classes, FunctionSegments(functions), chunks, covered, language, maxTokens, counter);
      assert covered == Covered(functions, classes) by {
        hide CoveredByFunctions, CoveredByClasses;
        CoveredUnfolds(functions, classes);
      }
      chunks := ChunkRest(Split(code), covered, FunctionSegments(functions) + ClassSegments(Split(code), classes),
                          chunks, language, maxTokens, counter);
    }

    method ChunkFunctions(functions: seq<FunctionNode>, language: string, maxTokens: real, counter: Counter)
      returns (chunks: seq<CodeChunk>, covered: set<int>)
      requires counter.n == 0
      modifies counter
      ensures chunks == ChunkAll(FunctionSegments(functions), language, maxTokens)
      ensures covered == CoveredByFunctions(functions)
      ensures counter.n == |chunks|
    {
      hide SegmentChunks;
      chunks, covered := [], {};
      var i := 0;
      while i < |functions|
        invariant 0 <= i <= |functions| && counter.n == |chunks|
        invariant chunks == ChunkAll(FunctionSegments(functions)[..i], language, maxTokens)
        invariant covered == CoveredByFunctions(functions[..i])
      {
        var fn := functions[i];
        chunks := AddChunk(chunks, FunctionSegment(fn), language, maxTokens, counter);
        covered := CoverLines(covered, fn.startLine, fn.endLine);
        i := i + 1;
        assert functions[..i][..i - 1] == functions[..i - 1];
        assert FunctionSegments(functions)[..i][..i - 1] == FunctionSegments(functions)[..i - 1];
      }
      assert functions[..i] == functions;
      assert FunctionSegments(functions)[..i] == FunctionSegments(functions);
    }

    /** The inner loops over line numbers. */
    method CoverLines(covered: set<int>, from: int, end: int) returns (more: set<int>)
      ensures more == covered + LineRange(from, end)
    {
      more := covered;
      var i := from;
      while i <= end
        invariant from <= i && (i <= end + 1 || i == from)
        invariant forall n :: n in more <==> n in covered || from <= n < i
        decreases end - i
      {
        more := more + {i};
        i := i + 1;
      }
    }

    method ChunkClasses(code: string, classes: seq<ClassNode>, ghost done: seq<Segment>, chunks0: seq<CodeChunk>, covered0: set<int>,
                        language: string, maxTokens: real, counter: Counter)
      returns (chunks: seq<CodeChunk>, covered: set<int>)
      requires chunks0 == ChunkAll(done, language, maxTokens) && counter.n == |chunks0|
      modifies counter
      ensures chunks == ChunkAll(done + ClassSegments(Split(code), classes), language, maxTokens)
      ensures covered == covered0 + CoveredByClasses(classes)
      ensures counter.n == |chunks|
    {
      hide SegmentChunks, Split, Join;
      chunks, covered := chunks0, covered0;
      ghost var segments := ClassSegments(Split(code), classes);
      var i := 0;
      assert done + segments[..0] == done;
      while i < |classes|
        invariant 0 <= i <= |classes| && counter.n == |chunks|
        invariant chunks == ChunkAll(done + segments[..i], language, maxTokens)
        invariant covered == covered0 + CoveredByClasses(classes[..i])
      {
        var cls := classes[i];
        var clsLines := Slice(Split(code), cls.startLine - 1, cls.endLine);
        var clsContent := Join(clsLines);
        chunks := AddChunk(chunks, Segment(clsContent, cls.startLine, cls.endLine, ClassChunk, Some(cls.name)), language, maxTokens, counter);
        covered := CoverLines(covered, cls.startLine, cls.endLine);
        i := i + 1;
        assert classes[..i][..i - 1] == classes[..i - 1];
        assert (done + segments[..i])[..|done| + i - 1] == done + segments[..i - 1];
      }
      assert classes[..i] == classes;
      assert segments[..i] == segments;
    }

    /** The scan over the lines, flushing the open run at every covered line and at the end. */
    method ChunkRest(lines: seq<string>, covered: set<int>, ghost done: seq<Segment>, chunks0: seq<CodeChunk>,
                     language: string, maxTokens: real, counter: Counter)
      returns (chunks: seq<CodeChunk>)
      requires chunks0 == ChunkAll(done, language, maxTokens) && counter.n == |chunks0|
      modifies counter
      ensures chunks == ChunkAll(done + ModuleSegments(lines, covered), language, maxTokens)
    {
      hide SegmentChunks, Join, ChunkAll;
      chunks := chunks0;
      ghost var s := ScanTo(lines, covered, 0);
      assert done + s.segments == done;
      var curStart, curLines: seq<string>, i := 0, [], 0;
      while i < |lines|
        invariant 0 <= i <= |lines| && counter.n == |chunks|
        invariant s == ScanTo(lines, covered, i) && s.curStart == curStart && s.curLines == curLines
        invariant chunks == ChunkAll(done + s.segments, language, maxTokens)
      {
        if i + 1 !in covered {
          if curLines == [] {
            curStart := i + 1;
          }
          curLines := curLines + [lines[i]];
        } else if curLines != [] {
          chunks := FlushRun(chunks, curLines, curStart, i, done, s, language, maxTokens, counter);
          curLines := [];
        }
        i := i + 1;
        s := ScanLine(s, lines[i - 1], i, i in covered);
      }
      if curLines != [] {
        chunks := FlushRun(chunks, curLines, curStart, |lines|, done, s, language, maxTokens, counter);
      }
    }

    method FlushRun(chunks: seq<CodeChunk>, curLines: seq<string>, curStart: int, end: int, ghost done: seq<Segment>, ghost s: Scan,
                    language: string, maxTokens: real, counter: Counter)
      returns (more: seq<CodeChunk>)
      requires curLines != [] && s.curLines == curLines && s.curStart == curStart
      requires chunks == ChunkAll(done + s.segments, language, maxTokens) && counter.n == |chunks|
      modifies counter
      ensures more == ChunkAll(done + Flush(s, end), language, maxTokens)
      ensures counter.n == |more|
    {
      hide SegmentChunks, Join;
      var segment := Segment(Join(curLines), curStart, end, ModuleChunk, None);
      more := AddChunk(chunks, segment, language, maxTokens, counter);
      assert done + Flush(s, end) == done + s.segments + [segment];
      assert (done + s.segments + [segment])[..|done + s.segments|] == done + s.segments;
    }

    method AddChunk(chunks: seq<CodeChunk>, seg: Segment, language: string, maxTokens: real, counter: Counter)
      returns (more: seq<CodeChunk>)
      requires counter.n == |chunks|
      modifies counter
      ensures more == chunks + SegmentChunks(seg, language, maxTokens, |chunks|)
      ensures counter.n == |more|
    {
      var tokens := Tokens(seg.content);
      if tokens as real > maxTokens {
        var parts := SplitByLines(seg, language, maxTokens, counter);
        more := chunks + parts;
      } else {
        more := chunks + [CodeChunk(ChunkId(language, counter.n), seg.content, language, seg.kind, seg.name,
                                    seg.startLine, seg.endLine, tokens)];
        counter.n := counter.n + 1;
      }
    }

    method SplitByLines(seg: Segment, language: string, maxTokens: real, counter: Counter) returns (result: seq<CodeChunk>)
      modifies counter
      ensures result == Chunking.SplitByLines(seg, language, maxTokens, old(counter.n))
      ensures counter.n == old(counter.n) + |result|
    {
      hide Split, Join, PartName, Tokens, ChunkId, LinesPerChunk, Take, Drop, Parts;
      var lines := Split(seg.content);
      var linesPerChunk := LinesPerChunk(|seg.content|, |lines|, maxTokens);
      ghost var all := Parts(lines, seg.startLine, 0, linesPerChunk, seg, language, counter.n);
      result := [];
      var i := 0;
      ghost var k := 0;
      DropNone(lines);
      while i < |lines|
        invariant 0 <= i && i == k * linesPerChunk
        invariant result + Parts(Drop(lines, i), seg.startLine + i, k, linesPerChunk, seg, language, counter.n) == all
        invariant counter.n == old(counter.n) + |result|
        decreases |lines| - i
      {
        DropSome(lines, i);
        PartsStep(Drop(lines, i), seg.startLine + i, k, linesPerChunk, seg, language, counter.n);
        DropMore(lines, i, linesPerChunk);
        PartNumber(i, k, linesPerChunk);
        var chunkLines := Take(Drop(lines, i), linesPerChunk);
        var chunkContent := Join(chunkLines);
        var partNum := i / linesPerChunk;
        result := result + [CodeChunk(ChunkId(language, counter.n), chunkContent, language, seg.kind, PartName(seg.name, partNum),
                                      seg.startLine + i, seg.startLine + i + |chunkLines| - 1, Tokens(chunkContent))];
        counter.n := counter.n + 1;
        i := i + linesPerChunk;
        k := k + 1;
      }
      DropAll(lines, i);
      NoParts(seg.startLine + i, k, linesPerChunk, seg, language, counter.n);
    }
  }

  lemma DropNone(lines: seq<string>)
    ensures Drop(lines, 0) == lines
  {}

  lemma DropSome(lines: seq<string>, i: nat)
    requires i < |lines|
    ensures Drop(lines, i) != []
  {}

  lemma DropAll(lines: seq<string>, i: nat)
    requires |lines| <= i
    ensures Drop(lines, i) == []
  {}

  lemma NoParts(start: int, k: nat, size: nat, seg: Segment, language: string, counter: nat)
    requires 0 < size
    ensures Parts([], start, k, size, seg, language, counter) == []
  {}

  lemma CoveredUnfolds(fs: seq<FunctionNode>, cs: seq<ClassNode>)
    ensures Covered(fs, cs) == CoveredByFunctions(fs) + CoveredByClasses(cs)
  {}
}
