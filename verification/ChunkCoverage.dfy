/** Which lines of a source text the chunks cover: the lines that no function or class covers are the module chunks, each
    once and in order, and every line lies in the range of some chunk. */
module ChunkCoverage {
  import opened Wrappers
  import opened Text
  import opened Chunking

  /** The numbers from one line to another, the set a loop that adds each of them builds. */
  function LineRange(from: int, to: int): (r: set<int>)
    ensures forall n :: n in r <==> (from <= n <= to)
    decreases if from > to then 0 else to - from + 1
  {
    if from > to then {} else LineRange(from, to - 1) + {to}
  }

  function CoveredByFunctions(fs: seq<FunctionNode>): set<int> {
    if fs == [] then {} else CoveredByFunctions(fs[..|fs| - 1]) + LineRange(fs[|fs| - 1].startLine, fs[|fs| - 1].endLine)
  }

  function CoveredByClasses(cs: seq<ClassNode>): set<int> {
    if cs == [] then {} else CoveredByClasses(cs[..|cs| - 1]) + LineRange(cs[|cs| - 1].startLine, cs[|cs| - 1].endLine)
  }

  function Covered(fs: seq<FunctionNode>, cs: seq<ClassNode>): set<int> {
    CoveredByFunctions(fs) + CoveredByClasses(cs)
  }

  function FunctionSegments(fs: seq<FunctionNode>): (r: seq<Segment>)
    ensures |r| == |fs|
  {
    seq(|fs|, i requires 0 <= i < |fs| => FunctionSegment(fs[i]))
  }

  function ClassSegments(lines: seq<string>, cs: seq<ClassNode>): (r: seq<Segment>)
    ensures |r| == |cs|
  {
    seq(|cs|, i requires 0 <= i < |cs| => ClassSegment(lines, cs[i]))
  }

  /** Everything chunk hands to addChunk, in order. */
  function Segments(code: string, fs: seq<FunctionNode>, cs: seq<ClassNode>): seq<Segment> {
    var lines := Split(code);
    FunctionSegments(fs) + ClassSegments(lines, cs) + ModuleSegments(lines, Covered(fs, cs))
  }

  /** The uncovered lines among the first k, with their numbers, in order. */
  function Uncovered(lines: seq<string>, covered: set<int>, k: nat): seq<Entry>
    requires k <= |lines|
  {
    if k == 0 then [] else Uncovered(lines, covered, k - 1) + if k in covered then [] else [(k, lines[k - 1])]
  }

  lemma {:induction false} SegmentsAppend(segments: seq<Segment>, s: Segment)
    ensures EntriesOfSegments(segments + [s]) == EntriesOfSegments(segments) + SegmentEntries(s)
  {
    hide SegmentEntries;
    assert (segments + [s])[..|segments|] == segments;
  }

  ghost predicate AllModules(segments: seq<Segment>) {
    forall i :: 0 <= i < |segments| ==> segments[i].kind == ModuleChunk
  }

  lemma FlushIsExact(s: Scan, end: int)
    requires AreLines(s.curLines) && SegmentsSpan(s.segments)
    requires s.curLines != [] ==> s.curStart + |s.curLines| - 1 == end
    ensures SegmentsSpan(Flush(s, end))
    ensures EntriesOfSegments(Flush(s, end)) == EntriesOfSegments(s.segments) + Numbered(s.curStart, s.curLines)
    ensures AllModules(s.segments) ==> AllModules(Flush(s, end))
  {
    hide Split, Join;
    if s.curLines != [] {
      SplitOfJoin(s.curLines);
      SegmentsAppend(s.segments, Segment(Join(s.curLines), s.curStart, end, ModuleChunk, None));
    }
  }

  /** What the scan has collected after k lines: closed runs, and an open one that ends at line k. */
  ghost predicate ScanHolds(s: Scan, k: nat, entries: seq<Entry>) {
    && AreLines(s.curLines) && SegmentsSpan(s.segments) && AllModules(s.segments)
    && (s.curLines != [] ==> s.curStart + |s.curLines| - 1 == k)
    && EntriesOfSegments(s.segments) + Numbered(s.curStart, s.curLines) == entries
  }

  lemma ScanCovered(s: Scan, k: nat, entries: seq<Entry>, line: string)
    requires k > 0 && ScanHolds(s, k - 1, entries)
    ensures ScanHolds(ScanLine(s, line, k, true), k, entries)
  {
    hide Split, Join, EntriesOfSegments, SegmentsSpan, Flush;
    FlushIsExact(s, k - 1);
    var next := ScanLine(s, line, k, true);
    assert next.segments == Flush(s, k - 1) && next.curLines == [];
  }

  lemma ScanUncovered(s: Scan, k: nat, entries: seq<Entry>, line: string)
    requires k > 0 && SingleLine(line) && ScanHolds(s, k - 1, entries)
    ensures ScanHolds(ScanLine(s, line, k, false), k, entries + [(k, line)])
  {
    hide Split, Join, EntriesOfSegments, SegmentsSpan, Flush, AllModules;
    var next := ScanLine(s, line, k, false);
    assert next.curStart + |s.curLines| == k;
    assert Numbered(next.curStart, next.curLines) == Numbered(s.curStart, s.curLines) + [(k, line)];
  }

  /** The scan has put each uncovered line, once and in order, into a closed run or the open one. */
  lemma {:induction false} ScanIsExact(lines: seq<string>, covered: set<int>, k: nat)
    requires k <= |lines| && AreLines(lines)
    ensures ScanHolds(ScanTo(lines, covered, k), k, Uncovered(lines, covered, k))
  {
    hide Split, Join, ScanLine;
    if k == 0 {
      assert AreLines([]);
    } else {
      hide ScanHolds;
      ScanIsExact(lines, covered, k - 1);
      var s := ScanTo(lines, covered, k - 1);
      if k in covered {
        ScanCovered(s, k, Uncovered(lines, covered, k - 1), lines[k - 1]);
      } else {
        ScanUncovered(s, k, Uncovered(lines, covered, k - 1), lines[k - 1]);
      }
    }
  }

  lemma {:induction false} ModuleSegmentsAreExact(lines: seq<string>, covered: set<int>)
    requires AreLines(lines)
    ensures var segments := ModuleSegments(lines, covered);
      && SegmentsSpan(segments)
      && EntriesOfSegments(segments) == Uncovered(lines, covered, |lines|)
      && AllModules(segments)
  {
    hide SegmentsSpan, EntriesOfSegments, ScanTo, Uncovered;
    ScanIsExact(lines, covered, |lines|);
    FlushIsExact(ScanTo(lines, covered, |lines|), |lines|);
  }

  function OfKind(chunks: seq<CodeChunk>, kind: Kind): seq<CodeChunk> {
    if chunks == [] then [] else
      OfKind(chunks[..|chunks| - 1], kind) + if chunks[|chunks| - 1].kind == kind then [chunks[|chunks| - 1]] else []
  }

  lemma {:induction false} OfKindConcat(a: seq<CodeChunk>, b: seq<CodeChunk>, kind: Kind)
    ensures OfKind(a + b, kind) == OfKind(a, kind) + OfKind(b, kind)
  {
    if b == [] {
      assert a + b == a;
    } else {
      assert (a + b)[..|a + b| - 1] == a + b[..|b| - 1];
      OfKindConcat(a, b[..|b| - 1], kind);
    }
  }

  lemma {:induction false} AllOfKind(chunks: seq<CodeChunk>, own: Kind, kind: Kind)
    requires forall i :: 0 <= i < |chunks| ==> chunks[i].kind == own
    ensures OfKind(chunks, kind) == if own == kind then chunks else []
  {
    if chunks != [] {
      var init, last := chunks[..|chunks| - 1], chunks[|chunks| - 1];
      AllOfKind(init, own, kind);
      assert last.kind == own;
      assert OfKind(chunks, kind) == OfKind(init, kind) + if last.kind == kind then [last] else [];
    }
  }

  lemma {:induction false} SegmentKinds(seg: Segment, language: string, maxTokens: real, counter: nat)
    ensures forall i :: 0 <= i < |SegmentChunks(seg, language, maxTokens, counter)| ==>
      SegmentChunks(seg, language, maxTokens, counter)[i].kind == seg.kind
  {
    hide Split, LinesPerChunk, Parts, ChunkId;
    SplitYieldsLines(seg.content);
    var lines := Split(seg.content);
    PartsAreExact(lines, seg.startLine, 0, LinesPerChunk(|seg.content|, |lines|, maxTokens), seg, language, counter);
  }

  /** Segments of another kind contribute no chunk of this kind. */
  lemma {:induction false} OtherKindsAreSkipped(segments: seq<Segment>, kind: Kind, language: string, maxTokens: real)
    requires forall i :: 0 <= i < |segments| ==> segments[i].kind != kind
    ensures OfKind(ChunkAll(segments, language, maxTokens), kind) == []
  {
    hide SegmentChunks;
    if segments != [] {
      var init, last := segments[..|segments| - 1], segments[|segments| - 1];
      var before := ChunkAll(init, language, maxTokens);
      var chunks := SegmentChunks(last, language, maxTokens, |before|);
      OtherKindsAreSkipped(init, kind, language, maxTokens);
      OfKindConcat(before, chunks, kind);
      SegmentKinds(last, language, maxTokens, |before|);
      AllOfKind(chunks, last.kind, kind);
    }
  }

  /** Chunking others first changes the numbers of later chunks, not the lines they hold. */
  lemma {:induction false} KindIsExact(others: seq<Segment>, segments: seq<Segment>, kind: Kind, language: string, maxTokens: real)
    requires forall i :: 0 <= i < |others| ==> others[i].kind != kind
    requires forall i :: 0 <= i < |segments| ==> segments[i].kind == kind
    requires SegmentsSpan(segments)
    ensures AllEntries(OfKind(ChunkAll(others + segments, language, maxTokens), kind)) == EntriesOfSegments(segments)
  {
    hide SegmentChunks, SegmentEntries, ChunkEntries, Split;
    if segments == [] {
      assert others + segments == others;
      OtherKindsAreSkipped(others, kind, language, maxTokens);
      NoEntries();
    } else {
      var init, last := segments[..|segments| - 1], segments[|segments| - 1];
      assert (others + segments)[..|others + segments| - 1] == others + init;
      KindIsExact(others, init, kind, language, maxTokens);
      var before := ChunkAll(others + init, language, maxTokens);
      var chunks := SegmentChunks(last, language, maxTokens, |before|);
      OfKindConcat(before, chunks, kind);
      SegmentIsExact(last, language, maxTokens, |before|);
      AllOfKind(chunks, kind, kind);
      EntriesConcat(OfKind(before, kind), chunks);
    }
  }

  /** Module chunks hold exactly the lines no function or class covers, each once, in order, under its own number. */
  lemma {:induction false} ModuleChunksAreExact(code: string, fs: seq<FunctionNode>, cs: seq<ClassNode>, language: string, maxTokens: real)
    ensures AllEntries(OfKind(ChunkAll(Segments(code, fs, cs), language, maxTokens), ModuleChunk))
      == Uncovered(Split(code), Covered(fs, cs), |Split(code)|)
  {
    hide Split, ChunkAll, OfKind, AllEntries, EntriesOfSegments, SegmentsSpan, ModuleSegments, Covered;
    var lines := Split(code);
    SplitYieldsLines(code);
    ModuleSegmentsAreExact(lines, Covered(fs, cs));
    var others := FunctionSegments(fs) + ClassSegments(lines, cs);
    KindIsExact(others, ModuleSegments(lines, Covered(fs, cs)), ModuleChunk, language, maxTokens);
  }

  /** What the parser promises: nodes in range, bodies spanning their stated lines. */
  ghost predicate ParserContract(code: string, fs: seq<FunctionNode>, cs: seq<ClassNode>) {
    && (forall i :: 0 <= i < |fs| ==> 1 <= fs[i].startLine && SpansContent(fs[i].body, fs[i].startLine, fs[i].endLine))
    && (forall i :: 0 <= i < |cs| ==> 1 <= cs[i].startLine <= cs[i].endLine <= |Split(code)|)
  }

  lemma ClassSpans(lines: seq<string>, c: ClassNode)
    requires AreLines(lines) && 1 <= c.startLine <= c.endLine <= |lines|
    ensures SpansContent(ClassSegment(lines, c).content, c.startLine, c.endLine)
  {
    hide Split, Join;
    var own := Slice(lines, c.startLine - 1, c.endLine);
    assert own != [] && AreLines(own);
    SplitOfJoin(own);
  }

  lemma {:induction false} AllSegmentsSpan(code: string, fs: seq<FunctionNode>, cs: seq<ClassNode>)
    requires ParserContract(code, fs, cs)
    ensures SegmentsSpan(Segments(code, fs, cs))
  {
    hide Split, Join, ModuleSegments, Covered, SpansContent, Slice;
    var lines := Split(code);
    SplitYieldsLines(code);
    ModuleSegmentsAreExact(lines, Covered(fs, cs));
    forall i | 0 <= i < |cs| ensures SpansContent(ClassSegment(lines, cs[i]).content, cs[i].startLine, cs[i].endLine) {
      ClassSpans(lines, cs[i]);
    }
  }

  lemma {:induction false} AllChunksAreExact(segments: seq<Segment>, language: string, maxTokens: real)
    requires SegmentsSpan(segments)
    ensures AllEntries(ChunkAll(segments, language, maxTokens)) == EntriesOfSegments(segments)
    ensures ChunksSpan(ChunkAll(segments, language, maxTokens))
  {
    hide SegmentChunks, SegmentEntries, ChunkEntries, SpansContent;
    if segments == [] {
      NoEntries();
    } else {
      var init, last := segments[..|segments| - 1], segments[|segments| - 1];
      AllChunksAreExact(init, language, maxTokens);
      var before := ChunkAll(init, language, maxTokens);
      SegmentIsExact(last, language, maxTokens, |before|);
      EntriesConcat(before, SegmentChunks(last, language, maxTokens, |before|));
    }
  }

  /** Some entry carries the number n. */
  ghost predicate Lists(entries: seq<Entry>, n: int) {
    exists m :: 0 <= m < |entries| && entries[m].0 == n
  }

  ghost predicate InRange(chunks: seq<CodeChunk>, n: int) {
    exists i :: 0 <= i < |chunks| && chunks[i].startLine <= n <= chunks[i].endLine
  }

  lemma {:induction false} ListedIsInRange(chunks: seq<CodeChunk>, n: int)
    requires ChunksSpan(chunks) && Lists(AllEntries(chunks), n)
    ensures InRange(chunks, n)
  {
    hide Split;
    if chunks != [] {
      var init, last := chunks[..|chunks| - 1], chunks[|chunks| - 1];
      var m :| 0 <= m < |AllEntries(chunks)| && AllEntries(chunks)[m].0 == n;
      if m < |AllEntries(init)| {
        assert AllEntries(init)[m].0 == n;
        ListedIsInRange(init, n);
        var i :| 0 <= i < |init| && init[i].startLine <= n <= init[i].endLine;
        assert chunks[i].startLine <= n <= chunks[i].endLine;
      } else {
        assert ChunkEntries(last)[m - |AllEntries(init)|].0 == n;
        assert chunks[|chunks| - 1].startLine <= n <= chunks[|chunks| - 1].endLine;
      }
    }
  }

  lemma {:induction false} SegmentIsListed(segments: seq<Segment>, i: nat, n: int)
    requires i < |segments| && SegmentsSpan(segments) && segments[i].startLine <= n <= segments[i].endLine
    ensures Lists(EntriesOfSegments(segments), n)
  {
    hide Split;
    var init, last := segments[..|segments| - 1], segments[|segments| - 1];
    var before := EntriesOfSegments(init);
    if i < |init| {
      SegmentIsListed(init, i, n);
      var m :| 0 <= m < |before| && before[m].0 == n;
      assert EntriesOfSegments(segments)[m].0 == n;
    } else {
      assert EntriesOfSegments(segments)[|before| + n - last.startLine].0 == n;
    }
  }

  lemma {:induction false} UncoveredIsListed(lines: seq<string>, covered: set<int>, k: nat, n: int)
    requires 1 <= n <= k <= |lines| && n !in covered
    ensures Lists(Uncovered(lines, covered, k), n)
  {
    if n < k {
      UncoveredIsListed(lines, covered, k - 1, n);
      var m :| 0 <= m < |Uncovered(lines, covered, k - 1)| && Uncovered(lines, covered, k - 1)[m].0 == n;
      assert Uncovered(lines, covered, k)[m].0 == n;
    } else {
      assert Uncovered(lines, covered, k)[|Uncovered(lines, covered, k - 1)|].0 == n;
    }
  }

  lemma {:induction false} EntriesOfConcat(a: seq<Segment>, b: seq<Segment>)
    ensures EntriesOfSegments(a + b) == EntriesOfSegments(a) + EntriesOfSegments(b)
  {
    hide SegmentEntries;
    if b == [] {
      assert a + b == a;
    } else {
      assert (a + b)[..|a + b| - 1] == a + b[..|b| - 1];
      EntriesOfConcat(a, b[..|b| - 1]);
    }
  }

  lemma {:induction false} FunctionOf(fs: seq<FunctionNode>, n: int) returns (i: nat)
    requires n in CoveredByFunctions(fs)
    ensures i < |fs| && fs[i].startLine <= n <= fs[i].endLine
  {
    i := |fs| - 1;
    if !(fs[i].startLine <= n <= fs[i].endLine) {
      i := FunctionOf(fs[..|fs| - 1], n);
    }
  }

  lemma {:induction false} ClassOf(cs: seq<ClassNode>, n: int) returns (i: nat)
    requires n in CoveredByClasses(cs)
    ensures i < |cs| && cs[i].startLine <= n <= cs[i].endLine
  {
    i := |cs| - 1;
    if !(cs[i].startLine <= n <= cs[i].endLine) {
      i := ClassOf(cs[..|cs| - 1], n);
    }
  }

  lemma {:induction false} EveryLineIsListed(code: string, fs: seq<FunctionNode>, cs: seq<ClassNode>, n: int)
    requires ParserContract(code, fs, cs) && 1 <= n <= |Split(code)|
    ensures Lists(EntriesOfSegments(Segments(code, fs, cs)), n)
  {
    hide Split, Join, EntriesOfSegments, ModuleSegments, Uncovered, SegmentsSpan, ParserContract, CoveredByFunctions, CoveredByClasses;
    var lines, segments := Split(code), Segments(code, fs, cs);
    AllSegmentsSpan(code, fs, cs);
    if n in CoveredByFunctions(fs) {
      var i := FunctionOf(fs, n);
      assert segments[i] == FunctionSegment(fs[i]);
      SegmentIsListed(segments, i, n);
    } else if n in CoveredByClasses(cs) {
      var i := ClassOf(cs, n);
      assert segments[|fs| + i] == ClassSegment(lines, cs[i]);
      SegmentIsListed(segments, |fs| + i, n);
    } else {
      SplitYieldsLines(code);
      ModuleSegmentsAreExact(lines, Covered(fs, cs));
      UncoveredIsListed(lines, Covered(fs, cs), |lines|, n);
      var others, modules := FunctionSegments(fs) + ClassSegments(lines, cs), ModuleSegments(lines, Covered(fs, cs));
      EntriesOfConcat(others, modules);
      var m :| 0 <= m < |EntriesOfSegments(modules)| && EntriesOfSegments(modules)[m].0 == n;
      assert EntriesOfSegments(segments)[|EntriesOfSegments(others)| + m].0 == n;
    }
  }

  /** Every line of the source lies in the range of some chunk. */
  lemma {:induction false} EveryLineIsChunked(code: string, fs: seq<FunctionNode>, cs: seq<ClassNode>,
                                              language: string, maxTokens: real, n: int)
    requires ParserContract(code, fs, cs) && 1 <= n <= |Split(code)|
    ensures InRange(ChunkAll(Segments(code, fs, cs), language, maxTokens), n)
  {
    hide Split, ChunkAll, EntriesOfSegments, AllEntries, SegmentsSpan, ParserContract, InRange, Lists, Segments;
    AllSegmentsSpan(code, fs, cs);
    AllChunksAreExact(Segments(code, fs, cs), language, maxTokens);
    EveryLineIsListed(code, fs, cs, n);
    ListedIsInRange(ChunkAll(Segments(code, fs, cs), language, maxTokens), n);
  }
}
