/** The chunks of a source text: segments for functions, classes and the lines between them, each cut into pieces that
    hold its lines in order and join to its content again. */
module Chunking {
  import opened Wrappers
  import opened Text

  datatype Kind = FunctionChunk | ClassChunk | ModuleChunk

  datatype CodeChunk = CodeChunk(
    id: string,
    content: string,
    language: string,
    kind: Kind,
    name: Option<string>,
    startLine: int,
    endLine: int,
    tokenEstimate: nat)

  /** What the parser reports; line numbers start at one. */
  datatype FunctionNode = FunctionNode(name: string, startLine: int, endLine: int, body: string)

  datatype ClassNode = ClassNode(name: string, startLine: int, endLine: int)

  /** A stretch of text handed to addChunk. */
  datatype Segment = Segment(content: string, startLine: int, endLine: int, kind: Kind, name: Option<string>)

  function ChunkId(language: string, n: nat): string {
    "chunk-" + (language + ("-" + Decimal(n)))
  }

  /** A quarter of the length, rounded up. */
  function Tokens(content: string): nat {
    (|content| + 3) / 4
  }

  /** At least five lines, otherwise as many as the token budget allows at the average line length. */
  function LinesPerChunk(length: nat, lineCount: nat, maxTokens: real): (n: nat)
    requires 0 < lineCount
    ensures 5 <= n
  {
    var average := length as real / lineCount as real;
    var lineLength := if average == 0.0 then 1.0 else average;
    var fitting := (maxTokens * 4.0 / lineLength).Floor;
    if fitting < 5 then 5 else fitting
  }

  /** The name of a numbered part; an empty name counts as none. */
  function PartName(name: Option<string>, k: nat): Option<string> {
    if name.Some? && name.value != "" then Some(name.value + "_part" + Decimal(k + 1)) else None
  }

  function Take(lines: seq<string>, n: nat): seq<string> {
    if n <= |lines| then lines[..n] else lines
  }

  function Drop(lines: seq<string>, n: nat): seq<string> {
    if n <= |lines| then lines[n..] else []
  }

  /** Part number k of a segment, and all the parts after it. */
  function Parts(lines: seq<string>, start: int, k: nat, size: nat, seg: Segment, language: string, counter: nat): seq<CodeChunk>
    requires 0 < size
    decreases |lines|
  {
    if lines == [] then [] else
      var head := Take(lines, size);
      var content := Join(head);
      [CodeChunk(ChunkId(language, counter), content, language, seg.kind, PartName(seg.name, k),
                 start, start + |head| - 1, Tokens(content))]
      + Parts(Drop(lines, size), start + size, k + 1, size, seg, language, counter + 1)
  }

  /** splitByLines */
  function SplitByLines(seg: Segment, language: string, maxTokens: real, counter: nat): seq<CodeChunk> {
    var lines := Split(seg.content);
    Parts(lines, seg.startLine, 0, LinesPerChunk(|seg.content|, |lines|, maxTokens), seg, language, counter)
  }

  /** addChunk: the segment as one chunk if it fits the budget, otherwise its parts. */
  function SegmentChunks(seg: Segment, language: string, maxTokens: real, counter: nat): seq<CodeChunk> {
    if Tokens(seg.content) as real > maxTokens then SplitByLines(seg, language, maxTokens, counter)
    else [CodeChunk(ChunkId(language, counter), seg.content, language, seg.kind, seg.name,
                    seg.startLine, seg.endLine, Tokens(seg.content))]
  }

  /** The chunks of a list of segments, numbered through. */
  function ChunkAll(segments: seq<Segment>, language: string, maxTokens: real): seq<CodeChunk> {
    if segments == [] then [] else
      var before := ChunkAll(segments[..|segments| - 1], language, maxTokens);
      before + SegmentChunks(segments[|segments| - 1], language, maxTokens, |before|)
  }

  function FunctionSegment(f: FunctionNode): Segment {
    Segment(f.body, f.startLine, f.endLine, FunctionChunk, Some(f.name))
  }

  /** Where a bound of lines.slice falls: a negative one counts from the end. */
  function Bound(n: int, length: nat): (b: nat)
    ensures b <= length
    ensures 0 <= n <= length ==> b == n
  {
    if n < 0 then if length + n < 0 then 0 else length + n
    else if n > length then length else n
  }

  function Slice(lines: seq<string>, from: int, to: int): seq<string> {
    var lo, hi := Bound(from, |lines|), Bound(to, |lines|);
    if lo <= hi then lines[lo..hi] else []
  }

  function ClassSegment(lines: seq<string>, c: ClassNode): Segment {
    Segment(Join(Slice(lines, c.startLine - 1, c.endLine)), c.startLine, c.endLine, ClassChunk, Some(c.name))
  }

  /** The scan for lines outside functions and classes, after the first k lines. */
  datatype Scan = Scan(segments: seq<Segment>, curStart: int, curLines: seq<string>)

  function Flush(s: Scan, end: int): seq<Segment> {
    if s.curLines == [] then s.segments
    else s.segments + [Segment(Join(s.curLines), s.curStart, end, ModuleChunk, None)]
  }

  function ScanLine(s: Scan, line: string, number: int, isCovered: bool): Scan {
    if !isCovered then Scan(s.segments, if s.curLines == [] then number else s.curStart, s.curLines + [line])
    else Scan(Flush(s, number - 1), s.curStart, [])
  }

  function ScanTo(lines: seq<string>, covered: set<int>, k: nat): Scan
    requires k <= |lines|
  {
    if k == 0 then Scan([], 0, []) else ScanLine(ScanTo(lines, covered, k - 1), lines[k - 1], k, k in covered)
  }

  function ModuleSegments(lines: seq<string>, covered: set<int>): seq<Segment> {
    Flush(ScanTo(lines, covered, |lines|), |lines|)
  }

  /** A line of a chunk with its number in the source. */
  type Entry = (int, string)

  function Numbered(start: int, lines: seq<string>): (es: seq<Entry>)
    ensures |es| == |lines|
  {
    seq(|lines|, j requires 0 <= j < |lines| => (start + j, lines[j]))
  }

  function SegmentEntries(s: Segment): seq<Entry> {
    Numbered(s.startLine, Split(s.content))
  }

  function ChunkEntries(c: CodeChunk): seq<Entry> {
    Numbered(c.startLine, Split(c.content))
  }

  function AllEntries(chunks: seq<CodeChunk>): seq<Entry> {
    if chunks == [] then [] else AllEntries(chunks[..|chunks| - 1]) + ChunkEntries(chunks[|chunks| - 1])
  }

  function EntriesOfSegments(segments: seq<Segment>): seq<Entry> {
    if segments == [] then [] else EntriesOfSegments(segments[..|segments| - 1]) + SegmentEntries(segments[|segments| - 1])
  }

  /** The stated line range has as many lines as the content. */
  predicate SpansContent(content: string, startLine: int, endLine: int) {
    endLine == startLine + |Split(content)| - 1
  }

  ghost predicate ChunksSpan(chunks: seq<CodeChunk>) {
    forall i :: 0 <= i < |chunks| ==> SpansContent(chunks[i].content, chunks[i].startLine, chunks[i].endLine)
  }

  lemma NumberedConcat(start: int, a: seq<string>, b: seq<string>)
    ensures Numbered(start, a + b) == Numbered(start, a) + Numbered(start + |a|, b)
  {}

  lemma {:induction false} EntriesConcat(a: seq<CodeChunk>, b: seq<CodeChunk>)
    ensures AllEntries(a + b) == AllEntries(a) + AllEntries(b)
  {
    hide ChunkEntries;
    if b == [] {
      assert a + b == a;
    } else {
      assert (a + b)[..|a + b| - 1] == a + b[..|b| - 1];
      EntriesConcat(a, b[..|b| - 1]);
    }
  }

  lemma EntriesOfOne(c: CodeChunk)
    ensures AllEntries([c]) == ChunkEntries(c)
  {
    hide ChunkEntries;
    assert [c][..0] == [];
  }

  /** The parts of a list of lines hold exactly these lines, numbered consecutively from the start. */
  lemma {:induction false} PartsHoldLines(lines: seq<string>, start: int, k: nat, size: nat, seg: Segment, language: string, counter: nat)
    requires 0 < size && AreLines(lines)
    ensures AllEntries(Parts(lines, start, k, size, seg, language, counter)) == Numbered(start, lines)
    decreases |lines|
  {
    hide Split, Join, PartName, Tokens, ChunkId, AllEntries;
    if lines == [] {
      NoEntries();
    } else {
      var head, rest := Take(lines, size), Drop(lines, size);
      var parts := Parts(lines, start, k, size, seg, language, counter);
      var tail := Parts(rest, start + size, k + 1, size, seg, language, counter + 1);
      assert lines == head + rest;
      PartsHoldLines(rest, start + size, k + 1, size, seg, language, counter + 1);
      SplitOfJoin(head);
      assert parts == [parts[0]] + tail;
      EntriesConcat([parts[0]], tail);
      EntriesOfOne(parts[0]);
      NumberedConcat(start, head, rest);
      assert Numbered(start + size, rest) == Numbered(start + |head|, rest);
    }
  }

  lemma {:induction false} PartsSpan(lines: seq<string>, start: int, k: nat, size: nat, seg: Segment, language: string, counter: nat)
    requires 0 < size && AreLines(lines)
    ensures ChunksSpan(Parts(lines, start, k, size, seg, language, counter))
    decreases |lines|
  {
    hide Split, Join, PartName, Tokens, ChunkId;
    if lines != [] {
      PartsSpan(Drop(lines, size), start + size, k + 1, size, seg, language, counter + 1);
      SplitOfJoin(Take(lines, size));
    }
  }

  lemma {:induction false} PartsAreLabelled(lines: seq<string>, start: int, k: nat, size: nat, seg: Segment, language: string, counter: nat)
    requires 0 < size
    ensures forall i :: 0 <= i < |Parts(lines, start, k, size, seg, language, counter)| ==>
      var part := Parts(lines, start, k, size, seg, language, counter)[i];
      part.kind == seg.kind && part.id == ChunkId(language, counter + i)
    decreases |lines|
  {
    hide Split, Join, PartName, Tokens, ChunkId;
    if lines != [] {
      PartsAreLabelled(Drop(lines, size), start + size, k + 1, size, seg, language, counter + 1);
    }
  }

  lemma {:induction false} PartsAreExact(lines: seq<string>, start: int, k: nat, size: nat, seg: Segment, language: string, counter: nat)
    requires 0 < size && AreLines(lines)
    ensures var parts := Parts(lines, start, k, size, seg, language, counter);
      && AllEntries(parts) == Numbered(start, lines)
      && ChunksSpan(parts)
      && forall i :: 0 <= i < |parts| ==> parts[i].kind == seg.kind && parts[i].id == ChunkId(language, counter + i)
  {
    hide Parts, AllEntries, ChunksSpan, ChunkId;
    PartsHoldLines(lines, start, k, size, seg, language, counter);
    PartsSpan(lines, start, k, size, seg, language, counter);
    PartsAreLabelled(lines, start, k, size, seg, language, counter);
  }

  /** Line ranges one behind the other, without gap or overlap. */
  ghost predicate Contiguous(chunks: seq<CodeChunk>, from: int, end: int) {
    && chunks != [] && chunks[0].startLine == from && chunks[|chunks| - 1].endLine == end
    && (forall i :: 0 <= i < |chunks| ==> chunks[i].startLine <= chunks[i].endLine)
    && (forall i :: 0 < i < |chunks| ==> chunks[i].startLine == chunks[i - 1].endLine + 1)
  }

  lemma ContiguousCons(c: CodeChunk, chunks: seq<CodeChunk>, end: int)
    requires c.startLine <= c.endLine && Contiguous(chunks, c.endLine + 1, end)
    ensures Contiguous([c] + chunks, c.startLine, end)
  {}

  /** The parts of a segment run without gap or overlap from its first line to its last. */
  lemma {:induction false} PartsAreContiguous(lines: seq<string>, start: int, k: nat, size: nat, seg: Segment, language: string, counter: nat)
    requires 0 < size && lines != []
    ensures Contiguous(Parts(lines, start, k, size, seg, language, counter), start, start + |lines| - 1)
    decreases |lines|
  {
    hide Split, Join, PartName, Tokens, ChunkId, Contiguous;
    var parts := Parts(lines, start, k, size, seg, language, counter);
    var rest := Drop(lines, size);
    var tail := Parts(rest, start + size, k + 1, size, seg, language, counter + 1);
    assert parts == [parts[0]] + tail;
    if |lines| > size {
      PartsAreContiguous(rest, start + size, k + 1, size, seg, language, counter + 1);
      ContiguousCons(parts[0], tail, start + |lines| - 1);
    } else {
      ContiguousOne(parts[0]);
      assert parts == [parts[0]];
    }
  }

  lemma ContiguousOne(c: CodeChunk)
    requires c.startLine <= c.endLine
    ensures Contiguous([c], c.startLine, c.endLine)
  {}

  lemma NoEntries()
    ensures AllEntries([]) == []
  {}

  function Contents(chunks: seq<CodeChunk>): (cs: seq<string>)
    ensures |cs| == |chunks|
  {
    seq(|chunks|, i requires 0 <= i < |chunks| => chunks[i].content)
  }

  lemma ContentsOfCons(c: CodeChunk, chunks: seq<CodeChunk>)
    ensures Contents([c] + chunks) == [c.content] + Contents(chunks)
  {}

  lemma {:induction false} JoinOfOne(line: string)
    ensures Join([line]) == line
  {}

  lemma {:induction false} PartsJoin(lines: seq<string>, start: int, k: nat, size: nat, seg: Segment, language: string, counter: nat)
    requires 0 < size && lines != []
    ensures Parts(lines, start, k, size, seg, language, counter) != []
    ensures Join(Contents(Parts(lines, start, k, size, seg, language, counter))) == Join(lines)
    decreases |lines|
  {
    hide PartName, Tokens, ChunkId, Join, Contents;
    var head, rest := Take(lines, size), Drop(lines, size);
    var parts := Parts(lines, start, k, size, seg, language, counter);
    var tail := Parts(rest, start + size, k + 1, size, seg, language, counter + 1);
    assert parts == [parts[0]] + tail && parts[0].content == Join(head);
    ContentsOfCons(parts[0], tail);
    if rest == [] {
      assert head == lines;
      assert [Join(head)] + Contents([]) == [Join(head)];
      JoinOfOne(Join(head));
    } else {
      PartsJoin(rest, start + size, k + 1, size, seg, language, counter + 1);
      JoinOfConcat([Join(head)], Contents(tail));
      JoinOfOne(Join(head));
      JoinOfConcat(head, rest);
      assert lines == head + rest;
    }
  }

  /** Joining the pieces of splitByLines with newlines gives the content back. */
  lemma {:induction false} PiecesReassemble(seg: Segment, language: string, maxTokens: real, counter: nat)
    ensures Join(Contents(SplitByLines(seg, language, maxTokens, counter))) == seg.content
  {
    hide Join, LinesPerChunk, Parts;
    var lines := Split(seg.content);
    PartsJoin(lines, seg.startLine, 0, LinesPerChunk(|seg.content|, |lines|, maxTokens), seg, language, counter);
    JoinOfSplit(seg.content);
  }

  /** Whether it is cut or not, a segment's chunks hold its lines, each once, in order and under its own number. */
  lemma {:induction false} SegmentIsExact(seg: Segment, language: string, maxTokens: real, counter: nat)
    requires SpansContent(seg.content, seg.startLine, seg.endLine)
    ensures var chunks := SegmentChunks(seg, language, maxTokens, counter);
      && AllEntries(chunks) == SegmentEntries(seg)
      && ChunksSpan(chunks)
      && forall i :: 0 <= i < |chunks| ==> chunks[i].kind == seg.kind && chunks[i].id == ChunkId(language, counter + i)
  {
    hide Split, Join, LinesPerChunk, ChunkId, AllEntries, Parts;
    var lines := Split(seg.content);
    SplitYieldsLines(seg.content);
    PartsAreExact(lines, seg.startLine, 0, LinesPerChunk(|seg.content|, |lines|, maxTokens), seg, language, counter);
    if Tokens(seg.content) as real <= maxTokens {
      EntriesOfOne(SegmentChunks(seg, language, maxTokens, counter)[0]);
    }
  }

  ghost predicate SegmentsSpan(segments: seq<Segment>) {
    forall i :: 0 <= i < |segments| ==> SpansContent(segments[i].content, segments[i].startLine, segments[i].endLine)
  }

  /** Numbering through: chunk i of the whole list carries the number i. */
  lemma {:induction false} IdsCountUp(segments: seq<Segment>, language: string, maxTokens: real)
    ensures forall i :: 0 <= i < |ChunkAll(segments, language, maxTokens)| ==>
      ChunkAll(segments, language, maxTokens)[i].id == ChunkId(language, i)
  {
    hide SegmentChunks, ChunkId;
    if segments != [] {
      var init := segments[..|segments| - 1];
      IdsCountUp(init, language, maxTokens);
      IdsOfSegment(segments[|segments| - 1], language, maxTokens, |ChunkAll(init, language, maxTokens)|);
    }
  }

  lemma {:induction false} IdsOfSegment(seg: Segment, language: string, maxTokens: real, counter: nat)
    ensures forall i :: 0 <= i < |SegmentChunks(seg, language, maxTokens, counter)| ==>
      SegmentChunks(seg, language, maxTokens, counter)[i].id == ChunkId(language, counter + i)
  {
    hide Split, ChunkId, LinesPerChunk, Parts;
    SplitYieldsLines(seg.content);
    var lines := Split(seg.content);
    PartsAreExact(lines, seg.startLine, 0, LinesPerChunk(|seg.content|, |lines|, maxTokens), seg, language, counter);
  }

  /** No two chunks share an id. */
  lemma {:induction false} IdsAreDistinct(segments: seq<Segment>, language: string, maxTokens: real, i: nat, j: nat)
    requires i < j < |ChunkAll(segments, language, maxTokens)|
    ensures ChunkAll(segments, language, maxTokens)[i].id != ChunkAll(segments, language, maxTokens)[j].id
  {
    hide ChunkAll;
    IdsCountUp(segments, language, maxTokens);
    if ChunkId(language, i) == ChunkId(language, j) {
      IdDetermines(language, i, j);
    }
  }

  lemma IdDetermines(language: string, i: nat, j: nat)
    requires ChunkId(language, i) == ChunkId(language, j)
    ensures i == j
  {
    hide Decimal;
    assert ChunkId(language, i)[6..] == language + ("-" + Decimal(i));
    assert ChunkId(language, j)[6..] == language + ("-" + Decimal(j));
    assert ChunkId(language, i)[6..][|language| + 1..] == Decimal(i);
    assert ChunkId(language, j)[6..][|language| + 1..] == Decimal(j);
    DecimalInjective(i, j);
  }
}
