/** Which record every printed line is, and under which offset. */
module ConsumeLines {
  import opened Prelude
  import opened BlobModel
  import opened BlobReader
  import opened Consume
  import opened ConsumeTheorems
  import opened ConsumeResume

  // Records before frame `b` of a chunk, before chunk `a` of an entry, before entry `n`.
  function InFrames(frames: seq<Frame>, b: nat): nat
    requires b <= |frames|
  {
    if b == 0 then 0 else InFrames(frames, b - 1) + |frames[b - 1].records|
  }

  function InChunks(chunks: seq<ResolvedChunk>, a: nat): nat
    requires a <= |chunks|
  {
    if a == 0 then 0 else
      var frames := chunks[a - 1].chunk.frames;
      InChunks(chunks, a - 1) + InFrames(frames, |frames|)
  }

  function InEntries(all: seq<seq<ResolvedChunk>>, n: nat): nat
    requires n <= |all|
  {
    if n == 0 then 0 else InEntries(all, n - 1) + InChunks(all[n - 1], |all[n - 1]|)
  }

  /** Record `k` of frame `b` of chunk `a` of entry `n`. */
  datatype Place = Place(n: nat, a: nat, b: nat, k: nat)

  predicate IsPlace(all: seq<seq<ResolvedChunk>>, p: Place) {
    && p.n < |all| && p.a < |all[p.n]| && p.b < |all[p.n][p.a].chunk.frames|
    && p.k < |all[p.n][p.a].chunk.frames[p.b].records|
  }

  function FrameAt(all: seq<seq<ResolvedChunk>>, p: Place): Frame
    requires IsPlace(all, p)
  {
    all[p.n][p.a].chunk.frames[p.b]
  }

  // Records of the entry that come before it, and of all entries.
  function IndexInEntry(all: seq<seq<ResolvedChunk>>, p: Place): nat
    requires IsPlace(all, p)
  {
    InChunks(all[p.n], p.a) + InFrames(all[p.n][p.a].chunk.frames, p.b) + p.k
  }

  function Index(all: seq<seq<ResolvedChunk>>, p: Place): nat
    requires IsPlace(all, p)
  {
    InEntries(all, p.n) + IndexInEntry(all, p)
  }

  /** How a record is printed: the position of its entry, its frame's base offset plus its
      place in the frame, and its payload. An offset past 2^64 gives way to the record's
      index in its entry. */
  function LineOf(from: nat, all: seq<seq<ResolvedChunk>>, p: Place): Line
    requires IsPlace(all, p)
  {
    var frame := FrameAt(all, p);
    Line(from + p.n,
         if frame.baseOffset + p.k < U64_LIMIT then frame.baseOffset + p.k else IndexInEntry(all, p),
         frame.records[p.k])
  }

  // The lines of a frame, a chunk, an entry, a log. ---------------------------------------------

  function RecordLine(entry: nat, before: nat, frame: Frame, k: nat): Line
    requires k < |frame.records|
  {
    Line(entry, if frame.baseOffset + k < U64_LIMIT then frame.baseOffset + k else before + k, frame.records[k])
  }

  lemma {:induction false} FrameLineAt(entry: nat, before: nat, frame: Frame, n: nat, k: nat)
    requires k < n <= |frame.records|
    ensures FrameLines(entry, before, frame, n)[k] == RecordLine(entry, before, frame, k)
  {
    if k < n - 1 { FrameLineAt(entry, before, frame, n - 1, k); }
  }

  lemma {:induction false} InFramesGrows(frames: seq<Frame>, b: nat, n: nat)
    requires b < n <= |frames|
    ensures InFrames(frames, b) + |frames[b].records| <= InFrames(frames, n)
  {
    if b < n - 1 { InFramesGrows(frames, b, n - 1); }
  }

  lemma {:induction false} FramesLength(entry: nat, before: nat, frames: seq<Frame>, n: nat)
    requires n <= |frames|
    ensures |FramesLines(entry, before, frames, n)| == InFrames(frames, n)
  {
    if n > 0 { FramesLength(entry, before, frames, n - 1); }
  }

  lemma {:induction false} FramesLineAt(entry: nat, before: nat, frames: seq<Frame>, n: nat, b: nat, k: nat)
    requires b < n <= |frames| && k < |frames[b].records|
    ensures InFrames(frames, b) + k < |FramesLines(entry, before, frames, n)|
    ensures FramesLines(entry, before, frames, n)[InFrames(frames, b) + k] ==
      RecordLine(entry, before + InFrames(frames, b), frames[b], k)
  {
    hide FrameLines, RecordLine;
    FramesLength(entry, before, frames, n);
    FramesLength(entry, before, frames, n - 1);
    InFramesGrows(frames, b, n);
    if b < n - 1 {
      InFramesGrows(frames, b, n - 1);
      FramesLineAt(entry, before, frames, n - 1, b, k);
    } else {
      FrameLineAt(entry, before + InFrames(frames, b), frames[b], |frames[b].records|, k);
    }
  }

  lemma {:induction false} InChunksGrows(chunks: seq<ResolvedChunk>, a: nat, n: nat)
    requires a < n <= |chunks|
    ensures InChunks(chunks, a + 1) <= InChunks(chunks, n)
  {
    if a < n - 1 { InChunksGrows(chunks, a, n - 1); }
  }

  lemma {:induction false} EntryLength(entry: nat, chunks: seq<ResolvedChunk>, n: nat)
    requires n <= |chunks|
    ensures |EntryLines(entry, chunks, n)| == InChunks(chunks, n)
  {
    if n > 0 {
      EntryLength(entry, chunks, n - 1);
      var frames := chunks[n - 1].chunk.frames;
      FramesLength(entry, |EntryLines(entry, chunks, n - 1)|, frames, |frames|);
    }
  }

  lemma {:induction false} EntryLineAt(entry: nat, chunks: seq<ResolvedChunk>, n: nat, a: nat, b: nat, k: nat)
    requires a < n <= |chunks| && b < |chunks[a].chunk.frames| && k < |chunks[a].chunk.frames[b].records|
    ensures var before := InChunks(chunks, a) + InFrames(chunks[a].chunk.frames, b);
      && before + k < |EntryLines(entry, chunks, n)|
      && EntryLines(entry, chunks, n)[before + k] == RecordLine(entry, before, chunks[a].chunk.frames[b], k)
  {
    hide FramesLines, RecordLine;
    var frames := chunks[n - 1].chunk.frames;
    EntryLength(entry, chunks, n);
    EntryLength(entry, chunks, n - 1);
    InChunksGrows(chunks, a, n);
    InFramesGrows(chunks[a].chunk.frames, b, |chunks[a].chunk.frames|);
    if a < n - 1 {
      InChunksGrows(chunks, a, n - 1);
      EntryLineAt(entry, chunks, n - 1, a, b, k);
    } else {
      FramesLineAt(entry, InChunks(chunks, a), frames, |frames|, b, k);
    }
  }

  lemma {:induction false} InEntriesPrefix(all: seq<seq<ResolvedChunk>>, m: nat, n: nat)
    requires n <= m <= |all|
    ensures InEntries(all[..m], n) == InEntries(all, n)
  {
    if n > 0 { InEntriesPrefix(all, m, n - 1); }
  }

  lemma {:induction false} AllLength(from: nat, all: seq<seq<ResolvedChunk>>)
    ensures |AllLines(from, all)| == InEntries(all, |all|)
  {
    if all != [] {
      var n := |all| - 1;
      AllLength(from, all[..n]);
      InEntriesPrefix(all, n, n);
      EntryLength(from + n, all[n], |all[n]|);
    }
  }

  lemma {:induction false} SamePlace(all: seq<seq<ResolvedChunk>>, m: nat, p: Place)
    requires m <= |all| && p.n < m && IsPlace(all, p)
    ensures IsPlace(all[..m], p) && Index(all[..m], p) == Index(all, p)
    ensures IndexInEntry(all[..m], p) == IndexInEntry(all, p) && FrameAt(all[..m], p) == FrameAt(all, p)
  {
    InEntriesPrefix(all, m, p.n);
  }

  lemma {:induction false} AllLineAt(from: nat, all: seq<seq<ResolvedChunk>>, p: Place)
    requires IsPlace(all, p)
    ensures Index(all, p) < |AllLines(from, all)| && AllLines(from, all)[Index(all, p)] == LineOf(from, all, p)
    decreases |all|
  {
    hide EntryLines, InFrames, InChunks;
    var n := |all| - 1;
    AllLength(from, all[..n]);
    InEntriesPrefix(all, n, n);
    if p.n < n {
      SamePlace(all, n, p);
      AllLineAt(from, all[..n], p);
    } else {
      EntryLineAt(from + n, all[n], |all[n]|, p.a, p.b, p.k);
    }
  }

  // Every line is the line of some record. -------------------------------------------------------

  lemma {:induction false} FindFrame(frames: seq<Frame>, n: nat, j: nat) returns (b: nat)
    requires n <= |frames| && j < InFrames(frames, n)
    ensures b < n && InFrames(frames, b) <= j < InFrames(frames, b) + |frames[b].records|
  {
    if j >= InFrames(frames, n - 1) { b := n - 1; } else { b := FindFrame(frames, n - 1, j); }
  }

  lemma {:induction false} FindChunk(chunks: seq<ResolvedChunk>, n: nat, j: nat) returns (a: nat)
    requires n <= |chunks| && j < InChunks(chunks, n)
    ensures a < n && InChunks(chunks, a) <= j < InChunks(chunks, a + 1)
  {
    if j >= InChunks(chunks, n - 1) { a := n - 1; } else { a := FindChunk(chunks, n - 1, j); }
  }

  lemma {:induction false} FindEntry(all: seq<seq<ResolvedChunk>>, m: nat, j: nat) returns (n: nat)
    requires m <= |all| && j < InEntries(all, m)
    ensures n < m && InEntries(all, n) <= j < InEntries(all, n + 1)
  {
    if j >= InEntries(all, m - 1) { n := m - 1; } else { n := FindEntry(all, m - 1, j); }
  }

  lemma {:induction false} FindPlace(all: seq<seq<ResolvedChunk>>, j: nat) returns (p: Place)
    requires j < InEntries(all, |all|)
    ensures IsPlace(all, p) && Index(all, p) == j
  {
    var n := FindEntry(all, |all|, j);
    var i := j - InEntries(all, n);
    var a := FindChunk(all[n], |all[n]|, i);
    var frames := all[n][a].chunk.frames;
    var b := FindFrame(frames, |frames|, i - InChunks(all[n], a));
    p := Place(n, a, b, i - InChunks(all[n], a) - InFrames(frames, b));
  }

  // Runs. -------------------------------------------------------------------------------------------

  // Line `j` is that of the record that `j` records come before.
  ghost predicate PrintsRecord(from: nat, all: seq<seq<ResolvedChunk>>, lines: seq<Line>, j: nat)
    requires j < |lines|
  {
    exists p :: IsPlace(all, p) && Index(all, p) == j && lines[j] == LineOf(from, all, p)
  }

  /** Over any history, with any limit: the entries read are those from the start to the final
      cursor; one line is printed for each of their records, in order, up to the limit; and
      line `j` is the record that `j` records come before, with its entry's position, its
      frame's base offset plus its place in the frame, and its payload. */
  lemma {:induction false} LinesAreRecords(c: Codec, origin: nat, options: Options, passes: seq<Pass>)
    returns (all: seq<seq<ResolvedChunk>>)
    requires History(passes, origin) && options.from >= origin
    ensures var t := Run(c, options, passes).tail;
      && t.cursor == options.from + |all| && MeansEach(c, origin, FinalEntries(passes), options.from, all)
      && |t.lines| == (if options.untilRecords.None? || InEntries(all, |all|) <= options.untilRecords.value
                       then InEntries(all, |all|) else options.untilRecords.value)
      && forall j :: 0 <= j < |t.lines| ==> PrintsRecord(options.from, all, t.lines, j)
  {
    all := RunReads(c, origin, FinalEntries(passes), options, passes);
    hide Run, MeansEach, AllLines, Index, LineOf, History;
    AllLength(options.from, all);
    var lines := Run(c, options, passes).tail.lines;
    forall j | 0 <= j < |lines| ensures PrintsRecord(options.from, all, lines, j) {
      var p := FindPlace(all, j);
      AllLineAt(options.from, all, p);
    }
  }

  /** Each frame's base offset counts the records before it. */
  ghost predicate DenseFrames(all: seq<seq<ResolvedChunk>>, start: nat) {
    && start + InEntries(all, |all|) <= U64_LIMIT
    && forall p :: IsPlace(all, p) && p.k == 0 ==> FrameAt(all, p).baseOffset == start + Index(all, p)
  }

  lemma {:induction false} IndexOfFrame(all: seq<seq<ResolvedChunk>>, p: Place)
    requires IsPlace(all, p)
    ensures IsPlace(all, p.(k := 0)) && FrameAt(all, p.(k := 0)) == FrameAt(all, p)
    ensures Index(all, p) == Index(all, p.(k := 0)) + p.k
  {
  }

  /** So over a log of densely numbered chunks the offsets printed are consecutive. */
  lemma {:induction false} OffsetsAreConsecutive(c: Codec, origin: nat, options: Options, passes: seq<Pass>, start: nat)
    returns (all: seq<seq<ResolvedChunk>>)
    requires History(passes, origin) && options.from >= origin
    ensures Run(c, options, passes).tail.cursor == options.from + |all|
    ensures MeansEach(c, origin, FinalEntries(passes), options.from, all)
    ensures var lines := Run(c, options, passes).tail.lines;
      DenseFrames(all, start) ==> forall j :: 0 <= j < |lines| ==> lines[j].offset == start + j
  {
    all := LinesAreRecords(c, origin, options, passes);
    hide Run, MeansEach, Index, History, IndexInEntry, FrameAt;
    var lines := Run(c, options, passes).tail.lines;
    if DenseFrames(all, start) {
      forall j | 0 <= j < |lines| ensures lines[j].offset == start + j {
        assert PrintsRecord(options.from, all, lines, j);
        var p :| IsPlace(all, p) && Index(all, p) == j && lines[j] == LineOf(options.from, all, p);
        IndexOfFrame(all, p);
      }
    }
  }
}
