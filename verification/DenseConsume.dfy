/** From commit to print: over a log that commits made, the consumer numbers its lines
    consecutively. */
module DenseConsume {
  import opened Prelude
  import opened BlobModel
  import opened BlobReader
  import opened BlobStore
  import opened Consume
  import opened ConsumeTheorems
  import opened ConsumeResume
  import opened ConsumeLines
  import opened DenseOffsets

  // Every entry names chunks in staging objects.
  ghost predicate OnlyStaged(cfg: RewriteConfig, entries: seq<LogPayload>) {
    forall i :: 0 <= i < |entries| ==>
      && (entries[i].DataRefEntry? || entries[i].ReferenceBatch?)
      && forall r :: r in PayloadRefs(entries[i]) ==> !IsRewrittenBlobKey(cfg, r.blobKey)
  }

  // Records that come before entry `n` of the log.
  function RecordsBefore(entries: seq<LogPayload>, n: nat): nat
    requires n <= |entries|
  {
    var refs := LogRefs(entries[..n]);
    DenseOffsets.Records(refs, |refs|)
  }

  lemma {:induction false} RefsOnlyStaged(cfg: RewriteConfig, entries: seq<LogPayload>)
    requires OnlyStaged(cfg, entries)
    ensures forall r :: r in LogRefs(entries) ==> !IsRewrittenBlobKey(cfg, r.blobKey)
  {
    hide IsRewrittenBlobKey;
    if entries != [] {
      var n := |entries| - 1;
      assert OnlyStaged(cfg, entries[..n]);
      RefsOnlyStaged(cfg, entries[..n]);
    }
  }

  // The pointers of a log: those before an entry, its own, and those after it.
  lemma {:induction false} RefsAround(entries: seq<LogPayload>, n: nat)
    requires n < |entries|
    ensures LogRefs(entries) == (LogRefs(entries[..n]) + PayloadRefs(entries[n])) + LogRefs(entries[n + 1..])
    ensures LogRefs(entries[..n + 1]) == LogRefs(entries[..n]) + PayloadRefs(entries[n])
  {
    assert entries[..n + 1][..n] == entries[..n];
    assert entries == entries[..n + 1] + entries[n + 1..];
    LogRefsAppend(entries[..n + 1], entries[n + 1..]);
  }

  // Pointer `a` of entry `n` is numbered after everything before it.
  lemma {:induction false} MemberNumbered(c: Codec, cfg: RewriteConfig, log: VerseLog, n: nat, a: nat)
    requires DenseLog(c, cfg, log) && OnlyStaged(cfg, log.entries)
    requires n < |log.entries| && a < |PayloadRefs(log.entries[n])|
    ensures var refs := PayloadRefs(log.entries[n]);
      NumberedAt(c, refs[a], RecordsBefore(log.entries, n) + DenseOffsets.Records(refs, a))
  {
    hide NumberedAt, LogRefs, DenseOffsets.Records, Staged;
    var all, before, refs := LogRefs(log.entries), LogRefs(log.entries[..n]), PayloadRefs(log.entries[n]);
    RefsOnlyStaged(cfg, log.entries);
    StagedAll(cfg, all);
    RefsAround(log.entries, n);
    var k := |before| + a;
    assert NumberedAt(c, all[k], DenseOffsets.Records(all, k));
    assert all[k] == refs[a];
    RecordsConcat(before + refs, LogRefs(log.entries[n + 1..]), k);
    RecordsConcat(before, refs, k);
    if a == 0 { NoRecords(refs); }
  }

  // A chunk resolved from a numbered pointer.
  lemma {:induction false} ResolvedNumbered(c: Codec, objects: Objects, r: DataRef, base: nat)
    requires ResolveOne(c, objects, r).Ok? && NumberedAt(c, r, base)
    ensures var frames := ResolveOne(c, objects, r).value.chunk.frames;
      |frames| == 1 && frames[0].baseOffset == base && |frames[0].records| == r.recordCount
  {
    assert c.digest(Slice(objects, r)) == r.chunkDigest;
  }

  // What the entries read look like.
  ghost predicate OneFrameAt(chunk: ResolvedChunk, base: nat, count: nat) {
    var frames := chunk.chunk.frames;
    |frames| == 1 && frames[0].baseOffset == base && |frames[0].records| == count
  }

  lemma {:induction false} EntryNumbered(c: Codec, cfg: RewriteConfig, log: VerseLog, n: nat,
          chunks: seq<ResolvedChunk>)
    requires DenseLog(c, cfg, log) && OnlyStaged(cfg, log.entries) && MeansAt(c, log.entries, n, chunks)
    ensures var refs := PayloadRefs(log.entries[n]);
      && |chunks| == |refs|
      && forall a :: 0 <= a < |refs| ==>
          OneFrameAt(chunks[a], RecordsBefore(log.entries, n) + DenseOffsets.Records(refs, a), refs[a].recordCount)
  {
    hide ResolveAll, ResolveOne, NumberedAt, DenseLog, RecordsBefore, DenseOffsets.Records, IsRewrittenBlobKey;
    var refs := PayloadRefs(log.entries[n]);
    var objects :| ResolvePayload(c, objects, log.entries[n]) == Ok(chunks);
    ResolveAllIsEach(c, objects, refs, |refs|);
    forall a | 0 <= a < |refs| ensures
      OneFrameAt(chunks[a], RecordsBefore(log.entries, n) + DenseOffsets.Records(refs, a), refs[a].recordCount)
    {
      MemberNumbered(c, cfg, log, n, a);
      ResolvedNumbered(c, objects, refs[a], RecordsBefore(log.entries, n) + DenseOffsets.Records(refs, a));
    }
  }

  lemma {:induction false} OneFrame(frames: seq<Frame>)
    requires |frames| == 1
    ensures InFrames(frames, 0) == 0 && InFrames(frames, 1) == |frames[0].records|
  {
  }

  lemma {:induction false} InChunksIs(chunks: seq<ResolvedChunk>, refs: seq<DataRef>, base: nat, a: nat)
    requires |chunks| == |refs| && a <= |refs|
    requires forall i :: 0 <= i < |refs| ==>
      OneFrameAt(chunks[i], base + DenseOffsets.Records(refs, i), refs[i].recordCount)
    ensures InChunks(chunks, a) == DenseOffsets.Records(refs, a)
  {
    hide InFrames;
    if a > 0 {
      InChunksIs(chunks, refs, base, a - 1);
      assert OneFrameAt(chunks[a - 1], base + DenseOffsets.Records(refs, a - 1), refs[a - 1].recordCount);
      OneFrame(chunks[a - 1].chunk.frames);
    }
  }

  lemma {:induction false} BeforeNext(entries: seq<LogPayload>, n: nat)
    requires n < |entries|
    ensures var refs := PayloadRefs(entries[n]);
      RecordsBefore(entries, n + 1) == RecordsBefore(entries, n) + DenseOffsets.Records(refs, |refs|)
  {
    hide LogRefs, DenseOffsets.Records;
    var before, refs := LogRefs(entries[..n]), PayloadRefs(entries[n]);
    RefsAround(entries, n);
    RecordsConcat(before, refs, |before| + |refs|);
    NoRecords(refs);
    assert |refs| == 0 ==> DenseOffsets.Records(refs, |refs|) == 0;
  }

  // `all` are the chunks of the entries from `m` on.
  lemma {:induction false} InEntriesIs(c: Codec, cfg: RewriteConfig, log: VerseLog, m: nat,
          all: seq<seq<ResolvedChunk>>, n: nat)
    requires DenseLog(c, cfg, log) && OnlyStaged(cfg, log.entries) && n <= |all| && m + |all| <= |log.entries|
    requires forall j :: 0 <= j < |all| ==> MeansAt(c, log.entries, m + j, all[j])
    ensures RecordsBefore(log.entries, m) + InEntries(all, n) == RecordsBefore(log.entries, m + n)
  {
    hide DenseLog, OnlyStaged, MeansAt, RecordsBefore, InChunks, DenseOffsets.Records;
    if n > 0 {
      InEntriesIs(c, cfg, log, m, all, n - 1);
      var refs := PayloadRefs(log.entries[m + n - 1]);
      EntryNumbered(c, cfg, log, m + n - 1, all[n - 1]);
      InChunksIs(all[n - 1], refs, RecordsBefore(log.entries, m + n - 1), |refs|);
      BeforeNext(log.entries, m + n - 1);
    }
  }

  lemma {:induction false} TotalBound(c: Codec, cfg: RewriteConfig, log: VerseLog, n: nat)
    requires DenseLog(c, cfg, log) && OnlyStaged(cfg, log.entries) && n <= |log.entries|
    ensures RecordsBefore(log.entries, n) < U64_LIMIT
  {
    hide LogRefs, Staged, Numbered, IsRewrittenBlobKey, DenseOffsets.Records;
    RefsOnlyStaged(cfg, log.entries);
    StagedAll(cfg, LogRefs(log.entries));
    assert log.entries == log.entries[..n] + log.entries[n..];
    LogRefsAppend(log.entries[..n], log.entries[n..]);
    var a, b := LogRefs(log.entries[..n]), LogRefs(log.entries[n..]);
    RecordsConcat(a, b, |a| + |b|);
    NoRecords(b);
    assert |b| == 0 ==> DenseOffsets.Records(b, |b|) == 0;
  }

  // The entries from `m` on mean these chunks.
  ghost predicate MeansFrom(c: Codec, entries: seq<LogPayload>, m: nat, all: seq<seq<ResolvedChunk>>) {
    m + |all| <= |entries| && forall j :: 0 <= j < |all| ==> MeansAt(c, entries, m + j, all[j])
  }

  lemma {:induction false} PlaceIsDense(c: Codec, cfg: RewriteConfig, log: VerseLog, m: nat,
          all: seq<seq<ResolvedChunk>>, p: Place)
    requires DenseLog(c, cfg, log) && OnlyStaged(cfg, log.entries) && MeansFrom(c, log.entries, m, all)
    requires IsPlace(all, p) && p.k == 0
    ensures FrameAt(all, p).baseOffset == RecordsBefore(log.entries, m) + Index(all, p)
  {
    hide DenseLog, OnlyStaged, MeansAt, RecordsBefore, InEntries, InChunks, InFrames, DenseOffsets.Records;
    var refs := PayloadRefs(log.entries[m + p.n]);
    EntryNumbered(c, cfg, log, m + p.n, all[p.n]);
    InEntriesIs(c, cfg, log, m, all, p.n);
    InChunksIs(all[p.n], refs, RecordsBefore(log.entries, m + p.n), p.a);
    assert OneFrameAt(all[p.n][p.a], RecordsBefore(log.entries, m + p.n) + DenseOffsets.Records(refs, p.a),
        refs[p.a].recordCount);
    OneFrame(all[p.n][p.a].chunk.frames);
  }

  lemma {:induction false} FramesAreDense(c: Codec, cfg: RewriteConfig, log: VerseLog, m: nat,
          all: seq<seq<ResolvedChunk>>)
    requires DenseLog(c, cfg, log) && OnlyStaged(cfg, log.entries) && MeansFrom(c, log.entries, m, all)
    ensures DenseFrames(all, RecordsBefore(log.entries, m))
  {
    hide DenseLog, OnlyStaged, MeansAt, RecordsBefore, InEntries, IsPlace, Index, FrameAt;
    InEntriesIs(c, cfg, log, m, all, |all|);
    TotalBound(c, cfg, log, m + |all|);
    hide MeansFrom;
    forall p | IsPlace(all, p) && p.k == 0
      ensures FrameAt(all, p).baseOffset == RecordsBefore(log.entries, m) + Index(all, p)
    {
      PlaceIsDense(c, cfg, log, m, all, p);
    }
  }

  /** Over any log that commits made, without rewrites, the consumer numbers its lines
      consecutively from the number of records before the entry it starts at: the offsets it
      prints are those the commits acknowledged. */
  lemma {:induction false} CommittedLogsPrintDensely(c: Codec, cfg: RewriteConfig, log: VerseLog, origin: nat,
          options: Options, passes: seq<Pass>)
    requires DenseLog(c, cfg, log) && OnlyStaged(cfg, log.entries)
    requires History(passes, origin) && FinalEntries(passes) <= log.entries
    requires origin <= options.from <= origin + |log.entries|
    ensures var lines := Run(c, options, passes).tail.lines;
      forall j :: 0 <= j < |lines| ==> lines[j].offset == RecordsBefore(log.entries, options.from - origin) + j
  {
    hide DenseLog, OnlyStaged, RecordsBefore, Run, DenseFrames, History, Means, FinalEntries;
    var m := options.from - origin;
    var all := OffsetsAreConsecutive(c, origin, options, passes, RecordsBefore(log.entries, m));
    forall j | 0 <= j < |all| ensures MeansAt(c, log.entries, m + j, all[j]) {
      assert MeansAt(c, FinalEntries(passes), m + j, all[j]);
    }
    if |all| > 0 { assert MeansAt(c, log.entries, m + |all| - 1, all[|all| - 1]); }
    FramesAreDense(c, cfg, log, m, all);
  }
}
