/** The consumer reads entries, not chunks: unlike a deduplicated scan, it prints a chunk
    again for every superseding pointer a rewrite appended. */
module ConsumeRepeats {
  import opened Prelude
  import opened BlobModel
  import opened BlobReader
  import BlobScan
  import opened ScanTheorems
  import opened Lifecycle
  import opened LifecycleRuns
  import opened Consume
  import opened ConsumeTheorems
  import opened ConsumeResume
  import opened ConsumeStops

  type Entry = BlobScan.Entry

  function Payloads(lines: seq<Line>): (ps: seq<Record>)
    ensures |ps| == |lines| && forall i :: 0 <= i < |lines| ==> ps[i] == lines[i].payload
  {
    if lines == [] then [] else Payloads(lines[..|lines| - 1]) + [lines[|lines| - 1].payload]
  }

  lemma {:induction false} PayloadsConcat(a: seq<Line>, b: seq<Line>)
    ensures Payloads(a + b) == Payloads(a) + Payloads(b)
  {
  }

  lemma {:induction false} PayloadsSnoc(lines: seq<Line>, last: Line)
    ensures Payloads(lines + [last]) == Payloads(lines) + [last.payload]
  {
    assert (lines + [last])[..|lines|] == lines;
  }

  lemma {:induction false} FramePayloads(entry: nat, before: nat, frame: Frame, n: nat)
    requires n <= |frame.records|
    ensures Payloads(FrameLines(entry, before, frame, n)) == frame.records[..n]
  {
    if n > 0 {
      FramePayloads(entry, before, frame, n - 1);
      var front, last := FrameLines(entry, before, frame, n - 1), FrameLines(entry, before, frame, n)[n - 1];
      assert FrameLines(entry, before, frame, n) == front + [last] && last.payload == frame.records[n - 1];
      hide FrameLines;
      PayloadsSnoc(front, last);
      assert frame.records[..n] == frame.records[..n - 1] + [frame.records[n - 1]];
    }
  }

  lemma {:induction false} FrameRecordsSnoc(frames: seq<Frame>, f: Frame)
    ensures FrameRecords(frames + [f]) == FrameRecords(frames) + f.records
  {
    if frames == [] {
      assert frames + [f] == [f] && [f][1..] == [];
      assert FrameRecords([f]) == f.records + [];
    } else {
      FrameRecordsSnoc(frames[1..], f);
      assert (frames + [f])[1..] == frames[1..] + [f];
      ConcatAssoc(frames[0].records, FrameRecords(frames[1..]), f.records);
    }
  }

  lemma {:induction false} NoPayloads(frames: seq<Frame>)
    ensures Payloads([]) == FrameRecords(frames[..0])
  {
  }

  lemma {:induction false} FramesPayloads(entry: nat, before: nat, frames: seq<Frame>, n: nat)
    requires n <= |frames|
    ensures Payloads(FramesLines(entry, before, frames, n)) == FrameRecords(frames[..n])
  {
    hide FrameLines, FrameRecords, Payloads;
    if n == 0 {
      NoPayloads(frames);
    } else {
      FramesPayloads(entry, before, frames, n - 1);
      var front, f := FramesLines(entry, before, frames, n - 1), frames[n - 1];
      FramePayloads(entry, before + |front|, f, |f.records|);
      assert f.records[..|f.records|] == f.records;
      PayloadsConcat(front, FrameLines(entry, before + |front|, f, |f.records|));
      FrameRecordsSnoc(frames[..n - 1], f);
      assert frames[..n] == frames[..n - 1] + [f];
    }
  }

  // The records of a list of chunks, end to end.
  ghost function ChunkRecords(chunks: seq<ResolvedChunk>, n: nat): seq<Record>
    requires n <= |chunks|
  {
    if n == 0 then [] else ChunkRecords(chunks, n - 1) + RecordsOf(chunks[n - 1].chunk)
  }

  // An entry prints the records of its chunks.
  lemma {:induction false} EntryPayloads(entry: nat, chunks: seq<ResolvedChunk>, n: nat)
    requires n <= |chunks|
    ensures Payloads(EntryLines(entry, chunks, n)) == ChunkRecords(chunks, n)
  {
    hide FramesLines, Payloads;
    if n == 0 {
      NoPayloads([]);
    } else {
      EntryPayloads(entry, chunks, n - 1);
      var front, frames := EntryLines(entry, chunks, n - 1), chunks[n - 1].chunk.frames;
      FramesPayloads(entry, |front|, frames, |frames|);
      assert frames[..|frames|] == frames;
      PayloadsConcat(front, FramesLines(entry, |front|, frames, |frames|));
    }
  }

  /** A superseding pointer that no scan can notice is, to the consumer, one more entry
      that prints all its chunk's records a second time: it goes unnoticed exactly when
      the chunk has no records. */
  lemma {:induction false} SupersedingPrintsAgain(c: Codec, cfg: RewriteConfig, objects: Objects, log: seq<LogPayload>,
          r: DataRef, entry: nat)
    requires BlobScan.Scan(c, cfg, objects, log).Ok? &&
      Repeats(c, objects, BlobScan.Scan(c, cfg, objects, log).value, r)
    ensures BlobScan.Scan(c, cfg, objects, log + [DataRefEntry(r)]).Ok?
    ensures SameView(BlobScan.Scan(c, cfg, objects, log).value,
      BlobScan.Scan(c, cfg, objects, log + [DataRefEntry(r)]).value)
    ensures ResolvePayload(c, objects, DataRefEntry(r)) == Ok([ResolveOne(c, objects, r).value])
    ensures Payloads(EntryLines(entry, [ResolveOne(c, objects, r).value], 1)) ==
      RecordsOf(ResolveOne(c, objects, r).value.chunk)
    ensures EntryLines(entry, [ResolveOne(c, objects, r).value], 1) == [] <==>
      RecordsOf(ResolveOne(c, objects, r).value.chunk) == []
  {
    var one := ResolveOne(c, objects, r).value;
    ResolveSingle(c, objects, r);
    EntryPayloads(entry, [one], 1);
    assert ChunkRecords([one], 1) == [] + RecordsOf(one.chunk);
    hide EntryLines, BlobScan.Scan;
    assert SupersedingEntries([r]) == [DataRefEntry(r)] by {
      assert [r][..0] == [];
      assert SupersedingEntries([r]) == [] + [DataRefEntry(r)];
    }
    RewriteIsInvisible(c, cfg, objects, log, [r]);
  }

  // By chunk id. ------------------------------------------------------------------------------------

  ghost function IdsOf(items: seq<Entry>): seq<ChunkId> {
    if items == [] then [] else IdsOf(items[..|items| - 1]) + [items[|items| - 1].Id()]
  }

  ghost function IdRecords(idn: Identity, ids: seq<ChunkId>): seq<Record> {
    if ids == [] then [] else IdRecords(idn, ids[..|ids| - 1]) + idn.records(ids[|ids| - 1])
  }

  lemma {:induction false} IdRecordsConcat(idn: Identity, a: seq<ChunkId>, b: seq<ChunkId>)
    ensures IdRecords(idn, a + b) == IdRecords(idn, a) + IdRecords(idn, b)
    decreases |b|
  {
    if b == [] {
      assert a + b == a;
    } else {
      var n := |b| - 1;
      IdRecordsConcat(idn, a, b[..n]);
      assert (a + b)[..|a + b| - 1] == a + b[..n];
      ConcatAssoc(IdRecords(idn, a), IdRecords(idn, b[..n]), idn.records(b[n]));
    }
  }

  lemma {:induction false} IdsOfConcat(a: seq<Entry>, b: seq<Entry>)
    ensures IdsOf(a + b) == IdsOf(a) + IdsOf(b)
    decreases |b|
  {
    if b == [] {
      assert a + b == a;
    } else {
      var n := |b| - 1;
      IdsOfConcat(a, b[..n]);
      assert (a + b)[..|a + b| - 1] == a + b[..n];
    }
  }

  lemma {:induction false} IdsOfAt(items: seq<Entry>)
    ensures |IdsOf(items)| == |items| && forall i :: 0 <= i < |items| ==> IdsOf(items)[i] == items[i].Id()
  {
    if items != [] { IdsOfAt(items[..|items| - 1]); }
  }

  // Chunks that are, in order, those of the ids.
  lemma {:induction false} RecordsById(idn: Identity, chunks: seq<ResolvedChunk>, ids: seq<ChunkId>)
    requires |chunks| == |ids| && forall i :: 0 <= i < |ids| ==> RecordsOf(chunks[i].chunk) == idn.records(ids[i])
    ensures ChunkRecords(chunks, |chunks|) == IdRecords(idn, ids)
  {
    RecordsByIdUpTo(idn, chunks, ids, |ids|);
    assert ids[..|ids|] == ids;
  }

  lemma {:induction false} RecordsByIdUpTo(idn: Identity, chunks: seq<ResolvedChunk>, ids: seq<ChunkId>, n: nat)
    requires n <= |chunks| == |ids| && forall i :: 0 <= i < |ids| ==> RecordsOf(chunks[i].chunk) == idn.records(ids[i])
    ensures ChunkRecords(chunks, n) == IdRecords(idn, ids[..n])
  {
    if n > 0 {
      RecordsByIdUpTo(idn, chunks, ids, n - 1);
      assert ids[..n][..n - 1] == ids[..n - 1];
    }
  }

  // A whole entry of a good log prints the records of the ids it mentions.
  lemma {:induction false} EntryById(c: Codec, cfg: RewriteConfig, idn: Identity, w: World, v: VerseKey, n: nat)
    requires CollisionFree(c) && Inv(c, cfg, idn, w) && v in w.logs && n < |w.logs[v]| &&
      Whole(c, w.objects, w.logs[v][n])
    ensures ResolvePayload(c, w.objects, w.logs[v][n]).Ok? && BlobScan.PayloadEntries(c, w.logs[v][n]).Ok?
    ensures var chunks := ResolvePayload(c, w.objects, w.logs[v][n]).value;
      ChunkRecords(chunks, |chunks|) == IdRecords(idn, IdsOf(BlobScan.PayloadEntries(c, w.logs[v][n]).value))
  {
    var p := w.logs[v][n];
    EntryResolvesExactly(c, cfg, idn, w, v, n);
    assert GoodLog(c, cfg, idn, w, v) && LogOf(w, v) == w.logs[v];
    assert GoodInline(c, idn, v, LogOf(w, v)[n]);
    var chunks, refs := ResolvePayload(c, w.objects, p).value, PayloadRefs(p);
    var items := BlobScan.PayloadEntries(c, p).value;
    IdsOfAt(items);
    RefEntriesAt(refs);
    ResolveAllIsEach(c, w.objects, refs, |refs|);
    forall i | 0 <= i < |refs| ensures Backed(c, w.objects, refs[i]) &&
        RecordsOf(ResolveOne(c, w.objects, refs[i]).value.chunk) == idn.records(refs[i].chunkId) {
      RefInLog(w.logs[v], n, refs[i]);
      assert GoodRef(c, cfg, idn, w, refs[i]);
      GenuineResolves(c, idn, w.objects, refs[i]);
    }
    hide Inv, GoodLog, Backed, ResolveOne, ResolveAll, CollisionFree, GoodRef, IdsOf, RecordsOf;
    RecordsById(idn, chunks, IdsOf(items));
  }

  // Whole logs. --------------------------------------------------------------------------------------

  ghost predicate Resolved(c: Codec, objects: Objects, log: seq<LogPayload>, chunks: seq<seq<ResolvedChunk>>) {
    |chunks| == |log| && forall n :: 0 <= n < |log| ==> ResolvePayload(c, objects, log[n]) == Ok(chunks[n])
  }

  lemma {:induction false} LogById(c: Codec, cfg: RewriteConfig, idn: Identity, w: World, v: VerseKey, from: nat,
          chunks: seq<seq<ResolvedChunk>>, n: nat)
    requires CollisionFree(c) && Inv(c, cfg, idn, w) && v in w.logs && n <= |w.logs[v]| &&
      Resolved(c, w.objects, w.logs[v], chunks)
    requires forall k :: 0 <= k < |w.logs[v]| ==> Whole(c, w.objects, w.logs[v][k])
    ensures BlobScan.Candidates(c, w.logs[v][..n]).Ok?
    ensures Payloads(AllLines(from, chunks[..n])) == IdRecords(idn, IdsOf(BlobScan.Candidates(c, w.logs[v][..n]).value))
  {
    hide Inv, CollisionFree, Whole, ResolvePayload, BlobScan.PayloadEntries, EntryLines, Payloads, IdRecords, IdsOf;
    var log := w.logs[v];
    if n == 0 {
      assert log[..0] == [] && chunks[..0] == [];
      NothingById(idn, from);
    } else {
      LogById(c, cfg, idn, w, v, from, chunks, n - 1);
      EntryById(c, cfg, idn, w, v, n - 1);
      assert log[..n] == log[..n - 1] + [log[n - 1]] && chunks[..n] == chunks[..n - 1] + [chunks[n - 1]];
      CandidatesSnoc(c, log[..n - 1], log[n - 1]);
      hide AllLines, BlobScan.Candidates;
      LinesSnoc(from, chunks[..n - 1], chunks[n - 1]);
      var front, back := BlobScan.Candidates(c, log[..n - 1]).value, BlobScan.PayloadEntries(c, log[n - 1]).value;
      IdsOfConcat(front, back);
      IdRecordsConcat(idn, IdsOf(front), IdsOf(back));
    }
  }

  lemma {:induction false} NothingById(idn: Identity, from: nat)
    ensures Payloads(AllLines(from, [])) == IdRecords(idn, IdsOf([]))
  {
  }

  lemma {:induction false} CandidatesSnoc(c: Codec, log: seq<LogPayload>, p: LogPayload)
    requires BlobScan.Candidates(c, log).Ok? && BlobScan.PayloadEntries(c, p).Ok?
    ensures BlobScan.Candidates(c, log + [p]) ==
      Ok(BlobScan.Candidates(c, log).value + BlobScan.PayloadEntries(c, p).value)
  {
    assert (log + [p])[..|log|] == log;
  }

  lemma {:induction false} LinesSnoc(from: nat, chunks: seq<seq<ResolvedChunk>>, more: seq<ResolvedChunk>)
    ensures Payloads(AllLines(from, chunks + [more])) == Payloads(AllLines(from, chunks)) + ChunkRecords(more, |more|)
  {
    hide Payloads, AllLines, EntryLines;
    AllLinesSnoc(from, chunks, more);
    EntryPayloads(from + |chunks|, more, |more|);
    PayloadsConcat(AllLines(from, chunks), EntryLines(from + |chunks|, more, |more|));
  }

  // The candidate at `i` is of a chunk that one before it is of.
  ghost predicate Again(items: seq<Entry>, i: nat)
    requires i < |items|
  {
    exists k :: 0 <= k < i && items[k].Id() == items[i].Id()
  }

  // The later mentions carry records, or they do not.
  lemma {:induction false} RepeatsShow(idn: Identity, items: seq<Entry>)
    ensures |IdRecords(idn, IdsOf(items))| >= |IdRecords(idn, BlobScan.DistinctIds(items))|
    ensures IdRecords(idn, IdsOf(items)) == IdRecords(idn, BlobScan.DistinctIds(items)) <==>
      forall i :: 0 <= i < |items| && Again(items, i) ==> idn.records(items[i].Id()) == []
  {
    if items != [] {
      var n := |items| - 1;
      var front, id := items[..n], items[n].Id();
      RepeatsShow(idn, front);
      BlobScan.DistinctIdsFacts(front);
      AgainFront(items);
      IdRecordsConcat(idn, IdsOf(front), [id]);
      IdRecordsConcat(idn, BlobScan.DistinctIds(front), [id]);
      SingleRecords(idn, id);
      assert Again(items, n) <==> id in BlobScan.DistinctIds(front) by { AgainLast(items); }
      hide IdRecords, IdsOf, Again;
      var all, once, more := IdRecords(idn, IdsOf(front)), IdRecords(idn, BlobScan.DistinctIds(front)), idn.records(id);
      Extended(all, once, more);
    }
  }

  lemma {:induction false} Extended(all: seq<Record>, once: seq<Record>, more: seq<Record>)
    requires |all| >= |once|
    ensures all + more == once + more <==> all == once
    ensures all + more == once <==> all == once && more == []
  {
    if all + more == once + more {
      assert |all| == |once|;
      assert all == (all + more)[..|all|] == (once + more)[..|once|] == once;
    }
    if all + more == once { assert |more| == 0; assert all + more == all; }
    if all == once && more == [] { assert all + more == all; }
  }

  lemma {:induction false} SingleRecords(idn: Identity, id: ChunkId)
    ensures IdRecords(idn, [id]) == idn.records(id)
  {
    assert [id][..0] == [];
    assert [] + idn.records(id) == idn.records(id);
  }

  lemma {:induction false} AgainFront(items: seq<Entry>)
    requires items != []
    ensures forall i :: 0 <= i < |items| - 1 ==>
      items[..|items| - 1][i] == items[i] && (Again(items[..|items| - 1], i) <==> Again(items, i))
  {
    var front := items[..|items| - 1];
    forall i | 0 <= i < |front| ensures Again(front, i) <==> Again(items, i) {
      if k :| 0 <= k < i && items[k].Id() == items[i].Id() { assert front[k].Id() == front[i].Id(); }
      if k :| 0 <= k < i && front[k].Id() == front[i].Id() { assert items[k].Id() == items[i].Id(); }
    }
  }

  lemma {:induction false} AgainLast(items: seq<Entry>)
    requires items != []
    ensures Again(items, |items| - 1) <==> BlobScan.Mentions(items[..|items| - 1], items[|items| - 1].Id())
  {
    var n := |items| - 1;
    if k :| 0 <= k < n && items[k].Id() == items[n].Id() { assert items[..n][k].Id() == items[n].Id(); }
    if k :| 0 <= k < n && items[..n][k].Id() == items[n].Id() { assert items[k].Id() == items[n].Id(); }
  }

  /** The consumer prints a chunk as often as the log mentions it. Over a whole log that it
      gets through, it prints the records a deduplicated scan shows exactly when no chunk
      mentioned again has records: a rewrite of any chunk with records shows. */
  lemma {:induction false} PrintsLikeScanExactly(c: Codec, cfg: RewriteConfig, idn: Identity, w: World, v: VerseKey,
          from: nat, chunks: seq<seq<ResolvedChunk>>)
    requires CollisionFree(c) && Inv(c, cfg, idn, w) && v in w.logs && Resolved(c, w.objects, w.logs[v], chunks)
    ensures BlobScan.Candidates(c, w.logs[v]).Ok? && BlobScan.Scan(c, cfg, w.objects, w.logs[v]).Ok?
    ensures var items, seen := BlobScan.Candidates(c, w.logs[v]).value,
      BlobScan.Scan(c, cfg, w.objects, w.logs[v]).value;
      && Payloads(AllLines(from, chunks)) == IdRecords(idn, IdsOf(items))
      && (Payloads(AllLines(from, chunks)) == ChunkRecords(seen, |seen|) <==>
          forall i :: 0 <= i < |items| && Again(items, i) ==> idn.records(items[i].Id()) == [])
  {
    var log := w.logs[v];
    hide CollisionFree, AllLines, Payloads, BlobScan.Scan, BlobScan.Candidates, Whole, ResolvePayload;
    forall n | 0 <= n < |log| ensures Whole(c, w.objects, log[n]) { EntryResolvesExactly(c, cfg, idn, w, v, n); }
    LogById(c, cfg, idn, w, v, from, chunks, |log|);
    assert log[..|log|] == log && chunks[..|log|] == chunks;
    ScanIsFaithful(c, cfg, idn, w, v);
    hide Inv, Again, IdsOf;
    var items, seen := BlobScan.Candidates(c, log).value, BlobScan.Scan(c, cfg, w.objects, log).value;
    var ids := BlobScan.DistinctIds(items);
    forall i | 0 <= i < |ids| ensures RecordsOf(seen[i].chunk) == idn.records(ids[i]) {
      assert Faithful(c, idn, w.objects, seen[i]);
    }
    RecordsById(idn, seen, ids);
    RepeatsShow(idn, items);
  }

  /** And that is what a run prints: a one-shot consumer without a limit, from the start of a
      log it gets through, prints exactly the lines of all its entries. */
  lemma {:induction false} RunPrintsLog(c: Codec, w: World, v: VerseKey, view: View, origin: nat,
          chunks: seq<seq<ResolvedChunk>>)
    requires CollisionFree(c) && v in w.logs && Chain(view, origin) && ConsumeTheorems.Entries(view) == w.logs[v] &&
      Resolved(c, w.objects, w.logs[v], chunks)
    ensures var done := Run(c, OneShot(origin, None), [Pass(view, w.objects)]);
      done.failure.None? && done.tail.lines == AllLines(origin, chunks)
  {
    var pass, options, log := Pass(view, w.objects), OneShot(origin, None), w.logs[v];
    var t := Start(options);
    ReadExactly(c, pass, origin, t);
    ReadReachesEnd(c, pass, None, t, EndOf(view));
    EndOrEmpty(view, origin);
    HistoryOfOne(pass, origin);
    var read := RunReads(c, origin, log, options, [pass]);
    hide Chain, AllLines, ReadUpTo, EndOf, CollisionFree, ResolvePayload, MeansEach, History;
    var done := Run(c, options, [pass]);
    if |log| > 0 { assert done.tail.cursor >= origin + |log|; }
    ReadNoFurther(c, origin, log, read);
    ResolvedMeans(c, w.objects, origin, log, chunks);
    SameMeanings(c, origin, log, origin, read, chunks);
  }

  lemma {:induction false} HistoryOfOne(pass: Pass, origin: nat)
    requires Chain(pass.view, origin)
    ensures History([pass], origin) && FinalEntries([pass]) == ConsumeTheorems.Entries(pass.view)
  {
  }

  lemma {:induction false} ReadNoFurther(c: Codec, origin: nat, log: seq<LogPayload>, read: seq<seq<ResolvedChunk>>)
    requires MeansEach(c, origin, log, origin, read)
    ensures |read| <= |log|
  {
    if |read| > 0 { assert MeansAt(c, log, |read| - 1, read[|read| - 1]); }
  }

  lemma {:induction false} ResolvedMeans(c: Codec, objects: Objects, origin: nat, log: seq<LogPayload>,
          chunks: seq<seq<ResolvedChunk>>)
    requires Resolved(c, objects, log, chunks)
    ensures MeansEach(c, origin, log, origin, chunks)
  {
    forall j | 0 <= j < |chunks| ensures MeansAt(c, log, j, chunks[j]) { Witness(c, objects, log[j], chunks[j]); }
  }
}
