/** Stopping a consumer at its record limit and going on from its final cursor. */
module ConsumeResume {
  import opened Prelude
  import opened BlobModel
  import opened BlobReader
  import opened Consume
  import opened ConsumeTheorems

  function Run(c: Codec, options: Options, passes: seq<Pass>): Consumed {
    Follow(c, options, passes, 0, Start(options), Watch(None, false))
  }

  // Lines cut at the limit, then the rest, are all the lines exactly when nothing was cut.
  lemma {:induction false} CutThenRest(limit: Option<nat>, from: nat, read: seq<seq<ResolvedChunk>>,
          rest: seq<seq<ResolvedChunk>>)
    ensures Cap(limit, 0, AllLines(from, read)) + AllLines(from + |read|, rest) == AllLines(from, read + rest)
       <==> (limit.None? || |AllLines(from, read)| <= limit.value)
  {
    AllLinesConcat(from, read, rest);
    hide AllLines;
    var a, b := AllLines(from, read), AllLines(from + |read|, rest);
    assert |Cap(limit, 0, a) + b| == |a + b| ==> |Cap(limit, 0, a)| == |a|;
  }

  // What the entries of one log mean from a position on does not depend on who read them.
  lemma {:induction false} SameMeanings(c: Codec, origin: nat, entries: seq<LogPayload>, from: nat,
          a: seq<seq<ResolvedChunk>>, b: seq<seq<ResolvedChunk>>)
    requires CollisionFree(c) && |a| == |b| && MeansEach(c, origin, entries, from, a) &&
      MeansEach(c, origin, entries, from, b)
    ensures a == b
  {
    hide Means, CollisionFree;
    forall j | 0 <= j < |a| ensures a[j] == b[j] {
      assert MeansAt(c, entries, from - origin + j, a[j]) && MeansAt(c, entries, from - origin + j, b[j]);
      MeaningIsUnique(c, entries[from - origin + j], a[j], b[j]);
    }
  }

  lemma {:induction false} MeansEachConcat(c: Codec, origin: nat, entries: seq<LogPayload>, from: nat,
          a: seq<seq<ResolvedChunk>>, b: seq<seq<ResolvedChunk>>)
    requires MeansEach(c, origin, entries, from, a) && MeansEach(c, origin, entries, from + |a|, b)
    ensures MeansEach(c, origin, entries, from, a + b)
  {
    hide Means;
    forall j | 0 <= j < |a + b| ensures MeansAt(c, entries, from - origin + j, (a + b)[j]) {
      if j >= |a| { assert MeansAt(c, entries, from + |a| - origin + (j - |a|), b[j - |a|]); }
    }
  }

  // A run over part of the log, told over the whole log: what it read and what it printed.
  lemma {:induction false} RunReads(c: Codec, origin: nat, log: seq<LogPayload>, options: Options, passes: seq<Pass>)
    returns (chunks: seq<seq<ResolvedChunk>>)
    requires History(passes, origin) && options.from >= origin && FinalEntries(passes) <= log
    ensures Run(c, options, passes).tail.cursor == options.from + |chunks|
    ensures MeansEach(c, origin, log, options.from, chunks)
    ensures Run(c, options, passes).tail.lines == Cap(options.untilRecords, 0, AllLines(options.from, chunks))
  {
    chunks := ConsumeIsContinuous(c, origin, options, passes);
    hide Follow, MeansEach, Cap, AllLines;
    ContinuousLater(c, origin, FinalEntries(passes), log, options, Run(c, options, passes).tail, chunks);
  }

  /** A consumer stopped by its limit, then one started at the final cursor without a limit,
      print together what one unlimited consumer prints up to the same point exactly when
      the entries the first one read hold no more lines than its limit. The cursor has moved
      past an entry the limit cut short, so what was cut off is printed by neither. */
  lemma {:induction false} ResumeExactly(c: Codec, origin: nat, log: seq<LogPayload>, options: Options,
          passes: seq<Pass>, later: seq<Pass>, whole: seq<Pass>)
    returns (read: seq<seq<ResolvedChunk>>)
    requires CollisionFree(c) && options.from >= origin
    requires History(passes, origin) && History(later, origin) && History(whole, origin)
    requires FinalEntries(passes) <= log && FinalEntries(later) <= log && FinalEntries(whole) <= log
    requires var first := Run(c, options, passes).tail;
      Run(c, options.(untilRecords := None), whole).tail.cursor ==
          Run(c, options.(from := first.cursor, untilRecords := None), later).tail.cursor
    ensures Run(c, options, passes).tail.cursor == options.from + |read| &&
      MeansEach(c, origin, log, options.from, read)
    ensures var first := Run(c, options, passes).tail;
      var rest := Run(c, options.(from := first.cursor, untilRecords := None), later).tail;
      var all := Run(c, options.(untilRecords := None), whole).tail;
      first.lines + rest.lines == all.lines <==>
          (options.untilRecords.None? || |AllLines(options.from, read)| <= options.untilRecords.value)
  {
    hide MeansEach, AllLines, History, CollisionFree, Follow, Run, FinalEntries;
    var first := Run(c, options, passes).tail;
    var on, free := options.(from := first.cursor, untilRecords := None), options.(untilRecords := None);
    read := RunReads(c, origin, log, options, passes);
    var more := RunReads(c, origin, log, on, later);
    var every := RunReads(c, origin, log, free, whole);
    MeansEachConcat(c, origin, log, options.from, read, more);
    SameMeanings(c, origin, log, options.from, every, read + more);
    CutThenRest(options.untilRecords, options.from, read, more);
  }

  // One entry of two records. ------------------------------------------------------------------------

  function TwoRecords(a: Record, b: Record): Codec {
    Codec(x => x, x => None, x => Some(Chunk([], [], [Frame(0, [a, b])])), x => None)
  }

  const ONE_ENTRY: Pass := Pass([Generation("g", 0, [InlineChunk([])])], map[])

  function OneShot(from: nat, limit: Option<nat>): Options { Options(from, limit, 0, true) }

  lemma {:induction false} TwoLines(a: Record, b: Record)
    ensures EntryLines(0, [ResolvedChunk(Chunk([], [], [Frame(0, [a, b])]), None)], 1) == [Line(0, 0, a), Line(0, 1, b)]
  {
    var frame := Frame(0, [a, b]);
    var chunk := ResolvedChunk(Chunk([], [], [frame]), None);
    assert FrameLines(0, 0, frame, 1) == [Line(0, 0, a)];
    assert FrameLines(0, 0, frame, 2) == [Line(0, 0, a), Line(0, 1, b)];
    assert FramesLines(0, 0, [frame], 1) == FrameLines(0, 0, frame, 2);
    assert EntryLines(0, [chunk], 1) == FramesLines(0, 0, [frame], 1);
  }

  // From the start, whatever the limit above zero, the one entry is read and the run stops past it.
  lemma {:induction false} OneShotReads(a: Record, b: Record, limit: Option<nat>)
    requires limit.Some? ==> limit.value > 0
    ensures Run(TwoRecords(a, b), OneShot(0, limit), [ONE_ENTRY]).tail ==
      Tail(1, Cap(limit, 0, [Line(0, 0, a), Line(0, 1, b)]), 1)
  {
    var c, options := TwoRecords(a, b), OneShot(0, limit);
    var chunks := [ResolvedChunk(Chunk([], [], [Frame(0, [a, b])]), None)];
    TwoLines(a, b);
    assert ReadAt(ONE_ENTRY.view, 1, 0) == Some(InlineChunk([]));
    assert ResolvePayload(c, ONE_ENTRY.objects, InlineChunk([])) == Ok(chunks);
    hide EntryLines, Cap;
    var after := Tail(1, [] + Cap(limit, 0, EntryLines(0, chunks, 1)), 1);
    assert [] + Cap(limit, 0, EntryLines(0, chunks, 1)) == Cap(limit, 0, EntryLines(0, chunks, 1));
    assert ReadUpTo(c, ONE_ENTRY, limit, after, 1) == Read(after, None);
    assert ReadUpTo(c, ONE_ENTRY, limit, Start(options), 1) == ReadUpTo(c, ONE_ENTRY, limit, after, 1);
  }

  /** A consumer limited to one record, resumed from its final cursor, never prints the
      second record of the entry that an unlimited consumer prints whole. */
  lemma {:induction false} LimitLosesARecord(a: Record, b: Record)
    ensures var c := TwoRecords(a, b);
      var first := Run(c, OneShot(0, Some(1)), [ONE_ENTRY]).tail;
      var rest := Run(c, OneShot(first.cursor, None), [ONE_ENTRY]).tail;
      && first.lines == [Line(0, 0, a)] && first.cursor == 1 && rest == Tail(1, [], 0)
      && Run(c, OneShot(0, None), [ONE_ENTRY]).tail.lines == [Line(0, 0, a), Line(0, 1, b)]
  {
    OneShotReads(a, b, Some(1));
    OneShotReads(a, b, None);
    assert [Line(0, 0, a), Line(0, 1, b)][..1] == [Line(0, 0, a)];
  }
}
