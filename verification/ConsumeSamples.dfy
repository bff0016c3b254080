/** One chunk of one record, committed to a staging object and rewritten once: readers see
    it once, the consumer prints it twice, and collection stops the consumer for good. */
module ConsumeSamples {
  import opened Prelude
  import opened BlobModel
  import opened BlobReader
  import BlobScan
  import opened BlobCollect
  import opened Lifecycle
  import opened LifecycleRuns
  import opened CollectRuns
  import opened Consume
  import opened ConsumeTheorems
  import opened ConsumeResume
  import opened ConsumeStops
  import opened ConsumeRepeats

  const ONE_RECORD: Identity := Identity(_ => "v", _ => [[7]])

  function TinyRef(key: Key): DataRef { DataRef(key, 0, 1, 1, [1], [1], [1]) }

  function TinyLog(a: Key, b: Key): seq<LogPayload> { [DataRefEntry(TinyRef(a)), DataRefEntry(TinyRef(b))] }

  // The chunk is at `a`, as committed, and at `b`, as rewritten.
  function TinyWorld(a: Key, b: Key): World {
    World(map[a := [1], b := [1]], map["v" := TinyLog(a, b)], {}, {})
  }

  function TinyView(a: Key, b: Key): View { [Generation("g", 0, TinyLog(a, b))] }

  predicate TinyKeys(a: Key, b: Key) {
    && 0 < |a| <= MAX_BLOB_KEY_BYTES && 0 < |b| <= MAX_BLOB_KEY_BYTES
    && !IsRewrittenBlobKey(DEFAULT_REWRITE_CONFIG, a) && IsRewrittenBlobKey(DEFAULT_REWRITE_CONFIG, b)
  }

  lemma {:induction false} TwoKeys()
    ensures TinyKeys("blobs/v1/a", "verses/v1/a")
  {
    TinyKey();
    assert "blobs/v1/a"[0] != ("verses/v1" + "/")[0];
  }

  lemma {:induction false} TinyDecodes()
    ensures CollisionFree(TINY_CODEC) && TINY_CODEC.decode([1]) == Some(Chunk([1], [], [Frame(0, [[7]])]))
    ensures RecordsOf(Chunk([1], [], [Frame(0, [[7]])])) == [[7]]
  {
    assert FrameRecords([Frame(0, [[7]])]) == [[7]] + FrameRecords([]);
  }

  lemma {:induction false} TinyBacked(objects: Objects, key: Key)
    requires 0 < |key| <= MAX_BLOB_KEY_BYTES && key in objects && objects[key] == [1]
    ensures Backed(TINY_CODEC, objects, TinyRef(key)) && Genuine(TINY_CODEC, ONE_RECORD, TinyRef(key))
    ensures Standing(TINY_CODEC, DEFAULT_REWRITE_CONFIG, objects, TinyRef(key))
  {
    TinyDecodes();
    TinyTiles();
    hide IsRewrittenBlobKey, TilesFrom, RecordsOf;
    assert objects[key][0..1] == [1];
    assert IsCopy(TINY_CODEC, ONE_RECORD, TinyRef(key), [1]);
  }

  lemma {:induction false} TinyCandidates(a: Key, b: Key)
    ensures BlobScan.Candidates(TINY_CODEC, TinyLog(a, b)) == Ok([BlobScan.Ref(TinyRef(a)), BlobScan.Ref(TinyRef(b))])
    ensures LogRefs(TinyLog(a, b)) == [TinyRef(a), TinyRef(b)]
  {
    var log := TinyLog(a, b);
    assert log[..1] == [log[0]] && log[..1][..0] == [];
    assert LogRefs(log[..1][..0]) == [] && BlobScan.Candidates(TINY_CODEC, log[..1][..0]) == Ok([]);
    assert LogRefs(log[..1]) == [TinyRef(a)];
    assert [] + [BlobScan.Ref(TinyRef(a))] == [BlobScan.Ref(TinyRef(a))];
    assert BlobScan.Candidates(TINY_CODEC, log[..1]) == Ok([BlobScan.Ref(TinyRef(a))]);
    assert [BlobScan.Ref(TinyRef(a))] + [BlobScan.Ref(TinyRef(b))] ==
        [BlobScan.Ref(TinyRef(a)), BlobScan.Ref(TinyRef(b))];
  }

  lemma {:induction false} TinyInv(a: Key, b: Key)
    requires TinyKeys(a, b)
    ensures Inv(TINY_CODEC, DEFAULT_REWRITE_CONFIG, ONE_RECORD, TinyWorld(a, b))
    ensures MayCollect(TINY_CODEC, DEFAULT_REWRITE_CONFIG, TinyWorld(a, b), a, {"v"})
  {
    var w := TinyWorld(a, b);
    TinyBacked(w.objects, a);
    TinyBacked(w.objects, b);
    TinyCandidates(a, b);
    TinyTiles();
    hide IsRewrittenBlobKey, TilesFrom, Standing, Genuine, Backed, LogRefs, BlobScan.Candidates;
    assert TinyRef(b) in LogRefs(w.logs["v"]);
    assert [1] in SupersededAcross(DEFAULT_REWRITE_CONFIG, w.logs, {"v"});
    assert TileIds([Tile(0, 1, [1])]) == {[1]};
  }

  /** Its staging object collected, as the predicate allows, the scan still shows the chunk,
      and the consumer never gets past the first entry. */
  lemma {:induction false} ConsumerStopped()
    ensures var a, b := "blobs/v1/a", "verses/v1/a";
      var w := TinyWorld(a, b);
      && Inv(TINY_CODEC, DEFAULT_REWRITE_CONFIG, ONE_RECORD, w)
      && MayCollect(TINY_CODEC, DEFAULT_REWRITE_CONFIG, w, a, {"v"})
      && BlobScan.Scan(TINY_CODEC, DEFAULT_REWRITE_CONFIG, w.objects - {a}, w.logs["v"]).Ok?
      && Run(TINY_CODEC, OneShot(0, None), [Pass(TinyView(a, b), w.objects - {a})]).tail.cursor == 0
  {
    TwoKeys();
    StoppedAt("blobs/v1/a", "verses/v1/a");
    TinyInv("blobs/v1/a", "verses/v1/a");
  }

  lemma {:induction false} StoppedAt(a: Key, b: Key)
    requires TinyKeys(a, b)
    ensures var w := TinyWorld(a, b);
      && BlobScan.Scan(TINY_CODEC, DEFAULT_REWRITE_CONFIG, w.objects - {a}, w.logs["v"]).Ok?
      && Run(TINY_CODEC, OneShot(0, None), [Pass(TinyView(a, b), w.objects - {a})]).tail.cursor == 0
  {
    hide Inv, MayCollect, BlobScan.Scan, Run, TinyKeys;
    TinyDecodes();
    TinyInv(a, b);
    TinyViewFacts(a, b);
    var w := TinyWorld(a, b);
    var pass := Pass(TinyView(a, b), w.objects - {a});
    HistoryOfOne(pass, 0);
    assert TinyRef(a) in PayloadRefs(w.logs["v"][0]);
    CollectedEntryStopsConsumer(TINY_CODEC, DEFAULT_REWRITE_CONFIG, ONE_RECORD, w, a, {"v"}, "v", 0, TinyLog(a, b),
        OneShot(0, None), [pass], 0);
  }

  lemma {:induction false} TinyViewFacts(a: Key, b: Key)
    ensures Chain(TinyView(a, b), 0) && ConsumeTheorems.Entries(TinyView(a, b)) == TinyLog(a, b)
  {
    assert Flat(TinyView(a, b), 0) == [];
    assert [] + TinyLog(a, b) == TinyLog(a, b);
  }

  lemma {:induction false} TinyResolves(a: Key, b: Key) returns (chunks: seq<seq<ResolvedChunk>>)
    requires TinyKeys(a, b)
    ensures Resolved(TINY_CODEC, TinyWorld(a, b).objects, TinyLog(a, b), chunks)
  {
    var objects := TinyWorld(a, b).objects;
    TinyDecodes();
    TinyBacked(objects, a);
    TinyBacked(objects, b);
    hide IsRewrittenBlobKey, Genuine, Standing;
    var one := Chunk([1], [], [Frame(0, [[7]])]);
    assert objects[a][0..1] == [1] && objects[b][0..1] == [1];
    assert Resolves(TINY_CODEC, objects, TinyRef(a), one) && Resolves(TINY_CODEC, objects, TinyRef(b), one);
    chunks := [[ResolvedChunk(one, Some(TinyRef(a)))], [ResolvedChunk(one, Some(TinyRef(b)))]];
    ResolveSingle(TINY_CODEC, objects, TinyRef(a));
    ResolveSingle(TINY_CODEC, objects, TinyRef(b));
  }

  lemma {:induction false} TinyIds(a: Key, b: Key)
    ensures var items := [BlobScan.Ref(TinyRef(a)), BlobScan.Ref(TinyRef(b))];
      Again(items, 1) && IdRecords(ONE_RECORD, IdsOf(items)) == [[7], [7]]
  {
    var items := [BlobScan.Ref(TinyRef(a)), BlobScan.Ref(TinyRef(b))];
    IdsOfAt(items);
    assert IdsOf(items) == [[1]] + [[1]];
    hide IdsOf;
    IdRecordsConcat(ONE_RECORD, [[1]], [[1]]);
    SingleRecords(ONE_RECORD, [1]);
    assert items[0].Id() == items[1].Id();
  }

  /** Before any collection: the consumer prints the record twice, and a scan shows it once. */
  lemma {:induction false} ConsumerPrintsTwice()
    ensures var a, b := "blobs/v1/a", "verses/v1/a";
      var w := TinyWorld(a, b);
      var seen := BlobScan.Scan(TINY_CODEC, DEFAULT_REWRITE_CONFIG, w.objects, w.logs["v"]);
      var done := Run(TINY_CODEC, OneShot(0, None), [Pass(TinyView(a, b), w.objects)]);
      && Inv(TINY_CODEC, DEFAULT_REWRITE_CONFIG, ONE_RECORD, w)
      && done.failure.None? && Payloads(done.tail.lines) == [[7], [7]]
      && seen.Ok? && ChunkRecords(seen.value, |seen.value|) == [[7]]
  {
    TwoKeys();
    PrintedAt("blobs/v1/a", "verses/v1/a");
    TinyInv("blobs/v1/a", "verses/v1/a");
  }

  lemma {:induction false} PrintedAt(a: Key, b: Key)
    requires TinyKeys(a, b)
    ensures var w := TinyWorld(a, b);
      var seen := BlobScan.Scan(TINY_CODEC, DEFAULT_REWRITE_CONFIG, w.objects, w.logs["v"]);
      var done := Run(TINY_CODEC, OneShot(0, None), [Pass(TinyView(a, b), w.objects)]);
      && done.failure.None? && Payloads(done.tail.lines) == [[7], [7]]
      && seen.Ok? && ChunkRecords(seen.value, |seen.value|) == [[7]]
  {
    hide Inv, MayCollect, BlobScan.Scan, Run, TinyKeys, BlobScan.Candidates, Resolved, Payloads, AllLines, IdRecords,
        IdsOf, Chain, Again;
    var w := TinyWorld(a, b);
    TinyDecodes();
    TinyInv(a, b);
    TinyViewFacts(a, b);
    TinyCandidates(a, b);
    TinyIds(a, b);
    var chunks := TinyResolves(a, b);
    PrintsLikeScanExactly(TINY_CODEC, DEFAULT_REWRITE_CONFIG, ONE_RECORD, w, "v", 0, chunks);
    RunPrintsLog(TINY_CODEC, w, "v", TinyView(a, b), 0, chunks);
    SeenOnce(a, b);
  }

  lemma {:induction false} SeenOnce(a: Key, b: Key)
    requires TinyKeys(a, b)
    ensures var w := TinyWorld(a, b);
      var seen := BlobScan.Scan(TINY_CODEC, DEFAULT_REWRITE_CONFIG, w.objects, w.logs["v"]);
      seen.Ok? && ChunkRecords(seen.value, |seen.value|) == [[7]]
  {
    hide Inv, MayCollect, BlobScan.Scan, TinyKeys, BlobScan.Candidates, RecordsOf;
    var w := TinyWorld(a, b);
    TinyDecodes();
    TinyInv(a, b);
    TinyCandidates(a, b);
    ScanIsFaithful(TINY_CODEC, DEFAULT_REWRITE_CONFIG, ONE_RECORD, w, "v");
    var items := [BlobScan.Ref(TinyRef(a)), BlobScan.Ref(TinyRef(b))];
    OneId(items);
    var seen := BlobScan.Scan(TINY_CODEC, DEFAULT_REWRITE_CONFIG, w.objects, w.logs["v"]).value;
    assert Faithful(TINY_CODEC, ONE_RECORD, w.objects, seen[0]);
    assert ChunkRecords(seen, 1) == [] + RecordsOf(seen[0].chunk);
  }

  lemma {:induction false} OneId(items: seq<BlobScan.Entry>)
    requires |items| == 2 && items[0].Id() == items[1].Id()
    ensures BlobScan.DistinctIds(items) == [items[0].Id()]
  {
    assert items[..1] == [items[0]] && items[..1][..0] == [];
    assert BlobScan.DistinctIds(items[..1][..0]) == [];
    assert BlobScan.DistinctIds(items[..1]) == [items[0].Id()];
  }
}
