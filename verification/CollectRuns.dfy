/** Collection, from what the collector asks to what readers see: in every state of the
    lifecycle, and for the rewritten objects the collector is not meant to ask about. */
module CollectRuns {
  import opened Prelude
  import opened BlobModel
  import opened BlobScan
  import opened ScanTheorems
  import opened BlobCollect
  import opened Lifecycle
  import opened LifecycleRuns

  // An id superseded anywhere is superseded in the log of the Verse that owns it.
  lemma {:induction false} SupersededAtHome(c: Codec, cfg: RewriteConfig, idn: Identity, w: World,
          verses: set<VerseKey>, id: ChunkId)
    requires Inv(c, cfg, idn, w) && id in SupersededAcross(cfg, w.logs, verses)
    ensures idn.owner(id) in w.logs && id in SupersededIds(cfg, w.logs[idn.owner(id)])
  {
    var v, s :| v in verses && v in w.logs && s in LogRefs(w.logs[v]) && IsRewrittenBlobKey(cfg, s.blobKey) &&
        s.chunkId == id;
    assert GoodLog(c, cfg, idn, w, v) && LogOf(w, v) == w.logs[v];
    hide GoodRef, GoodInline;
    assert idn.owner(s.chunkId) == v;
  }

  /** When the predicate says yes of a staging object, every log's every pointer into that
      object has a rewritten pointer in the same log, whichever logs the answer drew on. */
  lemma {:induction false} CollectableIsSuperseded(c: Codec, cfg: RewriteConfig, idn: Identity, w: World, key: Key,
          verses: set<VerseKey>, v: VerseKey)
    requires Inv(c, cfg, idn, w) && MayCollect(c, cfg, w, key, verses) && v in w.logs
    ensures FullySuperseded(cfg, w.logs[v], key)
  {
    var log := w.logs[v];
    assert GoodLog(c, cfg, idn, w, v) && LogOf(w, v) == log;
    forall r | r in LogRefs(log) && r.blobKey == key ensures r.chunkId in SupersededIds(cfg, log) {
      assert GoodRef(c, cfg, idn, w, r) && idn.owner(r.chunkId) == v;
      if Standing(c, cfg, w.objects, r) {
        var tiles := TilesFrom(c, w.objects[key], 0).value;
        assert Tile(r.offset, r.length, r.chunkId) in tiles;
        assert r.chunkId in TileIds(tiles);
        SupersededAtHome(c, cfg, idn, w, verses, r.chunkId);
      }
    }
  }

  /** Collection safety: a staging object the predicate says yes of can go without changing
      any Verse's scan, to the letter. */
  lemma {:induction false} CollectionIsInvisible(c: Codec, cfg: RewriteConfig, idn: Identity, w: World, key: Key,
          verses: set<VerseKey>, v: VerseKey)
    requires Inv(c, cfg, idn, w) && MayCollect(c, cfg, w, key, verses) && v in w.logs
    ensures FullySuperseded(cfg, w.logs[v], key)
    ensures Scan(c, cfg, w.objects - {key}, w.logs[v]) == Scan(c, cfg, w.objects, w.logs[v])
  {
    CollectableIsSuperseded(c, cfg, idn, w, key, verses, v);
    hide Inv, SaysYes, FullySuperseded;
    SupersededRemoval(c, cfg, w.objects, w.logs[v], key);
  }

  /** A yes is never vacuous: the object holds some chunk, and every chunk it holds has a
      rewritten pointer in the log of its own Verse. */
  lemma {:induction false} YesIsNotVacuous(c: Codec, cfg: RewriteConfig, idn: Identity, w: World, key: Key,
          verses: set<VerseKey>)
    requires Inv(c, cfg, idn, w) && SaysYes(c, cfg, w, key, verses)
    ensures w.objects[key] != []
    ensures forall id :: id in TileIds(TilesFrom(c, w.objects[key], 0).value) ==>
      idn.owner(id) in w.logs && id in SupersededIds(cfg, w.logs[idn.owner(id)])
  {
    var ids := TileIds(TilesFrom(c, w.objects[key], 0).value);
    assert w.objects[key] == [] ==> ids == {};
    hide Inv, TilesFrom, SupersededIds;
    forall id | id in ids ensures idn.owner(id) in w.logs && id in SupersededIds(cfg, w.logs[idn.owner(id)]) {
      SupersededAtHome(c, cfg, idn, w, verses, id);
    }
  }

  // No step of the run collects the object.
  ghost predicate Stays(steps: seq<Step>, key: Key) {
    forall i :: 0 <= i < |steps| && steps[i].Collect? ==> steps[i].key != key
  }

  lemma {:induction false} AcrossGrows(cfg: RewriteConfig, w: World, s: Step, verses: set<VerseKey>, id: ChunkId)
    requires id in SupersededAcross(cfg, w.logs, verses)
    ensures id in SupersededAcross(cfg, Apply(w, s).logs, verses)
  {
    var v, r :| v in verses && v in w.logs && r in LogRefs(w.logs[v]) && IsRewrittenBlobKey(cfg, r.blobKey) &&
        r.chunkId == id;
    if s.AppendRefs? && s.verse == v { SupersededGrows(cfg, w.logs[v], s.payload); }
    if s.AppendInline? && s.verse == v { SupersededGrows(cfg, w.logs[v], InlineChunk(s.bytes)); }
    assert r in LogRefs(Apply(w, s).logs[v]);
  }

  lemma {:induction false} StepKeepsYes(c: Codec, cfg: RewriteConfig, idn: Identity, w: World, s: Step, key: Key,
          verses: set<VerseKey>)
    requires SaysYes(c, cfg, w, key, verses) && Enabled(c, cfg, idn, w, s) && (s.Collect? ==> s.key != key)
    ensures SaysYes(c, cfg, Apply(w, s), key, verses)
  {
    var tiles := TilesFrom(c, w.objects[key], 0).value;
    assert Apply(w, s).objects[key] == w.objects[key];
    hide TilesFrom;
    forall id | id in TileIds(tiles) ensures id in SupersededAcross(cfg, Apply(w, s).logs, verses) {
      AcrossGrows(cfg, w, s, verses, id);
    }
  }

  lemma {:induction false} RunKeepsYes(c: Codec, cfg: RewriteConfig, idn: Identity, w: World, steps: seq<Step>,
          key: Key, verses: set<VerseKey>)
    requires SaysYes(c, cfg, w, key, verses) && Runs(c, cfg, idn, w, steps) && Stays(steps, key)
    ensures SaysYes(c, cfg, Final(w, steps), key, verses)
    decreases steps
  {
    if steps != [] {
      hide SaysYes, Enabled, Apply;
      StepKeepsYes(c, cfg, idn, w, steps[0], key, verses);
      assert Stays(steps[1..], key);
      RunKeepsYes(c, cfg, idn, Apply(w, steps[0]), steps[1..], key, verses);
    }
  }

  /** A yes is final: after any further run, with whatever appends, rewrites and other
      collections, the object can still go without changing any scan. */
  lemma {:induction false} CollectionStaysInvisible(c: Codec, cfg: RewriteConfig, idn: Identity, w: World, key: Key,
          verses: set<VerseKey>, steps: seq<Step>, v: VerseKey)
    requires Inv(c, cfg, idn, w) && MayCollect(c, cfg, w, key, verses)
    requires Runs(c, cfg, idn, w, steps) && Stays(steps, key) && v in Final(w, steps).logs
    ensures var end := Final(w, steps);
      Scan(c, cfg, end.objects - {key}, end.logs[v]) == Scan(c, cfg, end.objects, end.logs[v])
  {
    RunKeepsInv(c, cfg, idn, w, steps);
    RunKeepsYes(c, cfg, idn, w, steps, key, verses);
    hide Inv, SaysYes, Runs, Scan;
    CollectionIsInvisible(c, cfg, idn, Final(w, steps), key, verses, v);
  }

  // Rewritten objects. -----------------------------------------------------------------------------

  // Readers of the log use a pointer into the object.
  ghost predicate InUse(c: Codec, cfg: RewriteConfig, log: seq<LogPayload>, key: Key) {
    Candidates(c, log).Ok? && exists r :: r in LogRefs(log) && UsedAt(cfg, Candidates(c, log).value, r, key)
  }

  ghost predicate UsedAt(cfg: RewriteConfig, items: seq<Entry>, r: DataRef, key: Key) {
    r.blobKey == key && FirstRewritten(cfg, items, r.chunkId) == Some(r)
  }

  lemma {:induction false} ChosenIsUsed(cfg: RewriteConfig, items: seq<Entry>, r: DataRef, key: Key)
    requires IsRewrittenBlobKey(cfg, key) && Choose(cfg, items, r.chunkId) == Some(Ref(r))
    ensures r.blobKey == key ==> UsedAt(cfg, items, r, key)
  {
    ChooseMentioned(cfg, items, r.chunkId);
    FirstRewrittenIs(cfg, items, r.chunkId);
    var i :| 0 <= i < |items| && items[i] == Ref(r);
    assert r.blobKey == key ==> items[i].Rewritten(cfg);
  }

  lemma {:induction false} UsedIsChosen(c: Codec, cfg: RewriteConfig, log: seq<LogPayload>, key: Key)
    requires IsRewrittenBlobKey(cfg, key) && Candidates(c, log).Ok?
    ensures NotChosen(c, cfg, log, key) <==> !InUse(c, cfg, log, key)
  {
    var items := Candidates(c, log).value;
    DistinctIdsFacts(items);
    if InUse(c, cfg, log, key) {
      var r :| r in LogRefs(log) && UsedAt(cfg, items, r, key);
      ChooseMentioned(cfg, items, r.chunkId);
      assert r.chunkId in DistinctIds(items);
      assert !AvoidsKey(cfg, items, r.chunkId, key);
    } else {
      forall id | id in DistinctIds(items) ensures AvoidsKey(cfg, items, id, key) {
        ChooseMentioned(cfg, items, id);
        if Choose(cfg, items, id).Some? && Choose(cfg, items, id).value.Ref? {
          var r := Choose(cfg, items, id).value.dataRef;
          CandidateRefs(c, log, r);
          ChosenIsUsed(cfg, items, r, key);
        }
      }
    }
  }

  /** What a yes is worth, for any object: removing it is harmless to a Verse exactly when
      it is not a rewritten object that the Verse's readers use. */
  lemma {:induction false} CollectableHarmlessExactly(c: Codec, cfg: RewriteConfig, idn: Identity, w: World, key: Key,
          verses: set<VerseKey>, v: VerseKey)
    requires CollisionFree(c) && Inv(c, cfg, idn, w) && SaysYes(c, cfg, w, key, verses) && v in w.logs
    ensures Scan(c, cfg, w.objects - {key}, w.logs[v]).Ok? <==>
      !(IsRewrittenBlobKey(cfg, key) && InUse(c, cfg, w.logs[v], key))
    ensures Scan(c, cfg, w.objects - {key}, w.logs[v]).Ok? ==>
      Scan(c, cfg, w.objects - {key}, w.logs[v]) == Scan(c, cfg, w.objects, w.logs[v])
  {
    ScanIsFaithful(c, cfg, idn, w, v);
    RemovalExactly(c, cfg, w.objects, w.logs[v], key);
    hide Scan, InUse, NotChosen, SaysYes, CollisionFree;
    if IsRewrittenBlobKey(cfg, key) {
      UsedIsChosen(c, cfg, w.logs[v], key);
    } else {
      CollectionIsInvisible(c, cfg, idn, w, key, verses, v);
    }
  }

  // Every chunk the walk finds in the object is read, by its own Verse, out of the object.
  ghost predicate AllInUse(c: Codec, cfg: RewriteConfig, log: seq<LogPayload>, key: Key, tiles: seq<Tile>) {
    && Candidates(c, log).Ok?
    && forall id :: id in TileIds(tiles) ==>
         exists r :: r in LogRefs(log) && r.chunkId == id && UsedAt(cfg, Candidates(c, log).value, r, key)
  }

  /** The predicate alone does not protect a rewritten object: of one whose every chunk is
      read out of it the answer is yes, and removing it breaks the scan. */
  lemma {:induction false} RewrittenObjectLooksCollectable(c: Codec, cfg: RewriteConfig, w: World, key: Key,
          v: VerseKey, tiles: seq<Tile>)
    requires IsRewrittenBlobKey(cfg, key) && key in w.objects && TilesFrom(c, w.objects[key], 0) == Some(tiles) &&
      tiles != []
    requires v in w.logs && AllInUse(c, cfg, w.logs[v], key, tiles) && Scan(c, cfg, w.objects, w.logs[v]).Ok?
    ensures SaysYes(c, cfg, w, key, {v}) && Scan(c, cfg, w.objects - {key}, w.logs[v]).Err?
  {
    var log := w.logs[v];
    hide TilesFrom, Scan, Candidates;
    assert tiles[0].id in TileIds(tiles);
    forall id | id in TileIds(tiles) ensures id in SupersededAcross(cfg, w.logs, {v}) {
      var r :| r in LogRefs(log) && r.chunkId == id && UsedAt(cfg, Candidates(c, log).value, r, key);
    }
    UsedIsChosen(c, cfg, log, key);
    RemovalExactly(c, cfg, w.objects, log, key);
  }

  // One byte is one chunk of one record, under its own id.
  const TINY_CODEC: Codec :=
    Codec.Codec(x => x, x => None, (x: Bytes) => if |x| == 1 then Some(Chunk(x, [], [Frame(0, [[7]])]))
        else None, (x: Bytes) => if x == [] then None else Some(1))
  const TINY_REF: DataRef := DataRef("verses/v1/a", 0, 1, 1, [1], [1], [1])
  const TINY_WORLD: World := World(map["verses/v1/a" := [1]], map["v" := [DataRefEntry(TINY_REF)]], {}, {})

  lemma {:induction false} OnePointerLog(c: Codec, cfg: RewriteConfig, r: DataRef)
    requires IsRewrittenBlobKey(cfg, r.blobKey)
    ensures Candidates(c, [DataRefEntry(r)]) == Ok([Ref(r)]) && LogRefs([DataRefEntry(r)]) == [r]
    ensures FirstRewritten(cfg, [Ref(r)], r.chunkId) == Some(r)
  {
    hide IsRewrittenBlobKey;
    var log := [DataRefEntry(r)];
    assert log[..0] == [] && [Ref(r)][..0] == [];
    assert Candidates(c, log[..0]) == Ok([]) && LogRefs(log[..0]) == [];
    assert [] + [Ref(r)] == [Ref(r)] && [] + [r] == [r];
  }

  lemma {:induction false} TinyTiles()
    ensures TilesFrom(TINY_CODEC, [1], 0) == Some([Tile(0, 1, [1])])
  {
    var b: Bytes := [1];
    assert b[0..] == b && b[0..1] == b;
    assert TINY_CODEC.nextLen(b) == Some(1) && TINY_CODEC.decode(b) == Some(Chunk([1], [], [Frame(0, [[7]])]));
    assert TilesFrom(TINY_CODEC, b, 1) == Some([]);
    assert [Tile(0, 1, [1])] + [] == [Tile(0, 1, [1])];
  }

  lemma {:induction false} TinyKey()
    ensures IsRewrittenBlobKey(DEFAULT_REWRITE_CONFIG, "verses/v1/a")
  {
    assert "verses/v1" + "/" == "verses/v1/a"[..10];
  }

  /** Such an object: asked about it, the predicate says yes, and the scan that worked
      fails once it is gone. */
  lemma {:induction false} YesForAnObjectInUse()
    ensures IsRewrittenBlobKey(DEFAULT_REWRITE_CONFIG, "verses/v1/a") &&
      SaysYes(TINY_CODEC, DEFAULT_REWRITE_CONFIG, TINY_WORLD, "verses/v1/a", {"v"})
    ensures Scan(TINY_CODEC, DEFAULT_REWRITE_CONFIG, TINY_WORLD.objects, TINY_WORLD.logs["v"]).Ok?
    ensures Scan(TINY_CODEC, DEFAULT_REWRITE_CONFIG, TINY_WORLD.objects - {"verses/v1/a"}, TINY_WORLD.logs["v"]).Err?
  {
    hide Candidates, FirstRewritten, TilesFrom, LogRefs, IsRewrittenBlobKey;
    TinyKey();
    TinyTiles();
    OnePointerLog(TINY_CODEC, DEFAULT_REWRITE_CONFIG, TINY_REF);
    var items := [Ref(TINY_REF)];
    var objects := TINY_WORLD.objects;
    assert objects["verses/v1/a"][0..1] == [1];
    assert ResolveEntry(TINY_CODEC, objects, Ref(TINY_REF)).Ok?;
    DistinctIdsFacts(items);
    forall i | 0 <= i < |DistinctIds(items)|
        ensures ChosenResolves(TINY_CODEC, DEFAULT_REWRITE_CONFIG, objects, items, DistinctIds(items)[i]) {
      assert DistinctIds(items)[i] in DistinctIds(items);
      assert DistinctIds(items)[i] == [1];
    }
    ScanIs(TINY_CODEC, DEFAULT_REWRITE_CONFIG, objects, TINY_WORLD.logs["v"]);
    assert UsedAt(DEFAULT_REWRITE_CONFIG, items, TINY_REF, "verses/v1/a");
    RewrittenObjectLooksCollectable(TINY_CODEC, DEFAULT_REWRITE_CONFIG, TINY_WORLD, "verses/v1/a", "v",
        [Tile(0, 1, [1])]);
  }
}
