/** Safety of the lifecycle over whole runs, as a reader sees it. */
module LifecycleRuns {
  import opened Prelude
  import opened BlobModel
  import opened BlobReader
  import opened BlobScan
  import opened ScanTheorems
  import opened BlobCollect
  import opened Lifecycle

  ghost predicate Runs(c: Codec, cfg: RewriteConfig, idn: Identity, w: World, steps: seq<Step>)
    decreases steps
  {
    steps == [] || (Enabled(c, cfg, idn, w, steps[0]) && Runs(c, cfg, idn, Apply(w, steps[0]), steps[1..]))
  }

  ghost function Final(w: World, steps: seq<Step>): World
    decreases steps
  {
    if steps == [] then w else Final(Apply(w, steps[0]), steps[1..])
  }

  // Empty logs, nothing verified, nothing acknowledged; the store may hold anything.
  ghost predicate Initial(w: World) {
    (forall v :: v in w.logs ==> w.logs[v] == []) && w.verified == {} && w.acked == {}
  }

  lemma {:induction false} RunsConcat(c: Codec, cfg: RewriteConfig, idn: Identity, w: World, a: seq<Step>, b: seq<Step>)
    ensures Final(w, a + b) == Final(Final(w, a), b)
    ensures Runs(c, cfg, idn, w, a + b) <==> Runs(c, cfg, idn, w, a) && Runs(c, cfg, idn, Final(w, a), b)
    decreases a
  {
    if a == [] {
      assert a + b == b;
    } else {
      assert (a + b)[0] == a[0] && (a + b)[1..] == a[1..] + b;
      RunsConcat(c, cfg, idn, Apply(w, a[0]), a[1..], b);
    }
  }

  lemma {:induction false} RunKeepsInv(c: Codec, cfg: RewriteConfig, idn: Identity, w: World, steps: seq<Step>)
    requires Inv(c, cfg, idn, w) && Runs(c, cfg, idn, w, steps)
    ensures Inv(c, cfg, idn, Final(w, steps))
    decreases steps
  {
    if steps != [] {
      StepKeepsInv(c, cfg, idn, w, steps[0]);
      RunKeepsInv(c, cfg, idn, Apply(w, steps[0]), steps[1..]);
    }
  }

  // Logs only grow, and acknowledgements are never taken back.
  lemma {:induction false} LogsGrow(c: Codec, cfg: RewriteConfig, idn: Identity, w: World, steps: seq<Step>,
          v: VerseKey)
    requires Runs(c, cfg, idn, w, steps)
    ensures IsPrefix(LogOf(w, v), LogOf(Final(w, steps), v)) && (v in w.logs ==> v in Final(w, steps).logs)
    ensures w.acked <= Final(w, steps).acked
    decreases steps
  {
    if steps != [] {
      LogsGrow(c, cfg, idn, Apply(w, steps[0]), steps[1..], v);
      assert IsPrefix(LogOf(w, v), LogOf(Apply(w, steps[0]), v));
    }
  }

  lemma {:induction false} InitialInv(c: Codec, cfg: RewriteConfig, idn: Identity, w: World)
    requires Initial(w)
    ensures Inv(c, cfg, idn, w)
  {
    forall v | v in w.logs ensures GoodLog(c, cfg, idn, w, v) {
      assert LogRefs(LogOf(w, v)) == [];
    }
  }

  // Reading under the invariant. -----------------------------------------------------

  lemma {:induction false} GoodLogReads(c: Codec, idn: Identity, v: VerseKey, log: seq<LogPayload>)
    requires forall i :: 0 <= i < |log| ==> GoodInline(c, idn, v, log[i])
    ensures Candidates(c, log).Ok?
    ensures forall e :: e in Candidates(c, log).value && e.Inline? ==>
      RecordsOf(e.chunk) == idn.records(e.chunk.chunkId)
  {
    if log != [] {
      var n := |log| - 1;
      GoodLogReads(c, idn, v, log[..n]);
      assert GoodInline(c, idn, v, log[n]);
      EntriesGood(c, idn, v, log[n]);
    }
  }

  lemma {:induction false} EntriesGood(c: Codec, idn: Identity, v: VerseKey, p: LogPayload)
    requires GoodInline(c, idn, v, p)
    ensures PayloadEntries(c, p).Ok?
    ensures forall e :: e in PayloadEntries(c, p).value && e.Inline? ==>
      RecordsOf(e.chunk) == idn.records(e.chunk.chunkId)
  {
    if p.ReferenceBatch? { RefEntriesAt(p.refs); }
  }

  // A good pointer resolves to the records of its chunk.
  lemma {:induction false} StandingResolves(c: Codec, cfg: RewriteConfig, idn: Identity, objects: Objects, r: DataRef)
    requires CollisionFree(c) && Standing(c, cfg, objects, r) && Genuine(c, idn, r)
    ensures ResolveEntry(c, objects, Ref(r)).Ok?
    ensures ResolveEntry(c, objects, Ref(r)).value.dataRef == Some(r)
    ensures RecordsOf(ResolveEntry(c, objects, Ref(r)).value.chunk) == idn.records(r.chunkId)
  {
    var bytes :| IsCopy(c, idn, r, bytes);
    assert Slice(objects, r) == bytes;
    assert Resolves(c, objects, r, c.decode(bytes).value);
  }

  // What a reader may rely on for one resolved chunk.
  ghost predicate Faithful(c: Codec, idn: Identity, objects: Objects, one: ResolvedChunk) {
    RecordsOf(one.chunk) == idn.records(one.chunk.chunkId) &&
    (one.dataRef.Some? ==> Backed(c, objects, one.dataRef.value) && one.dataRef.value.chunkId == one.chunk.chunkId)
  }

  lemma {:induction false} ChosenIsFaithful(c: Codec, cfg: RewriteConfig, idn: Identity, w: World, v: VerseKey,
          id: ChunkId)
    requires CollisionFree(c) && GoodLog(c, cfg, idn, w, v) && v in w.logs && Candidates(c, w.logs[v]).Ok?
    requires Mentions(Candidates(c, w.logs[v]).value, id)
    ensures ChosenResolves(c, cfg, w.objects, Candidates(c, w.logs[v]).value, id)
    ensures Faithful(c, idn, w.objects, ResolveEntry(c, w.objects,
      Choose(cfg, Candidates(c, w.logs[v]).value, id).value).value)
  {
    var log := w.logs[v];
    var items := Candidates(c, log).value;
    ChooseMentioned(cfg, items, id);
    var e := Choose(cfg, items, id).value;
    if e.Inline? {
      assert LogOf(w, v) == log;
      GoodLogReads(c, idn, v, log);
    } else {
      CandidateRefs(c, log, e.dataRef);
      assert GoodRef(c, cfg, idn, w, e.dataRef);
      if !Standing(c, cfg, w.objects, e.dataRef) {
        SupersededHasRewritten(c, cfg, log, id);
        FirstRewrittenKey(cfg, items, id);
        assert false;
      }
      StandingResolves(c, cfg, idn, w.objects, e.dataRef);
    }
  }

  /** In every state that keeps the invariant, a Verse's deduplicated scan
      succeeds; it lists every chunk of the log exactly once, in log order, with
      that chunk's records, and each pointer used has both digests matching. */
  lemma {:induction false} ScanIsFaithful(c: Codec, cfg: RewriteConfig, idn: Identity, w: World, v: VerseKey)
    requires CollisionFree(c) && Inv(c, cfg, idn, w) && v in w.logs
    ensures Candidates(c, w.logs[v]).Ok? && Scan(c, cfg, w.objects, w.logs[v]).Ok?
    ensures var ids, out := DistinctIds(Candidates(c, w.logs[v]).value), Scan(c, cfg, w.objects, w.logs[v]).value;
            Distinct(ids) && |out| == |ids| &&
            forall i :: 0 <= i < |out| ==> out[i].chunk.chunkId == ids[i] && Faithful(c, idn, w.objects, out[i])
  {
    assert GoodLog(c, cfg, idn, w, v);
    assert LogOf(w, v) == w.logs[v];
    GoodLogReads(c, idn, v, w.logs[v]);
    var items := Candidates(c, w.logs[v]).value;
    DistinctIdsFacts(items);
    forall i | 0 <= i < |DistinctIds(items)|
      ensures ChosenResolves(c, cfg, w.objects, items, DistinctIds(items)[i])
      ensures Faithful(c, idn, w.objects, ResolveEntry(c, w.objects,
        Choose(cfg, items, DistinctIds(items)[i]).value).value)
    {
      ChosenIsFaithful(c, cfg, idn, w, v, DistinctIds(items)[i]);
    }
    ScanIs(c, cfg, w.objects, w.logs[v]);
  }

  // `id` stands at exactly one place of the list.
  ghost predicate Once(out: seq<ResolvedChunk>, id: ChunkId) {
    exists i :: 0 <= i < |out| && out[i].chunk.chunkId == id &&
      forall j :: 0 <= j < |out| && j != i ==> out[j].chunk.chunkId != id
  }

  /** Every acknowledged chunk is in its Verse's scan exactly once. */
  lemma {:induction false} AckedExactlyOnce(c: Codec, cfg: RewriteConfig, idn: Identity, w: World, v: VerseKey,
          id: ChunkId)
    requires CollisionFree(c) && Inv(c, cfg, idn, w) && (v, id) in w.acked
    ensures v in w.logs && Scan(c, cfg, w.objects, w.logs[v]).Ok? && Once(Scan(c, cfg, w.objects, w.logs[v]).value, id)
  {
    assert Acked(c, w, v, id);
    ScanIsFaithful(c, cfg, idn, w, v);
    var items := Candidates(c, w.logs[v]).value;
    DistinctIdsFacts(items);
    var ids, out := DistinctIds(items), Scan(c, cfg, w.objects, w.logs[v]).value;
    var i :| 0 <= i < |ids| && ids[i] == id;
    assert out[i].chunk.chunkId == id;
  }

  /** Over any run, whatever is committed, rewritten, lost, interrupted or
      collected on the way: what a reader saw at any earlier point of the run is,
      record for record, the beginning of what a reader sees at its end. */
  lemma {:induction false} NothingVanishesOrDoubles(c: Codec, cfg: RewriteConfig, idn: Identity, w: World,
          steps: seq<Step>, n: nat, v: VerseKey)
    requires CollisionFree(c) && Initial(w) && Runs(c, cfg, idn, w, steps) && n <= |steps| && v in w.logs
    ensures var mid, end := Final(w, steps[..n]), Final(w, steps);
            v in mid.logs && v in end.logs &&
            Scan(c, cfg, mid.objects, mid.logs[v]).Ok? && Scan(c, cfg, end.objects, end.logs[v]).Ok? &&
            PrefixView(Scan(c, cfg, mid.objects, mid.logs[v]).value, Scan(c, cfg, end.objects, end.logs[v]).value) &&
            forall id :: (v, id) in mid.acked ==> Once(Scan(c, cfg, end.objects, end.logs[v]).value, id)
  {
    var mid, end := Final(w, steps[..n]), Final(w, steps);
    assert steps[..n] + steps[n..] == steps;
    RunsConcat(c, cfg, idn, w, steps[..n], steps[n..]);
    InitialInv(c, cfg, idn, w);
    RunKeepsInv(c, cfg, idn, w, steps[..n]);
    RunKeepsInv(c, cfg, idn, mid, steps[n..]);
    LogsGrow(c, cfg, idn, w, steps[..n], v);
    LogsGrow(c, cfg, idn, mid, steps[n..], v);
    hide Runs, Final, Inv, Scan;
    EarlierIsPrefix(c, cfg, idn, mid, end, v);
    forall id | (v, id) in mid.acked ensures Once(Scan(c, cfg, end.objects, end.logs[v]).value, id) {
      AckedExactlyOnce(c, cfg, idn, end, v, id);
    }
  }

  lemma {:induction false} EarlierIsPrefix(c: Codec, cfg: RewriteConfig, idn: Identity, mid: World, end: World,
          v: VerseKey)
    requires CollisionFree(c) && Inv(c, cfg, idn, mid) && Inv(c, cfg, idn, end)
    requires v in mid.logs && v in end.logs && IsPrefix(mid.logs[v], end.logs[v])
    ensures Scan(c, cfg, mid.objects, mid.logs[v]).Ok? && Scan(c, cfg, end.objects, end.logs[v]).Ok?
    ensures PrefixView(Scan(c, cfg, mid.objects, mid.logs[v]).value, Scan(c, cfg, end.objects, end.logs[v]).value)
  {
    ScanIsFaithful(c, cfg, idn, mid, v);
    ScanIsFaithful(c, cfg, idn, end, v);
    hide Inv, Scan;
    var more := end.logs[v][|mid.logs[v]|..];
    assert mid.logs[v] + more == end.logs[v];
    CandidatesAppend(c, mid.logs[v], more);
    var early, late := Candidates(c, mid.logs[v]).value, Candidates(c, more).value;
    DistinctIdsGrow(early, late);
    var ids, ids' := DistinctIds(early), DistinctIds(early + late);
    forall i | 0 <= i < |ids| ensures ids[i] == ids'[i] { assert ids'[..|ids|][i] == ids[i]; }
  }
}
