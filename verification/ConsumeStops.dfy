/** The consumer against collection: it resolves every entry, superseded or not, so it
    stops for good where readers that deduplicate go on. */
module ConsumeStops {
  import opened Prelude
  import opened BlobModel
  import opened BlobReader
  import BlobScan
  import opened Lifecycle
  import opened LifecycleRuns
  import opened Consume
  import opened ConsumeTheorems
  import opened ConsumeResume

  // Stopping. ------------------------------------------------------------------------------------

  // In this pass there is nothing to read at the position, or what is there does not resolve.
  ghost predicate Unreadable(c: Codec, pass: Pass, position: nat) {
    var entry := ReadAt(pass.view, |pass.view|, position);
    entry.Some? ==> ResolvePayload(c, pass.objects, entry.value).Err?
  }

  lemma {:induction false} ReadStops(c: Codec, pass: Pass, limit: Option<nat>, t: Tail, end: nat, position: nat)
    requires Unreadable(c, pass, position) && t.cursor <= position
    ensures ReadUpTo(c, pass, limit, t, end).tail.cursor <= position
    decreases end - t.cursor
  {
    hide Cap, EntryLines, ReadAt, ResolvePayload;
    if t.cursor < end && t.cursor < position && !Full(limit, |t.lines|) &&
        ReadAt(pass.view, |pass.view|, t.cursor).Some? {
      var chunks := ResolvePayload(c, pass.objects, ReadAt(pass.view, |pass.view|, t.cursor).value);
      if chunks.Ok? {
        var lines := Cap(limit, |t.lines|, EntryLines(t.cursor, chunks.value, |chunks.value|));
        ReadStops(c, pass, limit, Tail(t.cursor + 1, t.lines + lines, t.scanned + 1), end, position);
      }
    }
  }

  lemma {:induction false} FollowStops(c: Codec, options: Options, passes: seq<Pass>, i: nat, t: Tail, w: Watch,
          position: nat)
    requires i <= |passes| && t.cursor <= position && forall k :: 0 <= k < |passes| ==>
      Unreadable(c, passes[k], position)
    ensures Follow(c, options, passes, i, t, w).tail.cursor <= position
    decreases |passes| - i
  {
    hide ReadUpTo, Unreadable, Ids, Noticed, EndOf;
    if i < |passes| && !Full(options.untilRecords, |t.lines|) {
      assert Unreadable(c, passes[i], position);
      ReadStops(c, passes[i], options.untilRecords, t, EndOf(passes[i].view), position);
      var read := ReadUpTo(c, passes[i], options.untilRecords, t, EndOf(passes[i].view));
      if read.failure.None? && !options.noFollow {
        FollowStops(c, options, passes, i + 1, read.tail, Noticed(w, Ids(passes[i].view)), position);
      }
    }
  }

  // An entry that names a missing object does not resolve.
  lemma {:induction false} MissingFails(c: Codec, objects: Objects, p: LogPayload, r: DataRef)
    requires r in PayloadRefs(p) && r.blobKey !in objects
    ensures ResolvePayload(c, objects, p).Err?
  {
    var refs := PayloadRefs(p);
    ResolveAllIsEach(c, objects, refs, |refs|);
    var i :| 0 <= i < |refs| && refs[i] == r;
    assert ResolveOne(c, objects, refs[i]).Err?;
  }

  /** After a collection the predicate allows, every scan still works; but a consumer started
      at or before an entry that names the object never gets past that entry, whatever its
      limit, however often it looks and however the log grows, as long as the object stays
      away. */
  lemma {:induction false} CollectedEntryStopsConsumer(
      c: Codec, cfg: RewriteConfig, idn: Identity, w: World, key: Key, verses: set<VerseKey>, v: VerseKey,
      n: nat, log: seq<LogPayload>, options: Options, passes: seq<Pass>, origin: nat)
    requires CollisionFree(c) && Inv(c, cfg, idn, w) && MayCollect(c, cfg, w, key, verses) && v in w.logs
    requires n < |w.logs[v]| && exists r :: r in PayloadRefs(w.logs[v][n]) && r.blobKey == key
    requires w.logs[v] <= log && options.from <= origin + n && History(passes, origin)
    requires forall k :: 0 <= k < |passes| ==>
      key !in passes[k].objects && ConsumeTheorems.Entries(passes[k].view) <= log
    ensures var gone := Apply(w, Collect(key, verses)); BlobScan.Scan(c, cfg, gone.objects, gone.logs[v]).Ok?
    ensures Run(c, options, passes).tail.cursor <= origin + n
  {
    hide Inv, MayCollect, BlobScan.Scan, BlobScan.Candidates, BlobScan.DistinctIds, CollisionFree, Faithful, History,
        Run, ConsumeTheorems.Entries;
    assert Enabled(c, cfg, idn, w, Collect(key, verses));
    StepKeepsInv(c, cfg, idn, w, Collect(key, verses));
    ScanIsFaithful(c, cfg, idn, Apply(w, Collect(key, verses)), v);
    var r :| r in PayloadRefs(w.logs[v][n]) && r.blobKey == key;
    MissingStopsConsumer(c, log, n, r, options, passes, origin);
  }

  lemma {:induction false} MissingStopsConsumer(c: Codec, log: seq<LogPayload>, n: nat, r: DataRef, options: Options,
          passes: seq<Pass>, origin: nat)
    requires n < |log| && r in PayloadRefs(log[n]) && options.from <= origin + n && History(passes, origin)
    requires forall k :: 0 <= k < |passes| ==>
      r.blobKey !in passes[k].objects && ConsumeTheorems.Entries(passes[k].view) <= log
    ensures Run(c, options, passes).tail.cursor <= origin + n
  {
    forall k | 0 <= k < |passes| ensures Unreadable(c, passes[k], origin + n) {
      CollectedUnreadable(c, passes[k], origin, log, n, r);
    }
    hide Unreadable, Follow;
    FollowStops(c, options, passes, 0, Start(options), Watch(None, false), origin + n);
  }

  lemma {:induction false} CollectedUnreadable(c: Codec, pass: Pass, origin: nat, log: seq<LogPayload>, n: nat,
          r: DataRef)
    requires Chain(pass.view, origin) && ConsumeTheorems.Entries(pass.view) <= log && n < |log|
    requires r in PayloadRefs(log[n]) && r.blobKey !in pass.objects
    ensures Unreadable(c, pass, origin + n)
  {
    var entries := ConsumeTheorems.Entries(pass.view);
    if n < |entries| {
      ReadAtIs(pass.view, origin, |pass.view|, origin + n);
      MissingFails(c, pass.objects, log[n], r);
    } else {
      ReadPastEnd(pass.view, origin, |pass.view|, origin + n);
    }
  }

  lemma {:induction false} ReadPastEnd(view: View, origin: nat, n: nat, position: nat)
    requires Chain(view, origin) && n <= |view| && position >= origin + |Flat(view, n)|
    ensures ReadAt(view, n, position) == None
  {
    if n > 0 { FlatLength(view, origin, n); }
  }

  // Going through. ----------------------------------------------------------------------------------

  lemma {:induction false} ReadExactly(c: Codec, pass: Pass, origin: nat, t: Tail)
    requires Chain(pass.view, origin) && t.cursor >= origin
    ensures var entries := ConsumeTheorems.Entries(pass.view);
      ReadUpTo(c, pass, None, t, EndOf(pass.view)).failure.None? <==>
      forall n :: t.cursor - origin <= n < |entries| ==> ResolvePayload(c, pass.objects, entries[n]).Ok?
    decreases EndOf(pass.view) - t.cursor
  {
    hide EntryLines, ResolvePayload, Flat, Chain, EndOf;
    var entries, end := ConsumeTheorems.Entries(pass.view), EndOf(pass.view);
    EndOrEmpty(pass.view, origin);
    if t.cursor < end {
      ReadAtIs(pass.view, origin, |pass.view|, t.cursor);
      var chunks := ResolvePayload(c, pass.objects, entries[t.cursor - origin]);
      hide ReadAt;
      if chunks.Ok? {
        var lines := Cap(None, |t.lines|, EntryLines(t.cursor, chunks.value, |chunks.value|));
        ReadExactly(c, pass, origin, Tail(t.cursor + 1, t.lines + lines, t.scanned + 1));
      }
    }
  }

  lemma {:induction false} EndOrEmpty(view: View, origin: nat)
    requires Chain(view, origin)
    ensures view == [] ==> EndOf(view) == 0 && ConsumeTheorems.Entries(view) == []
    ensures view != [] ==> EndOf(view) == origin + |ConsumeTheorems.Entries(view)|
  {
    if view != [] { EndIs(view, origin); }
  }

  // A genuine pointer resolves exactly when its object is there with the bytes it was taken of.
  lemma {:induction false} GenuineResolves(c: Codec, idn: Identity, objects: Objects, r: DataRef)
    requires CollisionFree(c) && Genuine(c, idn, r)
    ensures ResolveOne(c, objects, r).Ok? <==> Backed(c, objects, r)
    ensures Backed(c, objects, r) ==> RecordsOf(ResolveOne(c, objects, r).value.chunk) == idn.records(r.chunkId)
  {
    if Backed(c, objects, r) {
      var bytes :| IsCopy(c, idn, r, bytes);
      assert Slice(objects, r) == bytes;
      assert Resolves(c, objects, r, c.decode(bytes).value);
    }
  }

  // Every pointer of the entry is still backed by the store.
  ghost predicate Whole(c: Codec, objects: Objects, p: LogPayload) {
    forall r :: r in PayloadRefs(p) ==> Backed(c, objects, r)
  }

  lemma {:induction false} EntryResolvesExactly(c: Codec, cfg: RewriteConfig, idn: Identity, w: World, v: VerseKey,
          n: nat)
    requires CollisionFree(c) && Inv(c, cfg, idn, w) && v in w.logs && n < |w.logs[v]|
    ensures ResolvePayload(c, w.objects, w.logs[v][n]).Ok? <==> Whole(c, w.objects, w.logs[v][n])
  {
    var p := w.logs[v][n];
    assert GoodLog(c, cfg, idn, w, v) && LogOf(w, v) == w.logs[v];
    assert GoodInline(c, idn, v, LogOf(w, v)[n]);
    var refs := PayloadRefs(p);
    ResolveAllIsEach(c, w.objects, refs, |refs|);
    forall r | r in refs ensures ResolveOne(c, w.objects, r).Ok? <==> Backed(c, w.objects, r) {
      RefInLog(w.logs[v], n, r);
      assert GoodRef(c, cfg, idn, w, r);
      GenuineResolves(c, idn, w.objects, r);
    }
    hide ResolveAll, Backed, ResolveOne, GoodLog, Inv, GoodRef, CollisionFree;
    if ResolvePayload(c, w.objects, p).Ok? && (p.DataRefEntry? || p.ReferenceBatch?) {
      forall r | r in refs ensures Backed(c, w.objects, r) { var i :| 0 <= i < |refs| && refs[i] == r; }
    }
  }

  lemma {:induction false} RefInLog(log: seq<LogPayload>, n: nat, r: DataRef)
    requires n < |log| && r in PayloadRefs(log[n])
    ensures r in LogRefs(log)
  {
    if n < |log| - 1 { RefInLog(log[..|log| - 1], n, r); }
  }

  /** A one-shot consumer without a limit, over the log of a Verse in any state of the
      lifecycle, gets through exactly when every pointer from its start on, superseded or
      not, is still backed by the store. */
  lemma {:induction false} ConsumerGetsThroughExactly(c: Codec, cfg: RewriteConfig, idn: Identity, w: World,
          v: VerseKey, view: View, origin: nat, from: nat)
    requires CollisionFree(c) && Inv(c, cfg, idn, w) && v in w.logs && Chain(view, origin) &&
      ConsumeTheorems.Entries(view) == w.logs[v] && from >= origin
    ensures Run(c, OneShot(from, None), [Pass(view, w.objects)]).failure.None? <==>
      forall n :: from - origin <= n < |w.logs[v]| ==> Whole(c, w.objects, w.logs[v][n])
  {
    var pass := Pass(view, w.objects);
    ReadExactly(c, pass, origin, Start(OneShot(from, None)));
    hide ReadUpTo, Whole, ResolvePayload, Inv, CollisionFree, Chain;
    forall n | from - origin <= n < |w.logs[v]| ensures ResolvePayload(c, w.objects, w.logs[v][n]).Ok? <==>
        Whole(c, w.objects, w.logs[v][n]) {
      EntryResolvesExactly(c, cfg, idn, w, v, n);
    }
  }
}
