/** A rewrite pass as readers see it: nothing changes, at any point of its appends. */
module RewriteView {
  import opened Prelude
  import opened BlobModel
  import opened BlobStore
  import opened BlobReader
  import opened BlobScan
  import opened ScanTheorems
  import opened BlobRewrite
  import opened Lifecycle
  import opened LifecycleRuns
  import opened CommitRuns
  import opened RewriteRuns

  // The pointers of `refs` name chunks of the placements and lie in one object.
  ghost predicate Names(refs: seq<DataRef>, key: Key, items: seq<Rewritten>) {
    forall k :: 0 <= k < |refs| ==>
        refs[k].blobKey == key && exists i :: 0 <= i < |items| && items[i].chunkId == refs[k].chunkId
  }

  // Some pointer handed to the pass is of this chunk.
  ghost predicate Given(ps: seq<StagingPointer>, id: ChunkId) {
    exists i :: 0 <= i < |ps| && ps[i].dataRef.chunkId == id
  }

  lemma {:induction false} NoEntries(entries: seq<LogPayload>)
    ensures entries + SupersedingEntries([]) == entries
  {
  }

  // What an append loop adds to the log: superseding pointers, one entry each.
  lemma {:induction false} SupersedeAppends(s: Passing, key: Key, digest: Digest, items: seq<Rewritten>,
          fates: nat -> Fate, n: nat) returns (refs: seq<DataRef>)
    requires n <= |items|
    ensures SupersedeAll(s, key, digest, items, fates, n).log.entries == s.log.entries + SupersedingEntries(refs) &&
      Names(refs, key, items)
  {
    if n == 0 {
      refs := [];
      assert s.log.entries + SupersedingEntries([]) == s.log.entries;
    } else {
      refs := SupersedeAppends(s, key, digest, items, fates, n - 1);
      var before, item := SupersedeAll(s, key, digest, items, fates, n - 1), items[n - 1];
      var after, r := SupersedeOne(before, key, digest, item, fates(n - 1)), Superseding(key, digest, item);
      if after.log.entries != before.log.entries {
        assert after.log.entries == before.log.entries + [DataRefEntry(r)];
        assert (refs + [r])[..|refs|] == refs;
        ConcatAssoc(s.log.entries, SupersedingEntries(refs), [DataRefEntry(r)]);
        refs := refs + [r];
      }
    }
  }

  // A pass appends superseding pointers of the chunks it was given, into a rewritten object,
  // and only adds to the store.
  lemma {:induction false} PassAppends(c: Codec, cfg: RewriteConfig, objects: Objects, log: VerseLog,
          ps: seq<StagingPointer>, key0: Option<Key>, superseded: set<ChunkId>, env: nat -> Attempt, fates: nat -> Fate)
    returns (refs: seq<DataRef>)
    requires CollisionFree(c) && (key0.Some? ==> IsRewrittenBlobKey(cfg, key0.value))
    ensures var done := RewritePass(c, cfg, objects, log, ps, key0, superseded, env, fates);
      && done.log.entries == log.entries + SupersedingEntries(refs)
      && (forall k :: k in objects ==> k in done.objects && done.objects[k] == objects[k])
    ensures forall k :: 0 <= k < |refs| ==> IsRewrittenBlobKey(cfg, refs[k].blobKey) && Given(ps, refs[k].chunkId)
  {
    hide Build, Load, PutOutcome, SupersedeAll, SupersedingEntries, CollisionFree, Names, ItemAt, Given;
    NoEntries(log.entries);
    refs := [];
    var s := Passing(log, superseded, map[]);
    if SameVerse(ps) && key0.None? && Build(c, objects, ps, |ps|).Ok? {
      var b := Build(c, objects, ps, |ps|).value;
      var digest := c.digest(b.bytes);
      var key := RewrittenObjectKey(cfg, ps[0].verseKey, digest);
      PutOutcomeSafe(c, objects, key, b.bytes, env, 0);
      if PutOutcome(c, objects, key, b.bytes, digest, env, 0).1.Ok? {
        BuildCopies(c, objects, ps, |ps|);
        refs := SupersedeAppends(s, key, digest, b.items, fates, |b.items|);
        NamedByPointers(c, b.bytes, refs, key, ps, b.items);
      }
    } else if SameVerse(ps) && key0.Some? && key0.value in objects && Load(c, objects[key0.value], ps, |ps|).Ok? {
      var key, l := key0.value, Load(c, objects[key0.value], ps, |ps|).value;
      LoadCopies(c, objects[key], ps, |ps|);
      refs := SupersedeAppends(s, key, c.digest(objects[key]), l.items, fates, |l.items|);
      NamedByPointers(c, objects[key], refs, key, ps, l.items);
    }
  }

  lemma {:induction false} NamedByPointers(c: Codec, bytes: Bytes, refs: seq<DataRef>, key: Key,
          ps: seq<StagingPointer>, items: seq<Rewritten>)
    requires Names(refs, key, items) && |items| == |ps| && forall i :: 0 <= i < |ps| ==> ItemAt(c, bytes, ps, items, i)
    ensures forall k :: 0 <= k < |refs| ==> refs[k].blobKey == key && Given(ps, refs[k].chunkId)
  {
    forall k | 0 <= k < |refs| ensures refs[k].blobKey == key && Given(ps, refs[k].chunkId) {
      var i :| 0 <= i < |items| && items[i].chunkId == refs[k].chunkId;
      assert ItemAt(c, bytes, ps, items, i);
    }
  }

  // A store that only grew resolves what resolved before, alike.
  lemma {:induction false} ScanInLargerStore(c: Codec, cfg: RewriteConfig, objects: Objects, more: Objects,
          log: seq<LogPayload>)
    requires Scan(c, cfg, objects, log).Ok? && forall k :: k in objects ==> k in more && more[k] == objects[k]
    ensures Scan(c, cfg, more, log) == Scan(c, cfg, objects, log)
  {
    var items := Candidates(c, log).value;
    var ids := DistinctIds(items);
    hide Candidates, DistinctIds;
    ChosenInLargerStore(c, cfg, objects, more, items, ids, |ids|);
  }

  lemma {:induction false} ChosenInLargerStore(c: Codec, cfg: RewriteConfig, objects: Objects, more: Objects,
          items: seq<Entry>, ids: seq<ChunkId>, n: nat)
    requires n <= |ids| && ResolveChosen(c, cfg, objects, items, ids, n).Ok? && forall k :: k in objects ==>
      k in more && more[k] == objects[k]
    ensures ResolveChosen(c, cfg, more, items, ids, n) == ResolveChosen(c, cfg, objects, items, ids, n)
  {
    if n > 0 {
      hide Choose;
      ChosenInLargerStore(c, cfg, objects, more, items, ids, n - 1);
      EntryInLargerStore(c, objects, more, Choose(cfg, items, ids[n - 1]).value);
      hide ResolveEntry;
    }
  }

  lemma {:induction false} EntryInLargerStore(c: Codec, objects: Objects, more: Objects, e: Entry)
    requires ResolveEntry(c, objects, e).Ok? && forall k :: k in objects ==> k in more && more[k] == objects[k]
    ensures ResolveEntry(c, more, e) == ResolveEntry(c, objects, e)
  {
  }

  // A pointer of the final log into a rewritten object, of a chunk the old log mentions.
  lemma {:induction false} AppendedRepeats(c: Codec, cfg: RewriteConfig, idn: Identity, w: World, end: World,
          v: VerseKey, r: DataRef)
    requires CollisionFree(c) && Inv(c, cfg, idn, w) && Inv(c, cfg, idn, end) && v in w.logs && v in end.logs
    requires r in LogRefs(end.logs[v]) && IsRewrittenBlobKey(cfg, r.blobKey)
    requires Candidates(c, w.logs[v]).Ok? && Mentions(Candidates(c, w.logs[v]).value, r.chunkId) &&
      Scan(c, cfg, w.objects, w.logs[v]).Ok?
    ensures Repeats(c, end.objects, Scan(c, cfg, w.objects, w.logs[v]).value, r)
  {
    assert GoodLog(c, cfg, idn, end, v) && LogOf(end, v) == end.logs[v];
    assert GoodRef(c, cfg, idn, end, r);
    StandingResolves(c, cfg, idn, end.objects, r);
    EntryKeepsId(c, end.objects, Ref(r));
    ScanIsFaithful(c, cfg, idn, w, v);
    var items := Candidates(c, w.logs[v]).value;
    DistinctIdsFacts(items);
    hide Inv, Scan, Candidates, Mentions;
    var ids, out := DistinctIds(items), Scan(c, cfg, w.objects, w.logs[v]).value;
    var i :| 0 <= i < |ids| && ids[i] == r.chunkId;
    assert SameRecords(out[i], ResolveOne(c, end.objects, r).value);
  }

  // Every pointer handed to the pass is of a chunk the log holds.
  ghost predicate InLog(c: Codec, log: seq<LogPayload>, ps: seq<StagingPointer>) {
    Candidates(c, log).Ok? && forall i :: 0 <= i < |ps| ==> Mentions(Candidates(c, log).value, ps[i].dataRef.chunkId)
  }

  /** A rewrite pass is invisible: whatever progress it starts from and whatever is refused
      or lost on the way, after any number of its appends the scan shows the same chunks,
      with the same records, in the same order as before the pass. */
  lemma {:induction false} PassIsInvisible(c: Codec, cfg: RewriteConfig, idn: Identity, w: World, v: VerseKey,
          log: VerseLog, ps: seq<StagingPointer>, key0: Option<Key>, superseded: set<ChunkId>, env: nat -> Attempt,
          fates: nat -> Fate) returns (refs: seq<DataRef>)
    requires CollisionFree(c) && Inv(c, cfg, idn, w) && v in w.logs && w.logs[v] == log.entries
    requires PointersOf(c, idn, v, ps) && InLog(c, log.entries, ps) &&
      (key0.Some? ==> IsRewrittenBlobKey(cfg, key0.value))
    ensures var done := RewritePass(c, cfg, w.objects, log, ps, key0, superseded, env, fates);
      && done.log.entries == log.entries + SupersedingEntries(refs)
      && Scan(c, cfg, w.objects, log.entries).Ok?
      && forall n :: 0 <= n <= |refs| ==>
           && Scan(c, cfg, done.objects, log.entries + SupersedingEntries(refs[..n])).Ok?
           && SameView(Scan(c, cfg, w.objects, log.entries).value,
                Scan(c, cfg, done.objects, log.entries + SupersedingEntries(refs[..n])).value)
  {
    var done := RewritePass(c, cfg, w.objects, log, ps, key0, superseded, env, fates);
    refs := PassAppends(c, cfg, w.objects, log, ps, key0, superseded, env, fates);
    var steps := RewriteIsRun(c, cfg, idn, w, v, log, ps, key0, superseded, env, fates);
    SafeKeepsInv(c, cfg, idn, w, steps);
    var end := Final(w, steps);
    ScanIsFaithful(c, cfg, idn, w, v);
    ScanInLargerStore(c, cfg, w.objects, done.objects, log.entries);
    hide RewritePass, Inv, SafeRun, Final, PointersOf, CollisionFree, Scan, Candidates, SupersedingEntries;
    forall k | 0 <= k < |refs| ensures Repeats(c, done.objects, Scan(c, cfg, w.objects, log.entries).value, refs[k]) {
      AppendedIsThere(log.entries, refs, k);
      var i :| 0 <= i < |ps| && ps[i].dataRef.chunkId == refs[k].chunkId;
      AppendedRepeats(c, cfg, idn, w, end, v, refs[k]);
    }
    forall n | 0 <= n <= |refs|
      ensures Scan(c, cfg, done.objects, log.entries + SupersedingEntries(refs[..n])).Ok?
      ensures SameView(Scan(c, cfg, w.objects, log.entries).value,
        Scan(c, cfg, done.objects, log.entries + SupersedingEntries(refs[..n])).value)
    {
      RewriteIsInvisible(c, cfg, done.objects, log.entries, refs[..n]);
    }
  }

  lemma {:induction false} AppendedIsThere(entries: seq<LogPayload>, refs: seq<DataRef>, k: nat)
    requires k < |refs|
    ensures refs[k] in LogRefs(entries + SupersedingEntries(refs))
  {
    LogRefsAppend(entries, SupersedingEntries(refs));
    SupersedingRefs(refs);
  }

  lemma {:induction false} SupersedingRefs(refs: seq<DataRef>)
    ensures LogRefs(SupersedingEntries(refs)) == refs
  {
    if refs != [] {
      var n := |refs| - 1;
      SupersedingRefs(refs[..n]);
      var log := SupersedingEntries(refs);
      assert log[..|log| - 1] == SupersedingEntries(refs[..n]);
      assert refs == refs[..n] + [refs[n]];
    }
  }
}
