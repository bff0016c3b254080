/** Rewrite passes as runs of the lifecycle, and the key spaces they rely on. */
module RewriteRuns {
  import opened Prelude
  import opened BlobModel
  import opened BlobStore
  import opened BlobScan
  import opened BlobRewrite
  import opened CommitVerses
  import opened Lifecycle
  import opened LifecycleRuns
  import opened CommitRuns
  import Hex

  // Every placement is the copy of its pointer in an object of the store.
  ghost predicate CopiedIn(c: Codec, objects: Objects, key: Key, digest: Digest, ps: seq<StagingPointer>,
          items: seq<Rewritten>)
  {
    key in objects && c.digest(objects[key]) == digest && |items| == |ps| &&
    forall i :: 0 <= i < |ps| ==> ItemAt(c, objects[key], ps, items, i)
  }

  // The pointers handed to a pass are good pointers of the Verse `v`.
  ghost predicate PointersOf(c: Codec, idn: Identity, v: VerseKey, ps: seq<StagingPointer>) {
    forall i :: 0 <= i < |ps| ==> Genuine(c, idn, ps[i].dataRef) && idn.owner(ps[i].dataRef.chunkId) == v
  }

  lemma {:induction false} SupersedingReady(c: Codec, cfg: RewriteConfig, idn: Identity, objects: Objects, v: VerseKey,
          key: Key, digest: Digest, ps: seq<StagingPointer>, items: seq<Rewritten>, i: nat)
    requires CopiedIn(c, objects, key, digest, ps, items) && PointersOf(c, idn, v, ps) && IsRewrittenBlobKey(cfg, key)
    requires i < |items| && Superseding(key, digest, items[i]).Valid()
    ensures Ready(c, cfg, idn, objects, v, Superseding(key, digest, items[i]))
  {
    var r := Superseding(key, digest, items[i]);
    assert ItemAt(c, objects[key], ps, items, i);
    assert Genuine(c, idn, ps[i].dataRef);
    var bytes :| IsCopy(c, idn, ps[i].dataRef, bytes);
    assert IsCopy(c, idn, r, bytes);
  }

  /** The append loop of a pass, as steps of the lifecycle. */
  lemma {:induction false} SupersedeRun(c: Codec, cfg: RewriteConfig, idn: Identity, w: World, v: VerseKey, s: Passing,
          key: Key, digest: Digest, ps: seq<StagingPointer>, items: seq<Rewritten>, fates: nat -> Fate, n: nat)
    returns (steps: seq<Step>)
    requires n <= |items| && v in w.logs && w.logs[v] == s.log.entries && IsRewrittenBlobKey(cfg, key)
    requires CopiedIn(c, w.objects, key, digest, ps, items) && PointersOf(c, idn, v, ps)
    ensures SafeRun(c, cfg, idn, w, steps)
    ensures Final(w, steps).objects == w.objects && Final(w, steps).acked == w.acked
    ensures Final(w, steps).logs == w.logs[v := SupersedeAll(s, key, digest, items, fates, n).log.entries]
  {
    if n == 0 {
      steps := [];
      assert w.logs == w.logs[v := w.logs[v]];
    } else {
      steps := SupersedeRun(c, cfg, idn, w, v, s, key, digest, ps, items, fates, n - 1);
      var mid, before, item := Final(w, steps), SupersedeAll(s, key, digest, items, fates, n - 1), items[n - 1];
      var r := Superseding(key, digest, item);
      var after := SupersedeOne(before, key, digest, item, fates(n - 1));
      if after.log.entries == before.log.entries {
        assert w.logs[v := after.log.entries] == mid.logs;
      } else {
        assert after.log.entries == before.log.entries + [DataRefEntry(r)] && r.Valid();
        SupersedingReady(c, cfg, idn, w.objects, v, key, digest, ps, items, n - 1);
        hide SupersedeAll, SupersedeOne, SafeRun, CopiedIn, PointersOf, Ready;
        var more := AppendRun(c, cfg, idn, mid, v, DataRefEntry(r));
        SafeConcat(c, cfg, idn, w, steps, more);
        steps := steps + more;
      }
    }
  }

  lemma {:induction false} BuiltCopied(c: Codec, objects: Objects, stored: Objects, key: Key, ps: seq<StagingPointer>,
          b: Built)
    requires Build(c, objects, ps, |ps|) == Ok(b) && key in stored && stored[key] == b.bytes
    ensures CopiedIn(c, stored, key, c.digest(b.bytes), ps, b.items)
  {
    BuildCopies(c, objects, ps, |ps|);
  }

  lemma {:induction false} LoadedCopied(c: Codec, objects: Objects, key: Key, ps: seq<StagingPointer>, l: Loaded)
    requires key in objects && Load(c, objects[key], ps, |ps|) == Ok(l)
    ensures CopiedIn(c, objects, key, c.digest(objects[key]), ps, l.items)
  {
    LoadCopies(c, objects[key], ps, |ps|);
  }

  /** A whole pass, built or resumed, is a run of the lifecycle, with bytes
      stored before pointers, whatever is refused or lost on the way. */
  lemma {:induction false} RewriteIsRun(c: Codec, cfg: RewriteConfig, idn: Identity, w: World, v: VerseKey,
          log: VerseLog, ps: seq<StagingPointer>, key0: Option<Key>, superseded: set<ChunkId>, env: nat -> Attempt,
          fates: nat -> Fate) returns (steps: seq<Step>)
    requires CollisionFree(c) && v in w.logs && w.logs[v] == log.entries && PointersOf(c, idn, v, ps)
    requires key0.Some? ==> IsRewrittenBlobKey(cfg, key0.value)
    ensures SafeRun(c, cfg, idn, w, steps)
    ensures var done := RewritePass(c, cfg, w.objects, log, ps, key0, superseded, env, fates);
            Final(w, steps).objects == done.objects && Final(w, steps).acked == w.acked &&
            Final(w, steps).logs == w.logs[v := done.log.entries]
  {
    hide Build, Load, PutOutcome, PointersOf, CollisionFree, CopiedIn, SupersedeAll;
    steps := [];
    assert w.logs == w.logs[v := w.logs[v]];
    var s := Passing(log, superseded, map[]);
    if SameVerse(ps) && key0.None? && Build(c, w.objects, ps, |ps|).Ok? {
      var b := Build(c, w.objects, ps, |ps|).value;
      var digest := c.digest(b.bytes);
      var key := RewrittenObjectKey(cfg, ps[0].verseKey, digest);
      var (stored, put) := PutOutcome(c, w.objects, key, b.bytes, digest, env, 0);
      PutOutcomeSafe(c, w.objects, key, b.bytes, env, 0);
      steps := PutRun(c, cfg, idn, w, key, b.bytes, stored);
      if put.Ok? {
        BuiltCopied(c, w.objects, stored, key, ps, b);
        hide SafeRun;
        var more := SupersedeRun(c, cfg, idn, Final(w, steps), v, s, key, digest, ps, b.items, fates, |b.items|);
        SafeConcat(c, cfg, idn, w, steps, more);
        steps := steps + more;
      }
    } else if SameVerse(ps) && key0.Some? && key0.value in w.objects && Load(c, w.objects[key0.value], ps, |ps|).Ok? {
      var l := Load(c, w.objects[key0.value], ps, |ps|).value;
      LoadedCopied(c, w.objects, key0.value, ps, l);
      hide SafeRun;
      steps := SupersedeRun(c, cfg, idn, w, v, s, key0.value, c.digest(w.objects[key0.value]), ps, l.items, fates,
          |l.items|);
    }
  }

  // Key spaces. ----------------------------------------------------------------------

  /** A staging object's key counts as rewritten exactly when the writer's prefix
      lies at or below the rewritten prefix; its digest plays no part. */
  lemma {:induction false} StagingKeyIsRewritten(cfg: RewriteConfig, prefix: string, digest: Digest)
    ensures IsRewrittenBlobKey(cfg, BlobKey(prefix, digest)) <==> IsPrefix(cfg.rewrittenPrefix + "/", prefix + "/")
  {
    var stem, key, hex := cfg.rewrittenPrefix + "/", BlobKey(prefix, digest), Hex.HexText(digest);
    assert key == (prefix + "/") + hex;
    Hex.HexTextShape(digest);
    assert forall i :: |prefix| + 1 <= i < |key| ==> key[i] == hex[i - |prefix| - 1];
    assert stem[|stem| - 1] == '/';
    assert IsPrefix(stem, key) ==> key[|stem| - 1] == stem[|stem| - 1];
    if IsPrefix(stem, key) {
      assert (prefix + "/")[..|stem|] == key[..|stem|];
    }
    if IsPrefix(stem, prefix + "/") {
      assert key[..|stem|] == (prefix + "/")[..|stem|];
    }
  }

  /** Under the default configuration no staging object is taken for a rewritten one. */
  lemma {:induction false} DefaultPrefixesAreApart(digest: Digest)
    ensures !IsRewrittenBlobKey(DEFAULT_REWRITE_CONFIG, BlobKey(DEFAULT_REWRITE_CONFIG.stagingPrefix, digest))
    ensures IsStagingBlobKey(DEFAULT_REWRITE_CONFIG, BlobKey(DEFAULT_REWRITE_CONFIG.stagingPrefix, digest))
  {
    StagingKeyIsRewritten(DEFAULT_REWRITE_CONFIG, "blobs/v1", digest);
    assert ("verses/v1" + "/")[0] == 'v' && ("blobs/v1" + "/")[0] == 'b';
  }
}
