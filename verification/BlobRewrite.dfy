/** `rewrite_verse_staging`: copy a Verse's chunks into one object, then append superseding pointers. */
module BlobRewrite {
  import opened Prelude
  import opened BlobModel
  import opened BlobStore
  import opened BlobReader
  import opened BlobScan
  import Hex

  datatype StagingPointer = StagingPointer(verseKey: VerseKey, dataRef: DataRef, firstOffset: nat)

  datatype Rewritten = Rewritten(
    chunkId: ChunkId, supersededFirstOffset: nat, offset: nat, length: nat,
    chunkDigest: Digest, recordCount: nat, writerId: WriterId)

  datatype Built = Built(bytes: Bytes, items: seq<Rewritten>)

  // Where the copy of pointer `p` stands when it starts at `offset`.
  function ItemFor(p: StagingPointer, offset: nat, writer: WriterId): Rewritten {
    Rewritten(p.dataRef.chunkId, p.firstOffset, offset, p.dataRef.length, p.dataRef.chunkDigest, p.dataRef.recordCount,
        writer)
  }

  // Building from the staging objects. ---------------------------------------

  function BuildStep(c: Codec, objects: Objects, front: Built, p: StagingPointer): Result<Built, RewriteError> {
    match FetchDataRef(c, objects, p.dataRef)
    case Err(e) => Err(Read(e))
    case Ok(bytes) =>
      match c.decode(bytes)
      case None => Err(ChunkMalformed)
      case Some(chunk) =>
        if |front.bytes| >= U64_LIMIT || |bytes| >= U64_LIMIT then Err(Invariant)
        else Ok(Built(front.bytes + bytes, front.items + [ItemFor(p, |front.bytes|, chunk.writerId)]))
  }

  function Build(c: Codec, objects: Objects, ps: seq<StagingPointer>, n: nat): Result<Built, RewriteError>
    requires n <= |ps|
  {
    if n == 0 then Ok(Built([], [])) else
      match Build(c, objects, ps, n - 1)
      case Err(e) => Err(e)
      case Ok(front) => BuildStep(c, objects, front, ps[n - 1])
  }

  lemma {:induction false} BuildFailureSticks(c: Codec, objects: Objects, ps: seq<StagingPointer>, k: nat, n: nat)
    requires k <= n <= |ps| && Build(c, objects, ps, k).Err?
    ensures Build(c, objects, ps, n) == Build(c, objects, ps, k)
  {
    if k < n { BuildFailureSticks(c, objects, ps, k, n - 1); }
  }

  method BuildRewrittenObject(c: Codec, objects: Objects, ps: seq<StagingPointer>)
    returns (r: Result<Built, RewriteError>)
    ensures r == Build(c, objects, ps, |ps|)
  {
    var blob: Bytes, items := [], [];
    for i := 0 to |ps|
      invariant Build(c, objects, ps, i) == Ok(Built(blob, items))
    {
      var fetched := FetchDataRef(c, objects, ps[i].dataRef);
      if fetched.Err? {
        BuildFailureSticks(c, objects, ps, i + 1, |ps|);
        return Err(Read(fetched.error));
      }
      var bytes := fetched.value;
      var chunk := c.decode(bytes);
      if chunk.None? {
        BuildFailureSticks(c, objects, ps, i + 1, |ps|);
        return Err(ChunkMalformed);
      }
      if |blob| >= U64_LIMIT || |bytes| >= U64_LIMIT {
        BuildFailureSticks(c, objects, ps, i + 1, |ps|);
        return Err(Invariant);
      }
      var offset := |blob|;
      blob := blob + bytes;
      items := items + [ItemFor(ps[i], offset, chunk.value.writerId)];
    }
    r := Ok(Built(blob, items));
  }

  // Recovering the layout from an object already written. ----------------------

  datatype Loaded = Loaded(items: seq<Rewritten>, offset: nat)

  function LoadStep(c: Codec, bytes: Bytes, front: Loaded, p: StagingPointer): Result<Loaded, RewriteError> {
    var end := front.offset + p.dataRef.length;
    if end >= U64_LIMIT then Err(RewriteError.Codec(RangeOverflow))
    else if end > |bytes| then Err(Invariant)
    else if p.dataRef.Fault().Some? then Err(RewriteError.Codec(p.dataRef.Fault().value))
    else if c.digest(bytes[front.offset..end]) != p.dataRef.chunkDigest
        then Err(RewriteError.Codec(ChunkDigestMismatch))
    else match c.decode(bytes[front.offset..end])
      case None => Err(ChunkMalformed)
      case Some(chunk) => Ok(Loaded(front.items + [ItemFor(p, front.offset, chunk.writerId)], end))
  }

  function Load(c: Codec, bytes: Bytes, ps: seq<StagingPointer>, n: nat): Result<Loaded, RewriteError>
    requires n <= |ps|
  {
    if n == 0 then Ok(Loaded([], 0)) else
      match Load(c, bytes, ps, n - 1)
      case Err(e) => Err(e)
      case Ok(front) => LoadStep(c, bytes, front, ps[n - 1])
  }

  lemma {:induction false} LoadFailureSticks(c: Codec, bytes: Bytes, ps: seq<StagingPointer>, k: nat, n: nat)
    requires k <= n <= |ps| && Load(c, bytes, ps, k).Err?
    ensures Load(c, bytes, ps, n) == Load(c, bytes, ps, k)
  {
    if k < n { LoadFailureSticks(c, bytes, ps, k, n - 1); }
  }

  method LoadRewrittenPlacements(c: Codec, bytes: Bytes, ps: seq<StagingPointer>)
    returns (r: Result<seq<Rewritten>, RewriteError>)
    ensures r == match Load(c, bytes, ps, |ps|) case Err(e) => Err(e) case Ok(l) => Ok(l.items)
  {
    var items, offset := [], 0;
    for i := 0 to |ps|
      invariant Load(c, bytes, ps, i) == Ok(Loaded(items, offset))
    {
      var step := LoadStep(c, bytes, Loaded(items, offset), ps[i]);
      if step.Err? {
        LoadFailureSticks(c, bytes, ps, i + 1, |ps|);
        return Err(step.error);
      }
      items, offset := step.value.items, step.value.offset;
    }
    r := Ok(items);
  }

  // The two layouts are one. ---------------------------------------------------

  // Pointers before `n` occupy [0, Extent(n)) of the rewritten object.
  function Extent(ps: seq<StagingPointer>, n: nat): nat
    requires n <= |ps|
  {
    if n == 0 then 0 else Extent(ps, n - 1) + ps[n - 1].dataRef.length
  }

  /** The object holds, at each DataRef's extent, the chunk that DataRef names. */
  ghost predicate Copies(c: Codec, bytes: Bytes, ps: seq<StagingPointer>, i: nat)
    requires i < |ps|
  {
    Extent(ps, i + 1) <= |bytes| &&
    c.digest(bytes[Extent(ps, i)..Extent(ps, i + 1)]) == ps[i].dataRef.chunkDigest &&
    c.decode(bytes[Extent(ps, i)..Extent(ps, i + 1)]).Some?
  }

  ghost predicate ItemAt(c: Codec, bytes: Bytes, ps: seq<StagingPointer>, items: seq<Rewritten>, i: nat)
    requires i < |ps| && i < |items|
  {
    Copies(c, bytes, ps, i) &&
    items[i] == ItemFor(ps[i], Extent(ps, i), c.decode(bytes[Extent(ps, i)..Extent(ps, i + 1)]).value.writerId)
  }

  lemma {:induction false} CopiesGrow(c: Codec, bytes: Bytes, more: Bytes, ps: seq<StagingPointer>,
          items: seq<Rewritten>, item: Rewritten, i: nat)
    requires i < |ps| && i < |items| && ItemAt(c, bytes, ps, items, i)
    ensures ItemAt(c, bytes + more, ps, items + [item], i)
  {
    assert (bytes + more)[Extent(ps, i)..Extent(ps, i + 1)] == bytes[Extent(ps, i)..Extent(ps, i + 1)];
  }

  /** A built object is exactly the copies of its pointers, end to end. */
  lemma {:induction false} BuildCopies(c: Codec, objects: Objects, ps: seq<StagingPointer>, n: nat)
    requires n <= |ps| && Build(c, objects, ps, n).Ok?
    ensures var b := Build(c, objects, ps, n).value;
            |b.items| == n && |b.bytes| == Extent(ps, n) && forall i :: 0 <= i < n ==>
                ItemAt(c, b.bytes, ps, b.items, i)
    ensures forall i :: 0 <= i < n ==> Backed(c, objects, ps[i].dataRef)
  {
    if n > 0 {
      BuildCopies(c, objects, ps, n - 1);
      var front, b := Build(c, objects, ps, n - 1).value, Build(c, objects, ps, n).value;
      var bytes := FetchDataRef(c, objects, ps[n - 1].dataRef).value;
      forall i | 0 <= i < n ensures ItemAt(c, b.bytes, ps, b.items, i) {
        if i < n - 1 {
          CopiesGrow(c, front.bytes, bytes, ps, front.items, b.items[n - 1], i);
        } else {
          assert b.bytes[Extent(ps, i)..Extent(ps, i + 1)] == bytes;
        }
      }
    }
  }

  lemma {:induction false} LoadCopies(c: Codec, bytes: Bytes, ps: seq<StagingPointer>, n: nat)
    requires n <= |ps| && Load(c, bytes, ps, n).Ok?
    ensures var l := Load(c, bytes, ps, n).value;
            |l.items| == n && l.offset == Extent(ps, n) && forall i :: 0 <= i < n ==> ItemAt(c, bytes, ps, l.items, i)
  {
    if n > 0 {
      LoadCopies(c, bytes, ps, n - 1);
      var front, l := Load(c, bytes, ps, n - 1).value, Load(c, bytes, ps, n).value;
      forall i | 0 <= i < n - 1 ensures ItemAt(c, bytes, ps, l.items, i) {
        assert ItemAt(c, bytes, ps, front.items, i);
      }
    }
  }

  lemma {:induction false} ExtentGrows(ps: seq<StagingPointer>, k: nat, n: nat)
    requires k <= n <= |ps|
    ensures Extent(ps, k) <= Extent(ps, n)
  {
    if k < n { ExtentGrows(ps, k, n - 1); }
  }

  lemma {:induction false} LoadsCopy(c: Codec, bytes: Bytes, ps: seq<StagingPointer>, items: seq<Rewritten>, i: nat)
    requires i < |ps| && i < |items| && ItemAt(c, bytes, ps, items, i)
    requires ps[i].dataRef.Valid() && Extent(ps, i + 1) < U64_LIMIT
    ensures LoadStep(c, bytes, Loaded(items[..i], Extent(ps, i)), ps[i]) ==
      Ok(Loaded(items[..i + 1], Extent(ps, i + 1)))
  {
    assert items[..i + 1] == items[..i] + [items[i]];
  }

  /** Resuming from the written object recovers the placements that were built. */
  lemma {:induction false} BuildThenLoad(c: Codec, objects: Objects, ps: seq<StagingPointer>, b: Built, n: nat)
    requires n <= |ps| && Build(c, objects, ps, |ps|) == Ok(b) && |b.bytes| < U64_LIMIT
    ensures |b.items| == |ps| && Load(c, b.bytes, ps, n) == Ok(Loaded(b.items[..n], Extent(ps, n)))
  {
    BuildCopies(c, objects, ps, |ps|);
    if n > 0 {
      BuildThenLoad(c, objects, ps, b, n - 1);
      ExtentGrows(ps, n, |ps|);
      assert ps[n - 1].dataRef.Valid() by { assert Backed(c, objects, ps[n - 1].dataRef); }
      hide Build, Backed, ItemAt, LoadStep;
      LoadsCopy(c, b.bytes, ps, b.items, n - 1);
    }
  }

  /** Two objects that hold copies of the same pointers agree on every copy, so
      any two successful builds, in whatever stores, give the same object. */
  lemma {:induction false} CopiesAgree(c: Codec, a: Bytes, b: Bytes, ps: seq<StagingPointer>, n: nat)
    requires CollisionFree(c) && n <= |ps|
    requires forall i :: 0 <= i < n ==> Copies(c, a, ps, i) && Copies(c, b, ps, i)
    ensures Extent(ps, n) <= |a| && Extent(ps, n) <= |b| && a[..Extent(ps, n)] == b[..Extent(ps, n)]
  {
    if n > 0 {
      CopiesAgree(c, a, b, ps, n - 1);
      var lo, hi := Extent(ps, n - 1), Extent(ps, n);
      assert Copies(c, a, ps, n - 1) && Copies(c, b, ps, n - 1);
      assert a[..hi] == a[..lo] + a[lo..hi] && b[..hi] == b[..lo] + b[lo..hi];
    }
  }

  lemma {:induction false} BuildIsDeterministic(c: Codec, objects: Objects, other: Objects, ps: seq<StagingPointer>)
    requires CollisionFree(c) && Build(c, objects, ps, |ps|).Ok? && Build(c, other, ps, |ps|).Ok?
    ensures Build(c, objects, ps, |ps|) == Build(c, other, ps, |ps|)
  {
    BuildCopies(c, objects, ps, |ps|);
    BuildCopies(c, other, ps, |ps|);
    var a, b := Build(c, objects, ps, |ps|).value, Build(c, other, ps, |ps|).value;
    hide Build, Backed, Copies, CollisionFree;
    forall i | 0 <= i < |ps| ensures Copies(c, a.bytes, ps, i) && Copies(c, b.bytes, ps, i) {
      assert ItemAt(c, a.bytes, ps, a.items, i) && ItemAt(c, b.bytes, ps, b.items, i);
    }
    CopiesAgree(c, a.bytes, b.bytes, ps, |ps|);
    assert a.bytes == a.bytes[..Extent(ps, |ps|)] && b.bytes == b.bytes[..Extent(ps, |ps|)];
    forall i | 0 <= i < |ps| ensures a.items[i] == b.items[i] {
      assert ItemAt(c, a.bytes, ps, a.items, i) && ItemAt(c, b.bytes, ps, b.items, i);
    }
    assert a.items == b.items;
  }

  // The pass. ------------------------------------------------------------------

  function TextBytes(s: string): Bytes {
    seq(|s|, i requires 0 <= i < |s| => s[i] as int % 256)
  }

  function RewrittenObjectKey(cfg: RewriteConfig, verse: VerseKey, digest: Digest): Key {
    cfg.rewrittenPrefix + "/" + Hex.HexText(TextBytes(verse)) + "/" + Hex.HexText(digest)
  }

  // The superseding pointer for one placement of the object (key, digest).
  function Superseding(key: Key, digest: Digest, item: Rewritten): DataRef {
    DataRef(key, item.offset, item.length, item.recordCount, item.chunkId, item.chunkDigest, digest)
  }

  predicate SupersedeAllowed(log: VerseLog, r: DataRef, firstOffset: nat) {
    !log.poisoned && r.Valid() && firstOffset + r.recordCount < U64_LIMIT &&
        firstOffset + r.recordCount <= log.nextOffset
  }

  /** `append_superseding_data_ref`: one more pointer, no new dense offsets. */
  function AppendSuperseding(log: VerseLog, r: DataRef, firstOffset: nat, fate: Fate)
    : (VerseLog, Result<Ack, RewriteError>)
  {
    if !SupersedeAllowed(log, r, firstOffset) then (log, Err(AppendFailed)) else
      (WriteEntry(log, DataRefEntry(r), log.nextOffset, fate),
       if fate.Delivered? then Ok(Ack(|log.entries|, r.chunkId, firstOffset, log.nextOffset, r.recordCount))
           else Err(AppendFailed))
  }

  type Outcomes = map<ChunkId, Result<Ack, RewriteError>>

  /** Where a pass stands: the Verse's log, the ids it may skip, the answers so far. */
  datatype Passing = Passing(log: VerseLog, superseded: set<ChunkId>, outcomes: Outcomes)

  function SupersedeOne(s: Passing, key: Key, digest: Digest, item: Rewritten, fate: Fate): Passing {
    if item.chunkId in s.superseded then s else
      var (log, reply) := AppendSuperseding(s.log, Superseding(key, digest, item), item.supersededFirstOffset, fate);
      Passing(log, if reply.Ok? then s.superseded + {item.chunkId} else s.superseded, s.outcomes[item.chunkId := reply])
  }

  function SupersedeAll(s: Passing, key: Key, digest: Digest, items: seq<Rewritten>, fates: nat -> Fate,
          n: nat): Passing
    requires n <= |items|
  {
    if n == 0 then s else SupersedeOne(SupersedeAll(s, key, digest, items, fates, n - 1), key, digest, items[n - 1],
        fates(n - 1))
  }

  datatype PassResult = PassResult(
    objects: Objects, log: VerseLog, key: Option<Key>, superseded: set<ChunkId>, result: Result<Outcomes, RewriteError>)

  predicate SameVerse(ps: seq<StagingPointer>) {
    ps != [] && forall i :: 0 <= i < |ps| ==> ps[i].verseKey == ps[0].verseKey
  }

  function FinishPass(objects: Objects, log: VerseLog, key: Key, digest: Digest, items: seq<Rewritten>,
          superseded: set<ChunkId>, fates: nat -> Fate): PassResult
  {
    var done := SupersedeAll(Passing(log, superseded, map[]), key, digest, items, fates, |items|);
    PassResult(objects, done.log, Some(key), done.superseded, Ok(done.outcomes))
  }

  /** What one pass does, from the progress it was handed. */
  function RewritePass(c: Codec, cfg: RewriteConfig, objects: Objects, log: VerseLog, ps: seq<StagingPointer>,
          key0: Option<Key>, superseded: set<ChunkId>, env: nat -> Attempt, fates: nat -> Fate): PassResult
  {
    if !SameVerse(ps) then PassResult(objects, log, key0, superseded, Err(Invariant))
    else match key0
      case None =>
        (match Build(c, objects, ps, |ps|)
         case Err(e) => PassResult(objects, log, None, superseded, Err(e))
         case Ok(b) =>
           var digest := c.digest(b.bytes);
           var key := RewrittenObjectKey(cfg, ps[0].verseKey, digest);
           var (stored, put) := PutOutcome(c, objects, key, b.bytes, digest, env, 0);
           if put.Err? then PassResult(stored, log, None, superseded,
               Err(if put.error.ObjectStoreError? then ObjectStoreFailed else BlobDigestDisagrees))
           else FinishPass(stored, log, key, digest, b.items, superseded, fates))
      case Some(key) =>
        if key !in objects then PassResult(objects, log, key0, superseded, Err(ObjectStoreFailed))
        else match Load(c, objects[key], ps, |ps|)
          case Err(e) => PassResult(objects, log, key0, superseded, Err(e))
          case Ok(l) => FinishPass(objects, log, key, c.digest(objects[key]), l.items, superseded, fates)
  }

  /** Progress kept across interrupted passes. */
  class RewriteProgress {
    var rewrittenBlobKey: Option<Key>
    var superseded: set<ChunkId>

    constructor ()
      ensures rewrittenBlobKey == None && superseded == {}
    {
      rewrittenBlobKey, superseded := None, {};
    }
  }

  /** One pass over the Verse's log `target`, updating store, log and progress in place. */
  method RewriteVerseStaging(d: Deployment, c: Codec, cfg: RewriteConfig, ps: seq<StagingPointer>,
          progress: RewriteProgress, target: VerseKey, env: nat -> Attempt, fates: nat -> Fate)
    returns (r: Result<Outcomes, RewriteError>)
    requires target in d.logs
    modifies d, progress
    ensures d.logs.Keys == old(d.logs).Keys && forall v :: v in d.logs && v != target ==> d.logs[v] == old(d.logs)[v]
    ensures PassResult(d.objects, d.logs[target], progress.rewrittenBlobKey, progress.superseded, r) ==
            RewritePass(c, cfg, old(d.objects), old(d.logs)[target], ps, old(progress.rewrittenBlobKey),
                old(progress.superseded), env, fates)
  {
    if !SameVerse(ps) {
      return Err(Invariant);
    }
    var items, digest;
    if progress.rewrittenBlobKey.None? {
      var built := BuildRewrittenObject(c, d.objects, ps);
      if built.Err? {
        return Err(built.error);
      }
      items, digest := built.value.items, c.digest(built.value.bytes);
      var key := RewrittenObjectKey(cfg, ps[0].verseKey, digest);
      var put := d.PutAndVerify(c, key, built.value.bytes, digest, env);
      if put.Err? {
        return Err(if put.error.ObjectStoreError? then ObjectStoreFailed else BlobDigestDisagrees);
      }
      progress.rewrittenBlobKey := Some(key);
    } else {
      var key := progress.rewrittenBlobKey.value;
      if key !in d.objects {
        return Err(ObjectStoreFailed);
      }
      var loaded := LoadRewrittenPlacements(c, d.objects[key], ps);
      if loaded.Err? {
        return Err(loaded.error);
      }
      items, digest := loaded.value, c.digest(d.objects[key]);
    }
    var outcomes := SupersedeEach(d, progress, target, progress.rewrittenBlobKey.value, digest, items, fates);
    r := Ok(outcomes);
  }

  /** The pass's append loop. */
  method SupersedeEach(d: Deployment, progress: RewriteProgress, target: VerseKey, key: Key, digest: Digest,
          items: seq<Rewritten>, fates: nat -> Fate)
    returns (outcomes: Outcomes)
    requires target in d.logs
    modifies d`logs, progress`superseded
    ensures d.logs.Keys == old(d.logs).Keys && forall v :: v in d.logs && v != target ==> d.logs[v] == old(d.logs)[v]
    ensures Passing(d.logs[target], progress.superseded, outcomes) ==
            SupersedeAll(Passing(old(d.logs)[target], old(progress.superseded), map[]), key, digest, items, fates,
                |items|)
  {
    outcomes := map[];
    for i := 0 to |items|
      invariant d.logs.Keys == old(d.logs).Keys && forall v :: v in d.logs && v != target ==>
        d.logs[v] == old(d.logs)[v]
      invariant Passing(d.logs[target], progress.superseded, outcomes) ==
                SupersedeAll(Passing(old(d.logs)[target], old(progress.superseded), map[]), key, digest, items, fates,
                    i)
    {
      var item := items[i];
      if item.chunkId !in progress.superseded {
        var (log, reply) := AppendSuperseding(d.logs[target], Superseding(key, digest, item),
            item.supersededFirstOffset, fates(i));
        d.logs := d.logs[target := log];
        if reply.Ok? {
          progress.superseded := progress.superseded + {item.chunkId};
        }
        outcomes := outcomes[item.chunkId := reply];
      }
    }
  }
}
