/** The two-format lifecycle as a state machine: any interleaving of commits,
    rewrites, readers and a collector over one object store and many Verse logs. */
module Lifecycle {
  import opened Prelude
  import opened BlobModel
  import opened BlobReader
  import opened BlobScan
  import opened BlobCollect

  /** What a ChunkId stands for, across every sealing of it: its Verse and its records. */
  datatype Identity = Identity(owner: ChunkId -> VerseKey, records: ChunkId -> seq<Record>)

  /** The store, the logs, the pointers some writer has verified, and the chunks acknowledged. */
  datatype World = World(objects: Objects, logs: LogFamily, verified: set<DataRef>, acked: set<(VerseKey, ChunkId)>)

  function LogOf(w: World, v: VerseKey): seq<LogPayload> {
    if v in w.logs then w.logs[v] else []
  }

  datatype Step =
    | Put(key: Key, bytes: Bytes)
    | Verify(dataRef: DataRef)
    | AppendRefs(verse: VerseKey, payload: LogPayload)
    | AppendInline(verse: VerseKey, bytes: Bytes)
    | Acknowledge(verse: VerseKey, chunkId: ChunkId)
    | Collect(key: Key, verses: set<VerseKey>)

  // Sealed bytes of chunk `id`, whoever sealed them.
  ghost predicate SealedAs(c: Codec, idn: Identity, bytes: Bytes, id: ChunkId) {
    c.decode(bytes).Some? && c.decode(bytes).value.chunkId == id && RecordsOf(c.decode(bytes).value) == idn.records(id)
  }

  // `bytes` is what the pointer's chunk digest was taken of.
  ghost predicate IsCopy(c: Codec, idn: Identity, r: DataRef, bytes: Bytes) {
    c.digest(bytes) == r.chunkDigest && |bytes| == r.length && SealedAs(c, idn, bytes, r.chunkId)
  }

  ghost predicate Genuine(c: Codec, idn: Identity, r: DataRef) {
    exists bytes :: IsCopy(c, idn, r, bytes)
  }

  // Both digests match, and a staging pointer lies on a chunk boundary of its object.
  ghost predicate Standing(c: Codec, cfg: RewriteConfig, objects: Objects, r: DataRef) {
    Backed(c, objects, r) && (IsRewrittenBlobKey(cfg, r.blobKey) || Located(c, objects[r.blobKey], r))
  }

  // The collector's question: the membership read off the object is inside the ids that
  // the logs of some Verses show as superseded.
  ghost predicate SaysYes(c: Codec, cfg: RewriteConfig, w: World, key: Key, verses: set<VerseKey>) {
    && key in w.objects && TilesFrom(c, w.objects[key], 0).Some?
    && StagingBlobCollectable(StagingBlobContents(key, TileIds(TilesFrom(c, w.objects[key], 0).value)),
         SupersededAcross(cfg, w.logs, verses))
  }

  // An object may go only if it is not a rewritten one and its whole membership is superseded.
  ghost predicate MayCollect(c: Codec, cfg: RewriteConfig, w: World, key: Key, verses: set<VerseKey>) {
    !IsRewrittenBlobKey(cfg, key) && SaysYes(c, cfg, w, key, verses)
  }

  ghost predicate Enabled(c: Codec, cfg: RewriteConfig, idn: Identity, w: World, s: Step) {
    match s
    case Put(key, _) => key !in w.objects
    case Verify(r) => Standing(c, cfg, w.objects, r) && Genuine(c, idn, r)
    case AppendRefs(v, p) =>
      v in w.logs && (p.DataRefEntry? || p.ReferenceBatch?) &&
      forall r :: r in PayloadRefs(p) ==> r in w.verified && idn.owner(r.chunkId) == v
    case AppendInline(v, bytes) =>
      v in w.logs && c.decode(bytes).Some? &&
      SealedAs(c, idn, bytes, c.decode(bytes).value.chunkId) && idn.owner(c.decode(bytes).value.chunkId) == v
    case Acknowledge(v, id) => v in w.logs && Candidates(c, w.logs[v]).Ok? &&
        Mentions(Candidates(c, w.logs[v]).value, id)
    case Collect(key, verses) => MayCollect(c, cfg, w, key, verses)
  }

  function Apply(w: World, s: Step): World {
    match s
    case Put(key, bytes) => w.(objects := w.objects[key := bytes])
    case Verify(r) => w.(verified := w.verified + {r})
    case AppendRefs(v, p) => w.(logs := w.logs[v := LogOf(w, v) + [p]])
    case AppendInline(v, bytes) => w.(logs := w.logs[v := LogOf(w, v) + [InlineChunk(bytes)]])
    case Acknowledge(v, id) => w.(acked := w.acked + {(v, id)})
    case Collect(key, _) => w.(objects := w.objects - {key})
  }

  // The invariant. -----------------------------------------------------------------

  // A pointer is either good in the store, or a staging pointer that no reader will choose.
  ghost predicate Kept(c: Codec, cfg: RewriteConfig, w: World, r: DataRef, v: VerseKey) {
    Standing(c, cfg, w.objects, r) || (!IsRewrittenBlobKey(cfg, r.blobKey) &&
        r.chunkId in SupersededIds(cfg, LogOf(w, v)))
  }

  ghost predicate GoodRef(c: Codec, cfg: RewriteConfig, idn: Identity, w: World, r: DataRef) {
    Genuine(c, idn, r) && Kept(c, cfg, w, r, idn.owner(r.chunkId))
  }

  ghost predicate GoodInline(c: Codec, idn: Identity, v: VerseKey, p: LogPayload) {
    !p.Undecodable? &&
    (p.InlineChunk? ==>
        c.decode(p.bytes).Some? && SealedAs(c, idn, p.bytes, c.decode(p.bytes).value.chunkId) &&
        idn.owner(c.decode(p.bytes).value.chunkId) == v)
  }

  ghost predicate GoodLog(c: Codec, cfg: RewriteConfig, idn: Identity, w: World, v: VerseKey) {
    (forall i :: 0 <= i < |LogOf(w, v)| ==> GoodInline(c, idn, v, LogOf(w, v)[i])) &&
    (forall r :: r in LogRefs(LogOf(w, v)) ==> GoodRef(c, cfg, idn, w, r) && idn.owner(r.chunkId) == v)
  }

  ghost predicate Acked(c: Codec, w: World, v: VerseKey, id: ChunkId) {
    v in w.logs && Candidates(c, w.logs[v]).Ok? && Mentions(Candidates(c, w.logs[v]).value, id)
  }

  ghost predicate Inv(c: Codec, cfg: RewriteConfig, idn: Identity, w: World) {
    (forall v :: v in w.logs ==> GoodLog(c, cfg, idn, w, v)) &&
    (forall r :: r in w.verified ==> GoodRef(c, cfg, idn, w, r)) &&
    (forall v, id :: (v, id) in w.acked ==> Acked(c, w, v, id))
  }

  lemma {:induction false} PutKeeps(c: Codec, cfg: RewriteConfig, w: World, key: Key, bytes: Bytes, r: DataRef,
          v: VerseKey)
    requires key !in w.objects && Kept(c, cfg, w, r, v)
    ensures Kept(c, cfg, Apply(w, Put(key, bytes)), r, v)
  {
  }

  lemma {:induction false} SupersededGrows(cfg: RewriteConfig, log: seq<LogPayload>, p: LogPayload)
    ensures SupersededIds(cfg, log) <= SupersededIds(cfg, log + [p])
    ensures LogRefs(log + [p]) == LogRefs(log) + PayloadRefs(p)
  {
    assert (log + [p])[..|log|] == log;
  }

  lemma {:induction false} AppendKeeps(c: Codec, cfg: RewriteConfig, w: World, v: VerseKey, p: LogPayload, r: DataRef,
          u: VerseKey)
    requires Kept(c, cfg, w, r, u)
    ensures Kept(c, cfg, w.(logs := w.logs[v := LogOf(w, v) + [p]]), r, u)
  {
    SupersededGrows(cfg, LogOf(w, v), p);
  }

  lemma {:induction false} CollectKeeps(c: Codec, cfg: RewriteConfig, idn: Identity, w: World, key: Key,
          verses: set<VerseKey>, r: DataRef)
    requires Inv(c, cfg, idn, w) && MayCollect(c, cfg, w, key, verses)
    requires Kept(c, cfg, w, r, idn.owner(r.chunkId))
    ensures Kept(c, cfg, Apply(w, Collect(key, verses)), r, idn.owner(r.chunkId))
  {
    if Standing(c, cfg, w.objects, r) && r.blobKey == key {
      var tiles := TilesFrom(c, w.objects[key], 0).value;
      assert Tile(r.offset, r.length, r.chunkId) in tiles;
      assert r.chunkId in TileIds(tiles);
      var v, s :| v in verses && v in w.logs && s in LogRefs(w.logs[v]) && IsRewrittenBlobKey(cfg, s.blobKey) &&
          s.chunkId == r.chunkId;
      assert GoodLog(c, cfg, idn, w, v);
      assert idn.owner(r.chunkId) == v;
    }
  }

  // Good pointers make good logs.
  lemma {:induction false} GoodLogMoves(c: Codec, cfg: RewriteConfig, idn: Identity, w: World, w': World, v: VerseKey)
    requires GoodLog(c, cfg, idn, w, v) && LogOf(w', v) == LogOf(w, v)
    requires forall r :: GoodRef(c, cfg, idn, w, r) ==> GoodRef(c, cfg, idn, w', r)
    ensures GoodLog(c, cfg, idn, w', v)
  {
    hide GoodRef, GoodInline;
    forall r | r in LogRefs(LogOf(w', v)) ensures GoodRef(c, cfg, idn, w', r) { assert GoodRef(c, cfg, idn, w, r); }
  }

  lemma {:induction false} GoodLogGrows(c: Codec, cfg: RewriteConfig, idn: Identity, w: World, w': World, v: VerseKey,
          p: LogPayload)
    requires GoodLog(c, cfg, idn, w, v) && LogOf(w', v) == LogOf(w, v) + [p] && GoodInline(c, idn, v, p)
    requires forall r :: GoodRef(c, cfg, idn, w, r) ==> GoodRef(c, cfg, idn, w', r)
    requires forall r :: r in PayloadRefs(p) ==> GoodRef(c, cfg, idn, w, r) && idn.owner(r.chunkId) == v
    ensures GoodLog(c, cfg, idn, w', v)
  {
    SupersededGrows(cfg, LogOf(w, v), p);
    hide GoodRef, GoodInline;
    forall r | r in LogRefs(LogOf(w', v)) ensures GoodRef(c, cfg, idn, w', r) && idn.owner(r.chunkId) == v {
      assert r in LogRefs(LogOf(w, v)) || r in PayloadRefs(p);
    }
  }

  lemma {:induction false} AppendedRefs(c: Codec, cfg: RewriteConfig, idn: Identity, w: World, v: VerseKey,
          p: LogPayload)
    requires Inv(c, cfg, idn, w) && v in w.logs && GoodInline(c, idn, v, p)
    requires forall r :: r in PayloadRefs(p) ==> r in w.verified && idn.owner(r.chunkId) == v
    ensures Inv(c, cfg, idn, w.(logs := w.logs[v := w.logs[v] + [p]]))
  {
    var w' := w.(logs := w.logs[v := w.logs[v] + [p]]);
    SupersededGrows(cfg, w.logs[v], p);
    forall r | GoodRef(c, cfg, idn, w, r) ensures GoodRef(c, cfg, idn, w', r) {
      AppendKeeps(c, cfg, w, v, p, r, idn.owner(r.chunkId));
    }
    forall u | u in w'.logs ensures GoodLog(c, cfg, idn, w', u) {
      if u == v { GoodLogGrows(c, cfg, idn, w, w', v, p); } else { GoodLogMoves(c, cfg, idn, w, w', u); }
    }
    forall u, id | (u, id) in w'.acked ensures Acked(c, w', u, id) {
      assert Acked(c, w, u, id);
      if u == v { MentionsGrow(c, w.logs[v], p, id, idn); }
    }
  }

  lemma {:induction false} MentionsGrow(c: Codec, log: seq<LogPayload>, p: LogPayload, id: ChunkId, idn: Identity)
    requires Candidates(c, log).Ok? && Mentions(Candidates(c, log).value, id) && PayloadEntries(c, p).Ok?
    ensures Candidates(c, log + [p]).Ok? && Mentions(Candidates(c, log + [p]).value, id)
  {
    assert (log + [p])[..|log|] == log;
    var front := Candidates(c, log).value;
    var i :| 0 <= i < |front| && front[i].Id() == id;
    assert Candidates(c, log + [p]).value[i] == front[i];
  }

  /** Every enabled step keeps the invariant. */
  lemma {:induction false} StepKeepsInv(c: Codec, cfg: RewriteConfig, idn: Identity, w: World, s: Step)
    requires Inv(c, cfg, idn, w) && Enabled(c, cfg, idn, w, s)
    ensures Inv(c, cfg, idn, Apply(w, s))
  {
    match s {
      case AppendRefs(v, p) => AppendedRefs(c, cfg, idn, w, v, p);
      case AppendInline(v, bytes) => AppendedRefs(c, cfg, idn, w, v, InlineChunk(bytes));
      case Put(key, bytes) => PutKeepsInv(c, cfg, idn, w, key, bytes);
      case Verify(r) => VerifyKeepsInv(c, cfg, idn, w, r);
      case Acknowledge(v, id) => SameStoreKeepsInv(c, cfg, idn, w, Apply(w, s));
      case Collect(key, verses) => CollectKeepsInv(c, cfg, idn, w, key, verses);
    }
  }

  lemma {:induction false} SameStoreKeepsInv(c: Codec, cfg: RewriteConfig, idn: Identity, w: World, w': World)
    requires Inv(c, cfg, idn, w) && w'.objects == w.objects && w'.logs == w.logs && w'.verified == w.verified
    requires forall v, id :: (v, id) in w'.acked ==> Acked(c, w', v, id)
    ensures Inv(c, cfg, idn, w')
  {
    forall r | GoodRef(c, cfg, idn, w, r) ensures GoodRef(c, cfg, idn, w', r) { }
    forall v | v in w'.logs ensures GoodLog(c, cfg, idn, w', v) { GoodLogMoves(c, cfg, idn, w, w', v); }
  }

  lemma {:induction false} VerifyKeepsInv(c: Codec, cfg: RewriteConfig, idn: Identity, w: World, r: DataRef)
    requires Inv(c, cfg, idn, w) && Standing(c, cfg, w.objects, r) && Genuine(c, idn, r)
    ensures Inv(c, cfg, idn, Apply(w, Verify(r)))
  {
    var w' := Apply(w, Verify(r));
    forall s | GoodRef(c, cfg, idn, w, s) ensures GoodRef(c, cfg, idn, w', s) { }
    forall v | v in w'.logs ensures GoodLog(c, cfg, idn, w', v) { GoodLogMoves(c, cfg, idn, w, w', v); }
    forall v, id | (v, id) in w'.acked ensures Acked(c, w', v, id) { assert Acked(c, w, v, id); }
  }

  lemma {:induction false} PutKeepsInv(c: Codec, cfg: RewriteConfig, idn: Identity, w: World, key: Key, bytes: Bytes)
    requires Inv(c, cfg, idn, w) && key !in w.objects
    ensures Inv(c, cfg, idn, Apply(w, Put(key, bytes)))
  {
    var w' := Apply(w, Put(key, bytes));
    forall r | GoodRef(c, cfg, idn, w, r) ensures GoodRef(c, cfg, idn, w', r) {
      PutKeeps(c, cfg, w, key, bytes, r, idn.owner(r.chunkId));
    }
    forall v | v in w'.logs ensures GoodLog(c, cfg, idn, w', v) { GoodLogMoves(c, cfg, idn, w, w', v); }
    forall v, id | (v, id) in w'.acked ensures Acked(c, w', v, id) { assert Acked(c, w, v, id); }
  }

  lemma {:induction false} CollectKeepsInv(c: Codec, cfg: RewriteConfig, idn: Identity, w: World, key: Key,
          verses: set<VerseKey>)
    requires Inv(c, cfg, idn, w) && MayCollect(c, cfg, w, key, verses)
    ensures Inv(c, cfg, idn, Apply(w, Collect(key, verses)))
  {
    var w' := Apply(w, Collect(key, verses));
    forall r | GoodRef(c, cfg, idn, w, r) ensures GoodRef(c, cfg, idn, w', r) {
      CollectKeeps(c, cfg, idn, w, key, verses, r);
    }
    forall v | v in w'.logs ensures GoodLog(c, cfg, idn, w', v) { GoodLogMoves(c, cfg, idn, w, w', v); }
    forall v, id | (v, id) in w'.acked ensures Acked(c, w', v, id) { assert Acked(c, w, v, id); }
  }
}
