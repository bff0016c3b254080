/** When a shared staging object may be deleted, and why that is safe. */
module BlobCollect {
  import opened Prelude
  import opened BlobModel
  import opened BlobScan
  import opened ScanTheorems
  import opened CommitPlan

  // Superseded ids. ------------------------------------------------------------

  // ChunkIds that have a rewritten pointer in the log.
  function SupersededIds(cfg: RewriteConfig, log: seq<LogPayload>): set<ChunkId> {
    set r | r in LogRefs(log) && IsRewrittenBlobKey(cfg, r.blobKey) :: r.chunkId
  }

  function FirstUndecodable(log: seq<LogPayload>, n: nat): Option<DataRefError>
    requires n <= |log|
  {
    if n == 0 then None
    else if FirstUndecodable(log, n - 1).Some? then FirstUndecodable(log, n - 1)
    else if log[n - 1].Undecodable? then Some(log[n - 1].error)
    else None
  }

  lemma {:induction false} UndecodableSticks(log: seq<LogPayload>, k: nat, n: nat)
    requires k <= n <= |log| && FirstUndecodable(log, k).Some?
    ensures FirstUndecodable(log, n) == FirstUndecodable(log, k)
  {
    if k < n { UndecodableSticks(log, k, n - 1); }
  }

  // The error is that of the first unreadable entry, if there is one.
  lemma {:induction false} FirstUndecodableIs(log: seq<LogPayload>, n: nat)
    requires n <= |log|
    ensures FirstUndecodable(log, n).None? <==> forall i :: 0 <= i < n ==> !log[i].Undecodable?
    ensures FirstUndecodable(log, n).Some? ==>
      exists i :: 0 <= i < n && log[i] == Undecodable(FirstUndecodable(log, n).value) &&
        forall j :: 0 <= j < i ==> !log[j].Undecodable?
  {
    if n > 0 { FirstUndecodableIs(log, n - 1); }
  }

  /** `superseded_chunk_ids`: inline chunks are not even decoded, an unreadable entry fails the whole. */
  method SupersededChunkIds(cfg: RewriteConfig, log: seq<LogPayload>) returns (r: Result<set<ChunkId>, DataRefError>)
    ensures r.Err? ==> FirstUndecodable(log, |log|) == Some(r.error)
    ensures r.Ok? ==> FirstUndecodable(log, |log|).None? && r.value == SupersededIds(cfg, log)
    ensures r.Ok? <==> forall i :: 0 <= i < |log| ==> !log[i].Undecodable?
  {
    FirstUndecodableIs(log, |log|);
    var superseded: set<ChunkId> := {};
    for i := 0 to |log|
      invariant FirstUndecodable(log, i).None? && superseded == SupersededIds(cfg, log[..i])
    {
      if log[i].Undecodable? {
        UndecodableSticks(log, i + 1, |log|);
        return Err(log[i].error);
      }
      assert log[..i + 1][..i] == log[..i];
      ghost var before := superseded;
      var refs := PayloadRefs(log[i]);
      for k := 0 to |refs|
        invariant superseded == before + set r | r in refs[..k] && IsRewrittenBlobKey(cfg, r.blobKey) :: r.chunkId
      {
        assert refs[..k + 1] == refs[..k] + [refs[k]];
        if IsRewrittenBlobKey(cfg, refs[k].blobKey) {
          superseded := superseded + {refs[k].chunkId};
        }
      }
      assert refs[..|refs|] == refs;
    }
    assert log[..|log|] == log;
    r := Ok(superseded);
  }

  // Membership. ----------------------------------------------------------------

  /** One sealed chunk found by walking an object: where it lies and its id. */
  datatype Tile = Tile(offset: nat, length: nat, id: ChunkId)

  // The walk of `scan_sealed_chunk_ids` from `offset` on; None when it meets bytes that are no chunk.
  function TilesFrom(c: Codec, bytes: Bytes, offset: nat): Option<seq<Tile>>
    requires offset <= |bytes|
    decreases |bytes| - offset
  {
    if offset == |bytes| then Some([]) else
      match c.nextLen(bytes[offset..])
      case None => None
      case Some(n) =>
        if n == 0 || offset + n > |bytes| then None
        else match c.decode(bytes[offset..offset + n])
          case None => None
          case Some(chunk) =>
            match TilesFrom(c, bytes, offset + n)
            case None => None
            case Some(rest) => Some([Tile(offset, n, chunk.chunkId)] + rest)
  }

  datatype StagingBlobContents = StagingBlobContents(blobKey: Key, chunkIds: set<ChunkId>)

  function TileIds(tiles: seq<Tile>): set<ChunkId> {
    set t | t in tiles :: t.id
  }

  /** `staging_blob_contents_from_bytes`: membership read off the object itself. */
  method StagingBlobContentsFromBytes(c: Codec, key: Key, bytes: Bytes) returns (r: Option<StagingBlobContents>)
    ensures r.None? <==> TilesFrom(c, bytes, 0).None? || bytes == []
    ensures r.Some? ==>
      r.value == StagingBlobContents(key, TileIds(TilesFrom(c, bytes, 0).value)) && r.value.chunkIds != {}
  {
    var ids: set<ChunkId>, offset := {}, 0;
    ghost var seen: seq<Tile> := [];
    assert forall rest: seq<Tile> :: seen + rest == rest;
    while offset < |bytes|
      invariant offset <= |bytes| && ids == TileIds(seen) && (seen == [] <==> offset == 0)
      invariant TilesFrom(c, bytes, 0) == match TilesFrom(c, bytes, offset) case None => None case Some(rest) =>
        Some(seen + rest)
    {
      var next := c.nextLen(bytes[offset..]);
      if next.None? || next.value == 0 || offset + next.value > |bytes| {
        return None;
      }
      var chunk := c.decode(bytes[offset..offset + next.value]);
      if chunk.None? {
        return None;
      }
      ghost var tile := Tile(offset, next.value, chunk.value.chunkId);
      TileIdsSnoc(seen, tile);
      assert forall rest :: (seen + [tile]) + rest == seen + ([tile] + rest);
      seen := seen + [tile];
      ids := ids + {chunk.value.chunkId};
      offset := offset + next.value;
    }
    assert seen + [] == seen;
    if bytes == [] {
      return None;
    }
    assert seen[0].id in ids;
    r := Some(StagingBlobContents(key, ids));
  }

  lemma {:induction false} TileIdsSnoc(tiles: seq<Tile>, t: Tile)
    ensures TileIds(tiles + [t]) == TileIds(tiles) + {t.id}
  {
    assert forall u :: u in tiles + [t] <==> u in tiles || u == t;
  }

  /** True only when the object carries something and all of it is superseded. */
  predicate StagingBlobCollectable(contents: StagingBlobContents, superseded: set<ChunkId>) {
    contents.chunkIds != {} && forall id :: id in contents.chunkIds ==> id in superseded
  }

  // The walk over an object recovers the placements that made it. -----------------

  ghost predicate SealedChunks(c: Codec, ps: seq<Placement>) {
    forall i :: 0 <= i < |ps| ==>
        c.decode(ps[i].sealed.bytes).Some? && c.decode(ps[i].sealed.bytes).value.chunkId == ps[i].sealed.chunkId
  }

  ghost function PlacementTiles(ps: seq<Placement>, i: nat): seq<Tile>
    requires i <= |ps|
    decreases |ps| - i
  {
    if i == |ps| then [] else [Tile(ps[i].offset, ps[i].length, ps[i].sealed.chunkId)] + PlacementTiles(ps, i + 1)
  }

  lemma {:induction false} WalkFindsPlacements(c: Codec, bytes: Bytes, ps: seq<Placement>, i: nat)
    requires SelfDelimiting(c) && Tiles(bytes, ps) && SealedChunks(c, ps) && i < |ps|
    ensures ps[i].offset <= |bytes| && TilesFrom(c, bytes, ps[i].offset) == Some(PlacementTiles(ps, i))
    decreases |ps| - i
  {
    var p := ps[i];
    assert HoldsBytes(bytes, p);
    var end := p.offset + p.length;
    assert bytes[p.offset..] == p.sealed.bytes + bytes[end..];
    assert c.decode(p.sealed.bytes).Some?;
    assert c.nextLen(p.sealed.bytes + bytes[end..]) == Some(p.length);
    if i + 1 < |ps| {
      assert Abuts(ps, i + 1);
      WalkFindsPlacements(c, bytes, ps, i + 1);
    } else {
      assert TilesFrom(c, bytes, |bytes|) == Some([]);
    }
  }

  lemma {:induction false} PlacementTileAt(ps: seq<Placement>, i: nat, k: nat)
    requires i <= k < |ps|
    ensures Tile(ps[k].offset, ps[k].length, ps[k].sealed.chunkId) in PlacementTiles(ps, i)
    decreases |ps| - i
  {
    if i < k { PlacementTileAt(ps, i + 1, k); }
  }

  // The pointer's range is one of the chunks the walk finds.
  ghost predicate Located(c: Codec, bytes: Bytes, r: DataRef) {
    TilesFrom(c, bytes, 0).Some? && Tile(r.offset, r.length, r.chunkId) in TilesFrom(c, bytes, 0).value
  }

  /** Membership scanned from a staging object lists exactly the chunks placed in it. */
  lemma {:induction false} WalkIsLayout(c: Codec, bytes: Bytes, ps: seq<Placement>)
    requires SelfDelimiting(c) && Tiles(bytes, ps) && SealedChunks(c, ps) && ps != []
    ensures TilesFrom(c, bytes, 0) == Some(PlacementTiles(ps, 0))
    ensures forall k :: 0 <= k < |ps| ==>
      Tile(ps[k].offset, ps[k].length, ps[k].sealed.chunkId) in PlacementTiles(ps, 0)
  {
    WalkFindsPlacements(c, bytes, ps, 0);
    forall k | 0 <= k < |ps| ensures Tile(ps[k].offset, ps[k].length, ps[k].sealed.chunkId) in PlacementTiles(ps, 0) {
      PlacementTileAt(ps, 0, k);
    }
  }

  // The bytes at the tile announce its length and are a chunk of its id.
  ghost predicate IsChunkAt(c: Codec, bytes: Bytes, t: Tile) {
    && 0 < t.length && t.offset + t.length <= |bytes| && c.nextLen(bytes[t.offset..]) == Some(t.length)
    && c.decode(bytes[t.offset..t.offset + t.length]).Some?
    && c.decode(bytes[t.offset..t.offset + t.length]).value.chunkId == t.id
  }

  // The tiles lie end to end from `offset` to the end of the object.
  ghost predicate CoversFrom(bytes: Bytes, offset: nat, tiles: seq<Tile>) {
    if tiles == [] then offset == |bytes| else
      && tiles[0].offset == offset && tiles[|tiles| - 1].offset + tiles[|tiles| - 1].length == |bytes|
      && forall i :: 0 < i < |tiles| ==> Follows(tiles, i)
  }

  ghost predicate Follows(tiles: seq<Tile>, i: nat)
    requires 0 < i < |tiles|
  {
    tiles[i].offset == tiles[i - 1].offset + tiles[i - 1].length
  }

  ghost predicate AllChunks(c: Codec, bytes: Bytes, tiles: seq<Tile>) {
    forall i :: 0 <= i < |tiles| ==> IsChunkAt(c, bytes, tiles[i])
  }

  lemma {:induction false} CoversTail(bytes: Bytes, tiles: seq<Tile>)
    requires tiles != []
    ensures CoversFrom(bytes, tiles[0].offset, tiles) <==>
      CoversFrom(bytes, tiles[0].offset + tiles[0].length, tiles[1..])
  {
    var rest := tiles[1..];
    if rest != [] {
      if CoversFrom(bytes, tiles[0].offset, tiles) {
        assert Follows(tiles, 1);
        forall i | 0 < i < |rest| ensures Follows(rest, i) { assert Follows(tiles, i + 1); }
      }
      if CoversFrom(bytes, tiles[0].offset + tiles[0].length, rest) {
        forall i | 0 < i < |tiles| ensures Follows(tiles, i) { if i > 1 { assert Follows(rest, i - 1); } }
      }
    }
  }

  /** The walk succeeds exactly when the object is nothing but chunks, end to end, and it then
      lists exactly those: bytes that are no chunk anywhere fail the whole. */
  lemma {:induction false} WalkExactly(c: Codec, bytes: Bytes, offset: nat, tiles: seq<Tile>)
    requires offset <= |bytes|
    ensures TilesFrom(c, bytes, offset) == Some(tiles) <==>
      CoversFrom(bytes, offset, tiles) && AllChunks(c, bytes, tiles)
    decreases |bytes| - offset
  {
    hide CoversFrom;
    if tiles == [] {
      NoTiles(bytes, offset);
    } else {
      var t, rest := tiles[0], tiles[1..];
      CoversTail(bytes, tiles);
      TilesStart(bytes, offset, tiles);
      HeadTail(tiles);
      assert AllChunks(c, bytes, tiles) <==> IsChunkAt(c, bytes, t) && AllChunks(c, bytes, rest) by {
        ChunksTail(c, bytes, tiles);
      }
      hide AllChunks;
      if IsChunkAt(c, bytes, t) && t.offset == offset { WalkExactly(c, bytes, offset + t.length, rest); }
      if TilesFrom(c, bytes, offset) == Some(tiles) { WalkStep(c, bytes, offset, tiles); }
    }
  }

  lemma {:induction false} WalkStep(c: Codec, bytes: Bytes, offset: nat, tiles: seq<Tile>)
    requires offset <= |bytes| && tiles != [] && TilesFrom(c, bytes, offset) == Some(tiles)
    ensures tiles[0].offset == offset && IsChunkAt(c, bytes, tiles[0])
    ensures TilesFrom(c, bytes, offset + tiles[0].length) == Some(tiles[1..])
  {
    var n := c.nextLen(bytes[offset..]).value;
    var rest := TilesFrom(c, bytes, offset + n).value;
    assert ([tiles[0]] + rest)[1..] == rest;
  }

  lemma {:induction false} NoTiles(bytes: Bytes, offset: nat)
    ensures CoversFrom(bytes, offset, []) <==> offset == |bytes|
  {
  }

  lemma {:induction false} TilesStart(bytes: Bytes, offset: nat, tiles: seq<Tile>)
    requires tiles != []
    ensures CoversFrom(bytes, offset, tiles) ==> tiles[0].offset == offset
  {
  }

  lemma {:induction false} ChunksTail(c: Codec, bytes: Bytes, tiles: seq<Tile>)
    requires tiles != []
    ensures AllChunks(c, bytes, tiles) <==> IsChunkAt(c, bytes, tiles[0]) && AllChunks(c, bytes, tiles[1..])
  {
    hide IsChunkAt;
    if IsChunkAt(c, bytes, tiles[0]) && AllChunks(c, bytes, tiles[1..]) {
      forall i | 0 <= i < |tiles| ensures IsChunkAt(c, bytes, tiles[i]) {
        if i > 0 { assert IsChunkAt(c, bytes, tiles[1..][i - 1]); }
      }
    }
  }

  // Removing an object. ----------------------------------------------------------

  lemma {:induction false} CandidateRefs(c: Codec, log: seq<LogPayload>, r: DataRef)
    requires Candidates(c, log).Ok?
    ensures Ref(r) in Candidates(c, log).value <==> r in LogRefs(log)
  {
    if log != [] {
      var n := |log| - 1;
      CandidateRefs(c, log[..n], r);
      RefEntriesAt(PayloadRefs(log[n]));
      var back := PayloadEntries(c, log[n]).value;
      assert Ref(r) in back <==> r in PayloadRefs(log[n]) by {
        if log[n].ReferenceBatch? && r in PayloadRefs(log[n]) {
          var i :| 0 <= i < |PayloadRefs(log[n])| && PayloadRefs(log[n])[i] == r;
          assert back[i] == Ref(r);
        }
      }
    }
  }

  lemma {:induction false} SupersededHasRewritten(c: Codec, cfg: RewriteConfig, log: seq<LogPayload>, id: ChunkId)
    requires Candidates(c, log).Ok?
    ensures id in SupersededIds(cfg, log) <==> FirstRewritten(cfg, Candidates(c, log).value, id).Some?
  {
    var items := Candidates(c, log).value;
    FirstRewrittenIs(cfg, items, id);
    if id in SupersededIds(cfg, log) {
      var r :| r in LogRefs(log) && IsRewrittenBlobKey(cfg, r.blobKey) && r.chunkId == id;
      CandidateRefs(c, log, r);
      var i :| 0 <= i < |items| && items[i] == Ref(r);
    }
    if FirstRewritten(cfg, items, id).Some? {
      var i :| 0 <= i < |items| && items[i].Rewritten(cfg) && items[i].Id() == id;
      CandidateRefs(c, log, items[i].dataRef);
    }
  }

  // No chosen candidate of the log lies in the object `key`.
  ghost predicate NotChosen(c: Codec, cfg: RewriteConfig, log: seq<LogPayload>, key: Key) {
    Candidates(c, log).Ok? ==>
      forall id :: id in DistinctIds(Candidates(c, log).value) ==> AvoidsKey(cfg, Candidates(c, log).value, id, key)
  }

  ghost predicate AvoidsKey(cfg: RewriteConfig, items: seq<Entry>, id: ChunkId, key: Key) {
    Choose(cfg, items, id).Some? ==>
        Choose(cfg, items, id).value.Inline? || Choose(cfg, items, id).value.dataRef.blobKey != key
  }

  lemma {:induction false} ResolveWithout(c: Codec, objects: Objects, e: Entry, key: Key)
    requires e.Inline? || e.dataRef.blobKey != key
    ensures ResolveEntry(c, objects - {key}, e) == ResolveEntry(c, objects, e)
  {
  }

  lemma {:induction false} ChosenWithout(c: Codec, cfg: RewriteConfig, objects: Objects, items: seq<Entry>,
          ids: seq<ChunkId>, n: nat, key: Key)
    requires n <= |ids| && forall i :: 0 <= i < |ids| ==> AvoidsKey(cfg, items, ids[i], key)
    ensures ResolveChosen(c, cfg, objects - {key}, items, ids, n) == ResolveChosen(c, cfg, objects, items, ids, n)
  {
    if n > 0 {
      ChosenWithout(c, cfg, objects, items, ids, n - 1, key);
      assert AvoidsKey(cfg, items, ids[n - 1], key);
      if Choose(cfg, items, ids[n - 1]).Some? {
        ResolveWithout(c, objects, Choose(cfg, items, ids[n - 1]).value, key);
      }
    }
  }

  /** Removing an object leaves a scan unchanged, to the letter, if no chosen
      pointer names it; and a scan that worked stops working otherwise. */
  lemma {:induction false} RemovalExactly(c: Codec, cfg: RewriteConfig, objects: Objects, log: seq<LogPayload>,
          key: Key)
    ensures NotChosen(c, cfg, log, key) ==> Scan(c, cfg, objects - {key}, log) == Scan(c, cfg, objects, log)
    ensures Scan(c, cfg, objects, log).Ok? ==> (Scan(c, cfg, objects - {key}, log).Ok? <==> NotChosen(c, cfg, log, key))
  {
    if Candidates(c, log).Ok? {
      var items := Candidates(c, log).value;
      var ids := DistinctIds(items);
      if NotChosen(c, cfg, log, key) {
        ChosenWithout(c, cfg, objects, items, ids, |ids|, key);
      } else {
        var id :| id in ids && !AvoidsKey(cfg, items, id, key);
        var i :| 0 <= i < |ids| && ids[i] == id;
        ResolveChosenAt(c, cfg, objects - {key}, items, ids, |ids|);
        assert !ChosenResolves(c, cfg, objects - {key}, items, ids[i]);
      }
    }
  }

  /** Every pointer into `key` belongs to a chunk that has a rewritten pointer. */
  ghost predicate FullySuperseded(cfg: RewriteConfig, log: seq<LogPayload>, key: Key) {
    forall r :: r in LogRefs(log) && r.blobKey == key ==> r.chunkId in SupersededIds(cfg, log)
  }

  lemma {:induction false} SupersededNotChosen(c: Codec, cfg: RewriteConfig, log: seq<LogPayload>, key: Key)
    requires !IsRewrittenBlobKey(cfg, key) && FullySuperseded(cfg, log, key)
    ensures NotChosen(c, cfg, log, key)
  {
    if Candidates(c, log).Ok? {
      var items := Candidates(c, log).value;
      forall id | id in DistinctIds(items) ensures AvoidsKey(cfg, items, id, key) {
        if Choose(cfg, items, id).Some? && Choose(cfg, items, id).value.Ref? {
          var r := Choose(cfg, items, id).value.dataRef;
          ChooseMentioned(cfg, items, id);
          CandidateRefs(c, log, r);
          SupersededHasRewritten(c, cfg, log, id);
          if FirstRewritten(cfg, items, id).Some? { FirstRewrittenKey(cfg, items, id); }
        }
      }
    }
  }

  // Removing an object none of whose pointers a reader will choose changes no scan.
  lemma {:induction false} SupersededRemoval(c: Codec, cfg: RewriteConfig, objects: Objects, log: seq<LogPayload>,
          key: Key)
    requires !IsRewrittenBlobKey(cfg, key) && FullySuperseded(cfg, log, key)
    ensures Scan(c, cfg, objects - {key}, log) == Scan(c, cfg, objects, log)
  {
    SupersededNotChosen(c, cfg, log, key);
    RemovalExactly(c, cfg, objects, log, key);
  }

  // Sharing Verses. --------------------------------------------------------------

  type LogFamily = map<VerseKey, seq<LogPayload>>

  // The superseded ids a caller gathers from the logs of some of the Verses.
  ghost function SupersededAcross(cfg: RewriteConfig, logs: LogFamily, verses: set<VerseKey>): set<ChunkId> {
    set v, r | v in verses && v in logs && r in LogRefs(logs[v]) && IsRewrittenBlobKey(cfg, r.blobKey) :: r.chunkId
  }

  // Every pointer in a Verse's log is to a chunk of that Verse.
  ghost predicate Owned(owner: ChunkId -> VerseKey, logs: LogFamily) {
    forall v, r :: v in logs && r in LogRefs(logs[v]) ==> owner(r.chunkId) == v
  }

  /** No choice of logs makes a shared object collectable while one sibling's
      chunk in it is not superseded in that sibling's own log. */
  lemma {:induction false} SiblingBlocksCollection(cfg: RewriteConfig, owner: ChunkId -> VerseKey, logs: LogFamily,
          contents: StagingBlobContents, verses: set<VerseKey>, id: ChunkId)
    requires Owned(owner, logs) && id in contents.chunkIds
    requires owner(id) in logs ==> id !in SupersededIds(cfg, logs[owner(id)])
    ensures !StagingBlobCollectable(contents, SupersededAcross(cfg, logs, verses))
  {
    assert id !in SupersededAcross(cfg, logs, verses);
  }
}
