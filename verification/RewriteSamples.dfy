/** A rewrite that lists one chunk twice, small enough to follow by hand. */
module RewriteSamples {
  import opened Prelude
  import opened BlobModel
  import opened BlobReader
  import opened BlobRewrite
  import opened BlobStore
  import opened RewriteResume
  import opened CollectRuns
  import opened ConsumeSamples
  import Hex

  // The chunk at `a`, listed twice.
  function Twice(a: Key): seq<StagingPointer> {
    [StagingPointer("v", TinyRef(a), 0), StagingPointer("v", TinyRef(a), 0)]
  }

  function CopyAt(offset: nat): Rewritten { Rewritten([1], 0, offset, 1, [1], 1, []) }

  const TWICE_BUILT: Built := Built([1, 1], [CopyAt(0), CopyAt(1)])

  const TWICE_KEY: Key := RewrittenObjectKey(DEFAULT_REWRITE_CONFIG, "v", [1, 1])

  function TwiceJob(a: Key): Job { Job(Twice(a), TWICE_BUILT, TWICE_KEY, [1, 1]) }

  lemma {:induction false} TwiceBuilds(objects: Objects, a: Key)
    requires 0 < |a| <= MAX_BLOB_KEY_BYTES && a in objects && objects[a] == [1]
    ensures Build(TINY_CODEC, objects, Twice(a), 2) == Ok(TWICE_BUILT)
  {
    var ps := Twice(a);
    TinyDecodes();
    TinyBacked(objects, a);
    assert Slice(objects, TinyRef(a)) == [1];
    hide Backed;
    assert Build(TINY_CODEC, objects, ps, 0) == Ok(Built([], []));
    assert [] + [1] == [1] && [] + [CopyAt(0)] == [CopyAt(0)];
    assert Build(TINY_CODEC, objects, ps, 1) == Ok(Built([1], [CopyAt(0)]));
    assert [1] + [1] == [1, 1] && [CopyAt(0)] + [CopyAt(1)] == [CopyAt(0), CopyAt(1)];
  }

  lemma {:induction false} TwiceKeySize()
    ensures 0 < |TWICE_KEY| <= MAX_BLOB_KEY_BYTES && IsRewrittenBlobKey(DEFAULT_REWRITE_CONFIG, TWICE_KEY)
  {
    Hex.HexTextShape(TextBytes("v"));
    Hex.HexTextShape([1, 1]);
    hide Hex.HexText;
  }

  /** One chunk listed twice: an undisturbed pass appends the first copy's pointer for it, and
      a pass whose first append is refused records it as superseded without that pointer. */
  lemma {:induction false} ListedTwice()
    ensures var a := "blobs/v1/a";
      var s, job := Fresh(map[a := [1]], ROOMY_LOG), TwiceJob(a);
      var calm := Moved(TINY_CODEC, DEFAULT_REWRITE_CONFIG, job, s, Pass(_ => Attempt(true, true), _ => Delivered));
      var rough := Moved(TINY_CODEC, DEFAULT_REWRITE_CONFIG, job, s, Pass(_ => Attempt(true, true), OnlyAt(1)));
      && JobFor(TINY_CODEC, DEFAULT_REWRITE_CONFIG, s.objects, job) && job.key !in s.objects && !OneEach(job)
      && [1] in calm.superseded && DataRefEntry(Expected(job, 0)) in calm.log.entries
      && [1] in rough.superseded && DataRefEntry(Expected(job, 0)) !in rough.log.entries
  {
    TwoKeys();
    ListedTwiceAt("blobs/v1/a");
  }

  lemma {:induction false} ListedTwiceAt(a: Key)
    requires 0 < |a| <= MAX_BLOB_KEY_BYTES && !IsRewrittenBlobKey(DEFAULT_REWRITE_CONFIG, a)
    ensures var s, job := Fresh(map[a := [1]], ROOMY_LOG), TwiceJob(a);
      var calm := Moved(TINY_CODEC, DEFAULT_REWRITE_CONFIG, job, s, Pass(_ => Attempt(true, true), _ => Delivered));
      var rough := Moved(TINY_CODEC, DEFAULT_REWRITE_CONFIG, job, s, Pass(_ => Attempt(true, true), OnlyAt(1)));
      && JobFor(TINY_CODEC, DEFAULT_REWRITE_CONFIG, s.objects, job) && job.key !in s.objects && !OneEach(job)
      && [1] in calm.superseded && DataRefEntry(Expected(job, 0)) in calm.log.entries
      && [1] in rough.superseded && DataRefEntry(Expected(job, 0)) !in rough.log.entries
  {
    hide Build, Moved, RewrittenObjectKey, IsRewrittenBlobKey;
    var objects, job := map[a := [1]], TwiceJob(a);
    TinyDecodes();
    TwiceBuilds(objects, a);
    TwiceKeySize();
    assert JobFor(TINY_CODEC, DEFAULT_REWRITE_CONFIG, objects, job);
    assert job.built.items[0].chunkId == job.built.items[1].chunkId;
    assert CanAppend(job, 0) && CanAppend(job, 1);
    hide JobFor, CollisionFree;
    DuplicateChunksDiverge(TINY_CODEC, DEFAULT_REWRITE_CONFIG, job, objects, 0, 1);
  }
}
