/** Pointers, chunks and log payloads, as `scripture::dataref` and
    `scripture::chunk` define them.

    Text is modelled by its UTF-8 code units, one `char` each, so the length of
    a string is its length in bytes. */
module BlobModel {
  import opened Prelude

  type Digest = Bytes
  type ChunkId = Bytes
  type WriterId = Bytes
  type Record = Bytes
  type Key = string
  type VerseKey = string
  // The object store as readers see it: a key is present or its GET fails.
  type Objects = map<Key, Bytes>

  const MAX_BLOB_KEY_BYTES: nat := 1024

  datatype DataRefError =
    | EmptyBlobKey | BlobKeyTooLong(len: nat) | ZeroLength | ZeroRecordCount | RangeOverflow
    | ChunkDigestMismatch | BlobDigestMismatch
    | Truncated | InvalidMagic | UnsupportedVersion(version: byte) | TrailingBytes | InvalidUtf8
    | UnrecognizedPayload | EmptyBatch | BatchTooLarge(len: nat) | BatchCountMismatch(expected: nat, actual: nat)

  datatype DataRef = DataRef(
    blobKey: Key, offset: nat, length: nat, recordCount: nat,
    chunkId: ChunkId, chunkDigest: Digest, blobDigest: Digest)
  {
    // The checks of `DataRef::validate`, in order; None when all pass.
    function Fault(): Option<DataRefError> {
      if blobKey == "" then Some(EmptyBlobKey)
      else if |blobKey| > MAX_BLOB_KEY_BYTES then Some(BlobKeyTooLong(|blobKey|))
      else if length == 0 then Some(ZeroLength)
      else if recordCount == 0 then Some(ZeroRecordCount)
      else if offset + length >= U64_LIMIT then Some(RangeOverflow)
      else None
    }

    predicate Valid() { Fault().None? }

    function End(): nat { offset + length }
  }

  datatype Frame = Frame(baseOffset: nat, records: seq<Record>)
  datatype Chunk = Chunk(chunkId: ChunkId, writerId: WriterId, frames: seq<Frame>)

  // The records a chunk carries, across its frames.
  function RecordsOf(chunk: Chunk): seq<Record> {
    FrameRecords(chunk.frames)
  }

  function FrameRecords(frames: seq<Frame>): seq<Record> {
    if frames == [] then [] else frames[0].records + FrameRecords(frames[1..])
  }

  datatype FrameRef = FrameRef(baseOffset: nat, recordCount: nat)
  datatype ChunkIndex = ChunkIndex(chunkId: ChunkId, writerId: WriterId, frames: seq<FrameRef>)

  datatype SealedChunk = SealedChunk(chunkId: ChunkId, digest: Digest, bytes: Bytes)

  /** The parts of the chunk crate the lifecycle calls: the content digest,
      `decode_index`, `decode_chunk` and `next_sealed_chunk_len`. */
  datatype Codec = Codec(
    digest: Bytes -> Digest,
    index: Bytes -> Option<ChunkIndex>,
    decode: Bytes -> Option<Chunk>,
    nextLen: Bytes -> Option<nat>)

  // Distinct byte strings have distinct digests.
  ghost predicate CollisionFree(c: Codec) {
    forall a, b :: c.digest(a) == c.digest(b) ==> a == b
  }

  // A complete chunk announces its own end, whatever bytes follow it.
  ghost predicate SelfDelimiting(c: Codec) {
    forall b, t {:trigger c.nextLen(b + t)} :: c.decode(b).Some? ==> 0 < |b| && c.nextLen(b + t) == Some(|b|)
  }

  // The index of a complete chunk names the same identity and frames as its decoding.
  ghost predicate IndexAgrees(c: Codec) {
    forall b :: c.decode(b).Some? ==>
      c.index(b).Some? &&
      var chunk, index := c.decode(b).value, c.index(b).value;
      index.chunkId == chunk.chunkId && index.writerId == chunk.writerId && |index.frames| == |chunk.frames| &&
      forall i :: 0 <= i < |chunk.frames| ==>
        index.frames[i] == FrameRef(chunk.frames[i].baseOffset, |chunk.frames[i].records|)
  }

  ghost predicate WellBehaved(c: Codec) {
    CollisionFree(c) && SelfDelimiting(c) && IndexAgrees(c)
  }

  // One entry of a Verse log, after `decode_log_payload`.
  datatype LogPayload =
    | InlineChunk(bytes: Bytes)
    | DataRefEntry(dataRef: DataRef)
    | ReferenceBatch(refs: seq<DataRef>)
    | Undecodable(error: DataRefError)

  // The pointers an entry carries, in order.
  function PayloadRefs(p: LogPayload): seq<DataRef> {
    match p
    case DataRefEntry(r) => [r]
    case ReferenceBatch(rs) => rs
    case _ => []
  }

  function LogRefs(log: seq<LogPayload>): seq<DataRef> {
    if log == [] then [] else LogRefs(log[..|log| - 1]) + PayloadRefs(log[|log| - 1])
  }

  lemma {:induction false} LogRefsAppend(log: seq<LogPayload>, more: seq<LogPayload>)
    ensures LogRefs(log + more) == LogRefs(log) + LogRefs(more)
  {
    if more == [] {
      assert log + more == log;
    } else {
      var n := |more| - 1;
      LogRefsAppend(log, more[..n]);
      assert (log + more)[..|log + more| - 1] == log + more[..n];
    }
  }

  datatype RewriteConfig = RewriteConfig(stagingPrefix: string, rewrittenPrefix: string)

  const DEFAULT_REWRITE_CONFIG := RewriteConfig("blobs/v1", "verses/v1")

  predicate IsStagingBlobKey(cfg: RewriteConfig, key: Key) {
    IsPrefix(cfg.stagingPrefix + "/", key)
  }

  predicate IsRewrittenBlobKey(cfg: RewriteConfig, key: Key) {
    IsPrefix(cfg.rewrittenPrefix + "/", key)
  }
}
