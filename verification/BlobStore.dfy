/** Create-only PUT with verification, over a store whose replies may be lost. */
module BlobStore {
  import opened Prelude
  import opened BlobModel

  datatype WriterError =
    | Config
    | ObjectStoreError
    | DataRefInvalid(dataRefError: DataRefError)
    | ChunkInvalid
    | AppendRefused
    | StoredDigestMismatch(key: Key)
    | NoSealer(verse: VerseKey)
    | NoTarget(verse: VerseKey)
    | SealMismatch
    | NotOneFrame
    | OffsetOverflow
    | EmptyPrefix
    | SharedFailure
    | BufferOverflow
    | SealFailed

  /** What the environment does to one PUT and the GET after it: whether the PUT
      reached the store (its reply is never looked at), and whether the GET was answered. */
  datatype Attempt = Attempt(putApplied: bool, getAnswered: bool)

  function PutCreate(objects: Objects, key: Key, bytes: Bytes, applied: bool): Objects {
    if applied && key !in objects then objects[key := bytes] else objects
  }

  /** The append answer: slot, the chunk that names the entry, and its offset range. */
  datatype Ack = Ack(slot: nat, chunkId: ChunkId, firstOffset: nat, nextOffset: nat, recordCount: nat)

  /** A Verse's log behind its fenced writer: the entries, the writer's next
      dense record offset, and whether an append was left undecided. */
  datatype VerseLog = VerseLog(entries: seq<LogPayload>, nextOffset: nat, poisoned: bool)

  /** What becomes of one append: accepted and answered; refused by the fence
      before anything is written; attempted and not applied, or applied, with the
      answer lost either way. */
  datatype Fate = Delivered | Fenced | Dropped | AnswerLost

  // The write itself, once validation passed.
  function WriteEntry(log: VerseLog, p: LogPayload, next: nat, fate: Fate): VerseLog {
    match fate
    case Delivered => VerseLog(log.entries + [p], next, false)
    case Fenced => log
    case Dropped => log.(poisoned := true)
    case AnswerLost => VerseLog(log.entries + [p], log.nextOffset, true)
  }

  /** The object store and the Verse logs a Scribe works on. */
  class Deployment {
    var objects: Objects
    var logs: map<VerseKey, VerseLog>

    constructor (objects: Objects, logs: map<VerseKey, VerseLog>)
      ensures this.objects == objects && this.logs == logs
    {
      this.objects, this.logs := objects, logs;
    }

    /** `put_and_verify`: at most two create-only PUTs, each checked by a GET. */
    method PutAndVerify(c: Codec, key: Key, bytes: Bytes, digest: Digest, env: nat -> Attempt)
      returns (r: Result<(), WriterError>)
      modifies this`objects
      ensures (objects, r) == PutOutcome(c, old(objects), key, bytes, digest, env, 0)
    {
      for i := 0 to 2
        invariant PutOutcome(c, objects, key, bytes, digest, env, i) ==
          PutOutcome(c, old(objects), key, bytes, digest, env, 0)
      {
        objects := PutCreate(objects, key, bytes, env(i).putApplied);
        if !env(i).getAnswered {
          return Err(ObjectStoreError);
        }
        if key in objects {
          if c.digest(objects[key]) != digest {
            return Err(StoredDigestMismatch(key));
          }
          return Ok(());
        }
      }
      r := Err(ObjectStoreError);
    }
  }

  // The store and reply after attempts `i`, `i + 1`, .., 1.
  function PutOutcome(c: Codec, objects: Objects, key: Key, bytes: Bytes, digest: Digest, env: nat -> Attempt, i: nat)
    : (Objects, Result<(), WriterError>)
    decreases 2 - i
  {
    if i >= 2 then (objects, Err(ObjectStoreError)) else
      var after := PutCreate(objects, key, bytes, env(i).putApplied);
      if !env(i).getAnswered then (after, Err(ObjectStoreError))
      else if key in after then (after, if c.digest(after[key]) != digest then Err(StoredDigestMismatch(key))
          else Ok(()))
      else PutOutcome(c, after, key, bytes, digest, env, i + 1)
  }

  /** Whatever is lost, the PUT creates at most this one object and never
      overwrites; and Ok means the object is there, with exactly these bytes. */
  lemma {:induction false} PutOutcomeSafe(c: Codec, objects: Objects, key: Key, bytes: Bytes, env: nat -> Attempt,
          i: nat)
    requires CollisionFree(c)
    ensures var (after, r) := PutOutcome(c, objects, key, bytes, c.digest(bytes), env, i);
            (after == objects || (key !in objects && after == objects[key := bytes])) &&
            (r.Ok? ==> key in after && after[key] == bytes) &&
            (key in objects && objects[key] != bytes ==> r.Err?)
    decreases 2 - i
  {
    if i < 2 {
      var after := PutCreate(objects, key, bytes, env(i).putApplied);
      if key !in after { PutOutcomeSafe(c, after, key, bytes, env, i + 1); }
    }
  }

  /** It succeeds exactly when the object is visible, with the claimed digest, at the first
      answered GET that finds it; and it fails with a mismatch exactly when the first GET
      finds other bytes under the key. */
  lemma {:induction false} PutOutcomeOk(c: Codec, objects: Objects, key: Key, bytes: Bytes, env: nat -> Attempt)
    requires CollisionFree(c)
    ensures PutOutcome(c, objects, key, bytes, c.digest(bytes), env, 0).1.Ok? <==>
            (key in objects ==> objects[key] == bytes) && env(0).getAnswered &&
            (key in objects || env(0).putApplied || (env(1).putApplied && env(1).getAnswered))
    ensures var r := PutOutcome(c, objects, key, bytes, c.digest(bytes), env, 0).1;
      r.Err? ==> r.error == if key in objects && objects[key] != bytes && env(0).getAnswered
        then StoredDigestMismatch(key) else ObjectStoreError
  {
    PutOutcomeSafe(c, objects, key, bytes, env, 0);
    var after := PutCreate(objects, key, bytes, env(0).putApplied);
    if env(0).getAnswered && key !in after {
      assert PutOutcome(c, objects, key, bytes, c.digest(bytes), env, 0) ==
          PutOutcome(c, after, key, bytes, c.digest(bytes), env, 1);
      assert PutOutcome(c, PutCreate(after, key, bytes, env(1).putApplied), key, bytes, c.digest(bytes), env, 2).1.Err?;
    }
  }
}
