/** What a rewrite pass answers: one outcome for each chunk it tried, and what an
    acknowledgement in it is worth. */
module RewriteAnswers {
  import opened Prelude
  import opened BlobModel
  import opened BlobStore
  import opened BlobReader
  import opened BlobScan
  import opened BlobRewrite
  import opened RewriteRuns

  // The pointer is a copy of `p`, inside the object `key` of the store.
  ghost predicate CopyOf(c: Codec, objects: Objects, key: Key, p: StagingPointer, r: DataRef) {
    && r.blobKey == key && r.chunkId == p.dataRef.chunkId && r.length == p.dataRef.length
    && r.recordCount == p.dataRef.recordCount && r.chunkDigest == p.dataRef.chunkDigest
    && Backed(c, objects, r)
  }

  // The ack names a new entry of the log, a copy of `p`, and the offsets of `p`.
  ghost predicate AckFor(c: Codec, objects: Objects, key: Key, before: VerseLog, after: VerseLog, p: StagingPointer,
          ack: Ack)
  {
    && |before.entries| <= ack.slot < |after.entries| && after.entries[ack.slot].DataRefEntry?
    && CopyOf(c, objects, key, p, after.entries[ack.slot].dataRef)
    && ack.chunkId == p.dataRef.chunkId && ack.recordCount == p.dataRef.recordCount
    && ack.firstOffset == p.firstOffset && ack.nextOffset == before.nextOffset
  }

  // One of the first `n` pointers is of the chunk.
  ghost predicate Lists(ps: seq<StagingPointer>, n: nat, id: ChunkId) {
    exists i :: 0 <= i < n && i < |ps| && ps[i].dataRef.chunkId == id
  }

  ghost predicate AckOfOne(c: Codec, objects: Objects, key: Key, before: VerseLog, after: VerseLog,
          ps: seq<StagingPointer>, n: nat, id: ChunkId, ack: Ack)
  {
    exists i :: 0 <= i < n && i < |ps| && ps[i].dataRef.chunkId == id &&
        AckFor(c, objects, key, before, after, ps[i], ack)
  }

  /** After the first `n` pointers: answered are exactly their chunks not recorded before; an
      answer is Ok exactly for those recorded since, and its ack is good. */
  ghost predicate Answers(c: Codec, objects: Objects, key: Key, before: VerseLog, recorded: set<ChunkId>,
          ps: seq<StagingPointer>, n: nat, s: Passing)
  {
    && IsPrefix(before.entries, s.log.entries) && s.log.nextOffset == before.nextOffset
    && (forall id :: id in s.outcomes <==> id !in recorded && Lists(ps, n, id))
    && (forall id :: id in s.superseded <==> id in recorded || (id in s.outcomes && s.outcomes[id].Ok?))
    && (forall id :: id in s.outcomes && s.outcomes[id].Ok? ==>
          AckOfOne(c, objects, key, before, s.log, ps, n, id, s.outcomes[id].value))
    && (forall id :: id in s.outcomes && s.outcomes[id].Err? ==> s.outcomes[id].error == AppendFailed)
  }

  lemma {:induction false} AckStays(c: Codec, objects: Objects, key: Key, before: VerseLog, mid: VerseLog,
          after: VerseLog, ps: seq<StagingPointer>, n: nat, id: ChunkId, ack: Ack)
    requires AckOfOne(c, objects, key, before, mid, ps, n, id, ack) && IsPrefix(mid.entries, after.entries)
    ensures AckOfOne(c, objects, key, before, after, ps, n + 1, id, ack)
  {
    hide CopyOf;
    var i :| 0 <= i < n && i < |ps| && ps[i].dataRef.chunkId == id && AckFor(c, objects, key, before, mid, ps[i], ack);
    assert after.entries[ack.slot] == mid.entries[ack.slot];
    assert AckFor(c, objects, key, before, after, ps[i], ack);
  }

  lemma {:induction false} ListsNext(ps: seq<StagingPointer>, n: nat, id: ChunkId)
    requires n < |ps|
    ensures Lists(ps, n + 1, id) <==> Lists(ps, n, id) || ps[n].dataRef.chunkId == id
  {
  }

  // The copy that an item of the object stands for.
  lemma {:induction false} ItemIsCopy(c: Codec, objects: Objects, key: Key, digest: Digest, ps: seq<StagingPointer>,
          items: seq<Rewritten>, i: nat)
    requires CopiedIn(c, objects, key, digest, ps, items) && i < |items| && Superseding(key, digest, items[i]).Valid()
    ensures CopyOf(c, objects, key, ps[i], Superseding(key, digest, items[i]))
    ensures items[i].chunkId == ps[i].dataRef.chunkId && items[i].supersededFirstOffset == ps[i].firstOffset
  {
    assert ItemAt(c, objects[key], ps, items, i);
  }

  lemma {:induction false} ItemNames(c: Codec, objects: Objects, key: Key, digest: Digest, ps: seq<StagingPointer>,
          items: seq<Rewritten>, i: nat)
    requires CopiedIn(c, objects, key, digest, ps, items) && i < |items|
    ensures items[i].chunkId == ps[i].dataRef.chunkId
  {
    assert ItemAt(c, objects[key], ps, items, i);
  }

  // One append: refused it changes no entry of the log, delivered it adds the pointer last.
  lemma {:induction false} AppendAnswers(log: VerseLog, r: DataRef, firstOffset: nat, fate: Fate)
    ensures var (after, reply) := AppendSuperseding(log, r, firstOffset, fate);
      && IsPrefix(log.entries, after.entries) && after.nextOffset == log.nextOffset
      && (reply.Err? ==> reply.error == AppendFailed)
      && (reply.Ok? ==>
            && r.Valid() && after.entries == log.entries + [DataRefEntry(r)]
            && reply.value == Ack(|log.entries|, r.chunkId, firstOffset, log.nextOffset, r.recordCount))
  {
  }

  lemma {:induction false} AnswersStep(c: Codec, objects: Objects, key: Key, digest: Digest, before: VerseLog,
          recorded: set<ChunkId>, ps: seq<StagingPointer>, items: seq<Rewritten>, n: nat, s: Passing, fate: Fate)
    requires CopiedIn(c, objects, key, digest, ps, items) && n < |items|
    requires Answers(c, objects, key, before, recorded, ps, n, s)
    ensures Answers(c, objects, key, before, recorded, ps, n + 1, SupersedeOne(s, key, digest, items[n], fate))
  {
    hide Lists, AckOfOne, CopiedIn, AppendSuperseding, Superseding, CopyOf;
    var item, after := items[n], SupersedeOne(s, key, digest, items[n], fate);
    ItemNames(c, objects, key, digest, ps, items, n);
    CopiedLength(c, objects, key, digest, ps, items);
    forall id ensures Lists(ps, n + 1, id) <==> Lists(ps, n, id) || item.chunkId == id { ListsNext(ps, n, id); }
    var r := Superseding(key, digest, item);
    AppendAnswers(s.log, r, item.supersededFirstOffset, fate);
    forall id | id in s.outcomes && s.outcomes[id].Ok?
      ensures AckOfOne(c, objects, key, before, after.log, ps, n + 1, id, s.outcomes[id].value) {
      AckStays(c, objects, key, before, s.log, after.log, ps, n, id, s.outcomes[id].value);
    }
    if item.chunkId !in s.superseded && after.outcomes[item.chunkId].Ok? {
      ItemIsCopy(c, objects, key, digest, ps, items, n);
      NewAck(c, objects, key, digest, before, s.log, after.log, ps, item, n, after.outcomes[item.chunkId].value);
    }
  }

  lemma {:induction false} NewAck(c: Codec, objects: Objects, key: Key, digest: Digest, before: VerseLog,
          mid: VerseLog, after: VerseLog, ps: seq<StagingPointer>, item: Rewritten, n: nat, ack: Ack)
    requires n < |ps| && item.chunkId == ps[n].dataRef.chunkId && item.supersededFirstOffset == ps[n].firstOffset
    requires CopyOf(c, objects, key, ps[n], Superseding(key, digest, item)) && IsPrefix(before.entries, mid.entries)
    requires after.entries == mid.entries + [DataRefEntry(Superseding(key, digest, item))]
    requires mid.nextOffset == before.nextOffset
    requires var r := Superseding(key, digest, item);
      ack == Ack(|mid.entries|, r.chunkId, item.supersededFirstOffset, mid.nextOffset, r.recordCount)
    ensures AckOfOne(c, objects, key, before, after, ps, n + 1, item.chunkId, ack)
  {
    hide Backed;
    assert AckFor(c, objects, key, before, after, ps[n], ack);
  }

  lemma {:induction false} AnswersAll(c: Codec, objects: Objects, key: Key, digest: Digest, before: VerseLog,
          recorded: set<ChunkId>, ps: seq<StagingPointer>, items: seq<Rewritten>, fates: nat -> Fate, n: nat)
    requires CopiedIn(c, objects, key, digest, ps, items) && n <= |items|
    ensures Answers(c, objects, key, before, recorded, ps, n,
      SupersedeAll(Passing(before, recorded, map[]), key, digest, items, fates, n))
  {
    hide Answers, CopiedIn, SupersedeOne;
    if n == 0 {
      NoAnswers(c, objects, key, before, recorded, ps);
    } else {
      AnswersAll(c, objects, key, digest, before, recorded, ps, items, fates, n - 1);
      var mid := SupersedeAll(Passing(before, recorded, map[]), key, digest, items, fates, n - 1);
      AnswersStep(c, objects, key, digest, before, recorded, ps, items, n - 1, mid, fates(n - 1));
    }
  }

  lemma {:induction false} NoAnswers(c: Codec, objects: Objects, key: Key, before: VerseLog, recorded: set<ChunkId>,
          ps: seq<StagingPointer>)
    ensures Answers(c, objects, key, before, recorded, ps, 0, Passing(before, recorded, map[]))
  {
  }

  // The placements a pass works on, and what it does with them.
  lemma {:induction false} PassWorksOn(c: Codec, cfg: RewriteConfig, objects: Objects, log: VerseLog,
          ps: seq<StagingPointer>, key: Option<Key>, superseded: set<ChunkId>, env: nat -> Attempt,
          fates: nat -> Fate) returns (items: seq<Rewritten>)
    requires CollisionFree(c)
    ensures var done := RewritePass(c, cfg, objects, log, ps, key, superseded, env, fates);
      done.result.Ok? ==>
        && done.key.Some? && done.key.value in done.objects
        && (var own, digest := done.key.value, c.digest(done.objects[done.key.value]);
            && CopiedIn(c, done.objects, own, digest, ps, items)
            && Passing(done.log, done.superseded, done.result.value)
            == SupersedeAll(Passing(log, superseded, map[]), own, digest, items, fates, |items|))
  {
    hide Build, Load, PutOutcome, CollisionFree, CopiedIn, SupersedeAll;
    items := [];
    if SameVerse(ps) && key.None? && Build(c, objects, ps, |ps|).Ok? {
      var b := Build(c, objects, ps, |ps|).value;
      var digest := c.digest(b.bytes);
      var own := RewrittenObjectKey(cfg, ps[0].verseKey, digest);
      var (stored, put) := PutOutcome(c, objects, own, b.bytes, digest, env, 0);
      PutOutcomeSafe(c, objects, own, b.bytes, env, 0);
      if put.Ok? {
        items := b.items;
        BuiltCopied(c, objects, stored, own, ps, b);
      }
    } else if SameVerse(ps) && key.Some? && key.value in objects && Load(c, objects[key.value], ps, |ps|).Ok? {
      items := Load(c, objects[key.value], ps, |ps|).value.items;
      LoadedCopied(c, objects, key.value, ps, Load(c, objects[key.value], ps, |ps|).value);
    }
  }

  /** What a pass answers, built or resumed and whatever is refused or lost on the way. It
      answers for exactly the listed chunks not recorded before it; an answer is Ok exactly
      when its chunk is recorded now; and its ack then gives the slot of a new entry of the
      log, a pointer to that chunk's copy in the rewritten object, under the chunk's own
      first offset and record count. */
  lemma {:induction false} PassAnswersExactly(c: Codec, cfg: RewriteConfig, objects: Objects, log: VerseLog,
          ps: seq<StagingPointer>, key: Option<Key>, superseded: set<ChunkId>, env: nat -> Attempt,
          fates: nat -> Fate)
    requires CollisionFree(c)
    ensures var done := RewritePass(c, cfg, objects, log, ps, key, superseded, env, fates);
      done.result.Ok? ==>
        && done.key.Some?
        && Answers(c, done.objects, done.key.value, log, superseded, ps, |ps|,
                   Passing(done.log, done.superseded, done.result.value))
  {
    hide RewritePass, CollisionFree, CopiedIn, SupersedeAll, Answers;
    var items := PassWorksOn(c, cfg, objects, log, ps, key, superseded, env, fates);
    var done := RewritePass(c, cfg, objects, log, ps, key, superseded, env, fates);
    if done.result.Ok? {
      var own, digest := done.key.value, c.digest(done.objects[done.key.value]);
      CopiedLength(c, done.objects, own, digest, ps, items);
      AnswersAll(c, done.objects, own, digest, log, superseded, ps, items, fates, |items|);
    }
  }

  lemma {:induction false} CopiedLength(c: Codec, objects: Objects, key: Key, digest: Digest, ps: seq<StagingPointer>,
          items: seq<Rewritten>)
    requires CopiedIn(c, objects, key, digest, ps, items)
    ensures |items| == |ps|
  {
  }

  // By what became of each append. -----------------------------------------------------------------

  // The log would take the pointer, if nothing before left it undecided.
  predicate Takes(log: VerseLog, r: DataRef, firstOffset: nat) {
    r.Valid() && firstOffset + r.recordCount < U64_LIMIT && firstOffset + r.recordCount <= log.nextOffset
  }

  // The append of item `i` is tried and its answer lost, or it never arrives.
  ghost predicate Undecided(before: VerseLog, recorded: set<ChunkId>, key: Key, digest: Digest, items: seq<Rewritten>,
          fates: nat -> Fate, i: int)
  {
    && 0 <= i < |items| && items[i].chunkId !in recorded && (fates(i).Dropped? || fates(i).AnswerLost?)
    && Takes(before, Superseding(key, digest, items[i]), items[i].supersededFirstOffset)
  }

  // The log refuses everything from item `n` on.
  ghost predicate Poisoned(before: VerseLog, recorded: set<ChunkId>, key: Key, digest: Digest, items: seq<Rewritten>,
          fates: nat -> Fate, n: nat)
  {
    before.poisoned || exists i :: i < n && Undecided(before, recorded, key, digest, items, fates, i)
  }

  ghost predicate Delivers(before: VerseLog, recorded: set<ChunkId>, key: Key, digest: Digest, items: seq<Rewritten>,
          fates: nat -> Fate, i: nat)
    requires i < |items|
  {
    && !Poisoned(before, recorded, key, digest, items, fates, i) && fates(i).Delivered?
    && Takes(before, Superseding(key, digest, items[i]), items[i].supersededFirstOffset)
  }

  ghost predicate DistinctItems(items: seq<Rewritten>) {
    forall i, j :: 0 <= i < j < |items| ==> items[i].chunkId != items[j].chunkId
  }

  // The answers to the first `n` items.
  ghost predicate ByFate(before: VerseLog, recorded: set<ChunkId>, key: Key, digest: Digest, items: seq<Rewritten>,
          fates: nat -> Fate, n: nat, s: Passing)
  {
    && s.log.nextOffset == before.nextOffset && recorded <= s.superseded
    && (s.log.poisoned <==> Poisoned(before, recorded, key, digest, items, fates, n))
    && (forall id :: id in s.superseded ==>
          id in recorded || exists i :: 0 <= i < n && i < |items| && items[i].chunkId == id)
    && (forall i :: 0 <= i < n && i < |items| && items[i].chunkId !in recorded ==>
          && items[i].chunkId in s.outcomes
          && (s.outcomes[items[i].chunkId].Ok? <==> Delivers(before, recorded, key, digest, items, fates, i)))
  }

  lemma {:induction false} PoisonedNext(before: VerseLog, recorded: set<ChunkId>, key: Key, digest: Digest,
          items: seq<Rewritten>, fates: nat -> Fate, n: nat)
    ensures Poisoned(before, recorded, key, digest, items, fates, n + 1) <==>
      || Poisoned(before, recorded, key, digest, items, fates, n)
      || Undecided(before, recorded, key, digest, items, fates, n)
  {
    hide Undecided;
  }

  lemma {:induction false} AnswersByFate(before: VerseLog, recorded: set<ChunkId>, key: Key, digest: Digest,
          items: seq<Rewritten>, fates: nat -> Fate, n: nat)
    requires DistinctItems(items) && n <= |items|
    ensures ByFate(before, recorded, key, digest, items, fates, n,
      SupersedeAll(Passing(before, recorded, map[]), key, digest, items, fates, n))
  {
    hide Superseding, Poisoned;
    if n == 0 {
      assert Poisoned(before, recorded, key, digest, items, fates, 0) <==> before.poisoned by {
        NotYet(before, recorded, key, digest, items, fates);
      }
    } else {
      AnswersByFate(before, recorded, key, digest, items, fates, n - 1);
      PoisonedNext(before, recorded, key, digest, items, fates, n - 1);
      var s := SupersedeAll(Passing(before, recorded, map[]), key, digest, items, fates, n - 1);
      assert items[n - 1].chunkId in s.superseded <==> items[n - 1].chunkId in recorded;
    }
  }

  lemma {:induction false} NotYet(before: VerseLog, recorded: set<ChunkId>, key: Key, digest: Digest,
          items: seq<Rewritten>, fates: nat -> Fate)
    ensures Poisoned(before, recorded, key, digest, items, fates, 0) <==> before.poisoned
  {
  }

  ghost predicate DistinctPointers(ps: seq<StagingPointer>) {
    forall i, j :: 0 <= i < j < |ps| ==> ps[i].dataRef.chunkId != ps[j].dataRef.chunkId
  }

  lemma {:induction false} DistinctCopies(c: Codec, objects: Objects, key: Key, digest: Digest,
          ps: seq<StagingPointer>, items: seq<Rewritten>)
    requires CopiedIn(c, objects, key, digest, ps, items) && DistinctPointers(ps)
    ensures DistinctItems(items)
  {
    CopiedLength(c, objects, key, digest, ps, items);
    hide CopiedIn;
    forall i, j | 0 <= i < j < |items| ensures items[i].chunkId != items[j].chunkId {
      ItemNames(c, objects, key, digest, ps, items, i);
      ItemNames(c, objects, key, digest, ps, items, j);
    }
  }

  /** For distinct chunks, which of a pass's answers are Ok, from the log it found and the
      fates alone: those of the appends that are delivered, that the log would take, and
      before which no append was left undecided. */
  lemma {:induction false} PassAnswersByFate(c: Codec, cfg: RewriteConfig, objects: Objects, log: VerseLog,
          ps: seq<StagingPointer>, key: Option<Key>, superseded: set<ChunkId>, env: nat -> Attempt,
          fates: nat -> Fate) returns (items: seq<Rewritten>)
    requires CollisionFree(c) && DistinctPointers(ps)
    ensures var done := RewritePass(c, cfg, objects, log, ps, key, superseded, env, fates);
      done.result.Ok? ==>
        && done.key.Some? && done.key.value in done.objects
        && (var own, digest := done.key.value, c.digest(done.objects[done.key.value]);
            && CopiedIn(c, done.objects, own, digest, ps, items)
            && forall i :: 0 <= i < |items| && items[i].chunkId !in superseded ==>
                && items[i].chunkId in done.result.value
                && (done.result.value[items[i].chunkId].Ok? <==>
                    Delivers(log, superseded, own, digest, items, fates, i)))
  {
    hide RewritePass, CopiedIn, SupersedeAll, Delivers, CollisionFree, DistinctPointers;
    items := PassWorksOn(c, cfg, objects, log, ps, key, superseded, env, fates);
    var done := RewritePass(c, cfg, objects, log, ps, key, superseded, env, fates);
    if done.result.Ok? {
      var own, digest := done.key.value, c.digest(done.objects[done.key.value]);
      DistinctCopies(c, done.objects, own, digest, ps, items);
      AnswersByFate(log, superseded, own, digest, items, fates, |items|);
    }
  }

  // When a pass goes through. -----------------------------------------------------------------------

  ghost predicate Copyable(c: Codec, objects: Objects, ps: seq<StagingPointer>, i: nat)
    requires i < |ps|
  {
    && Backed(c, objects, ps[i].dataRef) && c.decode(Slice(objects, ps[i].dataRef)).Some?
    && Extent(ps, i) < U64_LIMIT
  }

  lemma {:induction false} BuildExactly(c: Codec, objects: Objects, ps: seq<StagingPointer>, n: nat)
    requires n <= |ps|
    ensures Build(c, objects, ps, n).Ok? <==> forall i :: 0 <= i < n ==> Copyable(c, objects, ps, i)
  {
    if n > 0 {
      BuildExactly(c, objects, ps, n - 1);
      if Build(c, objects, ps, n - 1).Ok? { BuildCopies(c, objects, ps, n - 1); }
      hide Copies, Backed;
      assert Copyable(c, objects, ps, n - 1) ==> |Slice(objects, ps[n - 1].dataRef)| < U64_LIMIT by {
        ShortSlice(c, objects, ps, n - 1);
      }
    }
  }

  lemma {:induction false} ShortSlice(c: Codec, objects: Objects, ps: seq<StagingPointer>, i: nat)
    requires i < |ps|
    ensures Copyable(c, objects, ps, i) ==> |Slice(objects, ps[i].dataRef)| < U64_LIMIT
  {
  }

  ghost predicate Loadable(c: Codec, bytes: Bytes, ps: seq<StagingPointer>, i: nat)
    requires i < |ps|
  {
    Copies(c, bytes, ps, i) && ps[i].dataRef.Valid() && Extent(ps, i + 1) < U64_LIMIT
  }

  lemma {:induction false} LoadExactly(c: Codec, bytes: Bytes, ps: seq<StagingPointer>, n: nat)
    requires n <= |ps|
    ensures Load(c, bytes, ps, n).Ok? <==> forall i :: 0 <= i < n ==> Loadable(c, bytes, ps, i)
    ensures Load(c, bytes, ps, n).Ok? ==> Load(c, bytes, ps, n).value.offset == Extent(ps, n)
  {
    if n > 0 {
      LoadExactly(c, bytes, ps, n - 1);
      assert Extent(ps, n) == Extent(ps, n - 1) + ps[n - 1].dataRef.length;
      assert Load(c, bytes, ps, n - 1).Ok? ==>
          (LoadStep(c, bytes, Load(c, bytes, ps, n - 1).value, ps[n - 1]).Ok? <==> Loadable(c, bytes, ps, n - 1));
    }
  }

  /** A pass that fails as a whole has changed neither the log nor the progress, and the store
      at most by its own object; one that resumes works on the object its progress names. */
  lemma {:induction false} FailedPassLeaves(c: Codec, cfg: RewriteConfig, objects: Objects, log: VerseLog,
          ps: seq<StagingPointer>, key: Option<Key>, superseded: set<ChunkId>, env: nat -> Attempt,
          fates: nat -> Fate)
    requires CollisionFree(c)
    ensures var done := RewritePass(c, cfg, objects, log, ps, key, superseded, env, fates);
      && (done.result.Err? ==> done.log == log && done.key == key && done.superseded == superseded)
      && (key.Some? ==> done.objects == objects && done.key == key)
      && (forall k :: k in objects ==> k in done.objects && done.objects[k] == objects[k])
  {
    hide Build, Load, PutOutcome, SupersedeAll, CollisionFree;
    if SameVerse(ps) && Build(c, objects, ps, |ps|).Ok? {
      var bytes := Build(c, objects, ps, |ps|).value.bytes;
      PutOutcomeSafe(c, objects, RewrittenObjectKey(cfg, ps[0].verseKey, c.digest(bytes)), bytes, env, 0);
    }
  }

  /** A pass answers at all exactly when its pointers are of one Verse and either it starts
      afresh, every pointer is backed by the store and decodes, and its PUT succeeds, or the
      object its progress names is there and holds a copy of every pointer, end to end. */
  lemma {:induction false} PassAnswersAtAll(c: Codec, cfg: RewriteConfig, objects: Objects, log: VerseLog,
          ps: seq<StagingPointer>, key: Option<Key>, superseded: set<ChunkId>, env: nat -> Attempt,
          fates: nat -> Fate)
    requires CollisionFree(c)
    ensures RewritePass(c, cfg, objects, log, ps, key, superseded, env, fates).result.Ok? <==>
      && ps != [] && (forall i :: 0 <= i < |ps| ==> ps[i].verseKey == ps[0].verseKey)
      && if key.None? then
           && (forall i :: 0 <= i < |ps| ==> Copyable(c, objects, ps, i))
           && PutSucceeds(c, cfg, objects, ps, env)
         else
           && key.value in objects
           && forall i :: 0 <= i < |ps| ==> Loadable(c, objects[key.value], ps, i)
  {
    hide Copyable, Loadable, Build, Load, PutOutcome, SupersedeAll;
    if SameVerse(ps) {
      if key.None? {
        BuildExactly(c, objects, ps, |ps|);
        if Build(c, objects, ps, |ps|).Ok? { PutDecides(c, cfg, objects, ps, env); }
      } else if key.value in objects {
        LoadExactly(c, objects[key.value], ps, |ps|);
      }
    }
  }

  // The environment lets the object through, and no other bytes stand under its key.
  ghost predicate PutSucceeds(c: Codec, cfg: RewriteConfig, objects: Objects, ps: seq<StagingPointer>,
          env: nat -> Attempt)
    requires ps != []
  {
    Build(c, objects, ps, |ps|).Ok? &&
    var bytes := Build(c, objects, ps, |ps|).value.bytes;
    var key := RewrittenObjectKey(cfg, ps[0].verseKey, c.digest(bytes));
    && (key in objects ==> objects[key] == bytes) && env(0).getAnswered
    && (key in objects || env(0).putApplied || (env(1).putApplied && env(1).getAnswered))
  }

  lemma {:induction false} PutDecides(c: Codec, cfg: RewriteConfig, objects: Objects, ps: seq<StagingPointer>,
          env: nat -> Attempt)
    requires CollisionFree(c) && ps != [] && Build(c, objects, ps, |ps|).Ok?
    ensures var bytes := Build(c, objects, ps, |ps|).value.bytes;
      var key := RewrittenObjectKey(cfg, ps[0].verseKey, c.digest(bytes));
      PutOutcome(c, objects, key, bytes, c.digest(bytes), env, 0).1.Ok? <==> PutSucceeds(c, cfg, objects, ps, env)
  {
    hide Build, PutOutcome, CollisionFree;
    var bytes := Build(c, objects, ps, |ps|).value.bytes;
    PutOutcomeOk(c, objects, RewrittenObjectKey(cfg, ps[0].verseKey, c.digest(bytes)), bytes, env);
  }
}
