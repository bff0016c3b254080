/** Interrupted, repeated and forgetful rewrite passes end where one undisturbed pass ends. */
module RewriteResume {
  import opened Prelude
  import opened BlobModel
  import opened BlobStore
  import opened BlobScan
  import opened ScanTheorems
  import opened BlobRewrite

  /** The pointers of one Verse and the object an undisturbed build makes of them. */
  datatype Job = Job(ps: seq<StagingPointer>, built: Built, key: Key, digest: Digest)

  ghost predicate JobFor(c: Codec, cfg: RewriteConfig, objects: Objects, job: Job) {
    SameVerse(job.ps) && Build(c, objects, job.ps, |job.ps|) == Ok(job.built) && |job.built.bytes| < U64_LIMIT &&
    job.digest == c.digest(job.built.bytes) && job.key == RewrittenObjectKey(cfg, job.ps[0].verseKey, job.digest)
  }

  ghost predicate IsJob(c: Codec, cfg: RewriteConfig, job: Job) {
    exists objects :: JobFor(c, cfg, objects, job)
  }

  // The superseding pointer an undisturbed pass appends for pointer `i`.
  ghost function Expected(job: Job, i: nat): DataRef
    requires i < |job.built.items|
  {
    Superseding(job.key, job.digest, job.built.items[i])
  }

  ghost predicate IsExpected(job: Job, p: LogPayload) {
    exists i :: 0 <= i < |job.built.items| && p == DataRefEntry(Expected(job, i))
  }

  /** Store, log and whatever progress survived. */
  datatype State = State(objects: Objects, log: VerseLog, key: Option<Key>, superseded: set<ChunkId>)

  // Some log would take the superseding pointer of pointer `i`.
  ghost predicate CanAppend(job: Job, i: nat) {
    && i < |job.built.items| && Expected(job, i).Valid()
    && job.built.items[i].supersededFirstOffset + Expected(job, i).recordCount < U64_LIMIT
  }

  ghost predicate SupersededBy(job: Job, log: VerseLog, id: ChunkId, i: int) {
    0 <= i < |job.built.items| && CanAppend(job, i) && job.built.items[i].chunkId == id &&
        DataRefEntry(Expected(job, i)) in log.entries
  }

  ghost predicate SupersededIn(job: Job, log: VerseLog, id: ChunkId) {
    exists i :: SupersededBy(job, log, id, i)
  }

  // Progress never claims more than the log holds, and never names another object.
  ghost predicate Sound(job: Job, s: State) {
    (s.key.Some? ==> s.key.value == job.key && job.key in s.objects && s.objects[job.key] == job.built.bytes) &&
    forall id :: id in s.superseded ==> SupersededIn(job, s.log, id)
  }

  /** One more pass; progress lost in part or whole; or anybody else's writes. */
  datatype Move =
    | Pass(env: nat -> Attempt, fates: nat -> Fate)
    | Forget(keepKey: bool, kept: set<ChunkId>)
    | Outside(objects: Objects, log: VerseLog)

  ghost predicate Allowed(s: State, m: Move) {
    m.Outside? ==>
      IsPrefix(s.log.entries, m.log.entries) &&
      forall k :: k in s.objects && s.key == Some(k) ==> k in m.objects && m.objects[k] == s.objects[k]
  }

  function Moved(c: Codec, cfg: RewriteConfig, job: Job, s: State, m: Move): State {
    match m
    case Pass(env, fates) =>
      var done := RewritePass(c, cfg, s.objects, s.log, job.ps, s.key, s.superseded, env, fates);
      State(done.objects, done.log, done.key, done.superseded)
    case Forget(keepKey, kept) => s.(key := if keepKey then s.key else None, superseded := s.superseded * kept)
    case Outside(objects, log) => s.(objects := objects, log := log)
  }

  lemma {:induction false} SupersedeAllExpected(job: Job, s: Passing, fates: nat -> Fate, n: nat)
    requires n <= |job.built.items| && forall id :: id in s.superseded ==> SupersededIn(job, s.log, id)
    ensures var done := SupersedeAll(s, job.key, job.digest, job.built.items, fates, n);
            IsPrefix(s.log.entries, done.log.entries) && s.superseded <= done.superseded &&
            (forall k :: |s.log.entries| <= k < |done.log.entries| ==> IsExpected(job, done.log.entries[k])) &&
            (forall id :: id in done.superseded ==> SupersededIn(job, done.log, id))
  {
    if n > 0 {
      SupersedeAllExpected(job, s, fates, n - 1);
      var before, item := SupersedeAll(s, job.key, job.digest, job.built.items, fates, n - 1), job.built.items[n - 1];
      var after := SupersedeOne(before, job.key, job.digest, item, fates(n - 1));
      assert DataRefEntry(Expected(job, n - 1)) == DataRefEntry(Superseding(job.key, job.digest, item));
      assert IsPrefix(before.log.entries, after.log.entries);
      forall id | id in after.superseded ensures SupersededIn(job, after.log, id) {
        if id in before.superseded {
          var i :| SupersededBy(job, before.log, id, i);
          assert SupersededBy(job, after.log, id, i);
        } else {
          assert after.log.entries == before.log.entries + [DataRefEntry(Expected(job, n - 1))];
          assert SupersededBy(job, after.log, id, n - 1);
        }
      }
    }
  }

  ghost predicate Finished(job: Job, s: State, done: PassResult, fates: nat -> Fate) {
    job.key in done.objects && done.objects[job.key] == job.built.bytes &&
    done == FinishPass(done.objects, s.log, job.key, job.digest, job.built.items, s.superseded, fates)
  }

  ghost predicate Abandoned(s: State, done: PassResult) {
    done.log == s.log && done.key == s.key && done.superseded == s.superseded &&
    forall k :: k in s.objects ==> k in done.objects && done.objects[k] == s.objects[k]
  }

  /** A pass that gets as far as appending works on the job's own placements,
      whether it built them or recovered them from the written object. */
  lemma {:induction false} PassUsesJob(c: Codec, cfg: RewriteConfig, job: Job, s: State, env: nat -> Attempt,
          fates: nat -> Fate)
    requires CollisionFree(c) && IsJob(c, cfg, job) && Sound(job, s)
    ensures var done := RewritePass(c, cfg, s.objects, s.log, job.ps, s.key, s.superseded, env, fates);
            (done.result.Ok? ==> Finished(job, s, done, fates)) && (done.result.Err? ==> Abandoned(s, done))
  {
    var origin :| JobFor(c, cfg, origin, job);
    if s.key.None? {
      if Build(c, s.objects, job.ps, |job.ps|).Ok? {
        BuildIsDeterministic(c, origin, s.objects, job.ps);
        PutOutcomeSafe(c, s.objects, job.key, job.built.bytes, env, 0);
        hide Build, PutOutcome, CollisionFree;
      }
    } else {
      BuildThenLoad(c, origin, job.ps, job.built, |job.ps|);
      assert job.built.items[..|job.ps|] == job.built.items;
      hide Build, Load, CollisionFree;
    }
  }

  lemma {:induction false} MoveKeepsSound(c: Codec, cfg: RewriteConfig, job: Job, s: State, m: Move)
    requires CollisionFree(c) && IsJob(c, cfg, job) && Sound(job, s) && Allowed(s, m)
    ensures Sound(job, Moved(c, cfg, job, s, m))
    ensures m.Pass? ==> var s' := Moved(c, cfg, job, s, m);
            IsPrefix(s.log.entries, s'.log.entries) &&
            forall k :: |s.log.entries| <= k < |s'.log.entries| ==> IsExpected(job, s'.log.entries[k])
  {
    match m {
      case Pass(env, fates) =>
        PassUsesJob(c, cfg, job, s, env, fates);
        hide RewritePass, CollisionFree, IsJob;
        SupersedeAllExpected(job, Passing(s.log, s.superseded, map[]), fates, |job.built.items|);
      case Forget(_, _) =>
      case Outside(_, log) =>
        forall id | id in s.superseded ensures SupersededIn(job, log, id) {
          var i :| SupersededBy(job, s.log, id, i);
          assert DataRefEntry(Expected(job, i)) in log.entries[..|s.log.entries|];
          assert SupersededBy(job, log, id, i);
        }
    }
  }

  ghost predicate MovesAllowed(c: Codec, cfg: RewriteConfig, job: Job, s: State, ms: seq<Move>)
    decreases ms
  {
    ms == [] || (Allowed(s, ms[0]) && MovesAllowed(c, cfg, job, Moved(c, cfg, job, s, ms[0]), ms[1..]))
  }

  ghost function AfterMoves(c: Codec, cfg: RewriteConfig, job: Job, s: State, ms: seq<Move>): State
    decreases ms
  {
    if ms == [] then s else AfterMoves(c, cfg, job, Moved(c, cfg, job, s, ms[0]), ms[1..])
  }

  lemma {:induction false} MovesKeepSound(c: Codec, cfg: RewriteConfig, job: Job, s: State, ms: seq<Move>)
    requires CollisionFree(c) && IsJob(c, cfg, job) && Sound(job, s) && MovesAllowed(c, cfg, job, s, ms)
    ensures Sound(job, AfterMoves(c, cfg, job, s, ms))
    decreases ms
  {
    if ms != [] {
      MoveKeepsSound(c, cfg, job, s, ms[0]);
      MovesKeepSound(c, cfg, job, Moved(c, cfg, job, s, ms[0]), ms[1..]);
    }
  }

  // Before any pass: no object written, nothing recorded.
  function Fresh(objects: Objects, log: VerseLog): State { State(objects, log, None, {}) }

  // The pointer an undisturbed pass appends for its chunk: the first that can be appended.
  ghost predicate Lead(job: Job, i: nat) {
    CanAppend(job, i) && forall k :: 0 <= k < i && CanAppend(job, k) ==>
        job.built.items[k].chunkId != job.built.items[i].chunkId
  }

  // No two pointers that can be appended are of one chunk.
  ghost predicate OneEach(job: Job) {
    forall i, j :: 0 <= i < j < |job.built.items| && CanAppend(job, i) && CanAppend(job, j) ==>
        job.built.items[i].chunkId != job.built.items[j].chunkId
  }

  // No chunk is listed twice among the pointers.
  ghost predicate DistinctChunks(job: Job) {
    forall i, j :: 0 <= i < j < |job.built.items| ==> job.built.items[i].chunkId != job.built.items[j].chunkId
  }

  /** The log holds, for every chunk recorded as superseded, the very pointer an undisturbed
      pass appends for it. */
  ghost predicate Recovered(job: Job, s: State) {
    forall i :: 0 <= i < |job.built.items| && Lead(job, i) && job.built.items[i].chunkId in s.superseded ==>
        DataRefEntry(Expected(job, i)) in s.log.entries
  }

  /** Resume equivalence: after any sequence of passes, failures, forgotten progress and
      foreign writes, the log holds for each chunk recorded as superseded exactly the
      pointer an undisturbed pass would have appended. */
  lemma {:induction false} ResumeEquivalence(c: Codec, cfg: RewriteConfig, job: Job, objects: Objects, log: VerseLog,
          ms: seq<Move>)
    requires CollisionFree(c) && IsJob(c, cfg, job) && OneEach(job) &&
      MovesAllowed(c, cfg, job, Fresh(objects, log), ms)
    ensures Recovered(job, AfterMoves(c, cfg, job, Fresh(objects, log), ms))
  {
    MovesKeepSound(c, cfg, job, Fresh(objects, log), ms);
    var end := AfterMoves(c, cfg, job, Fresh(objects, log), ms);
    forall i | 0 <= i < |job.built.items| && Lead(job, i) && job.built.items[i].chunkId in end.superseded
        ensures DataRefEntry(Expected(job, i)) in end.log.entries {
      var k :| SupersededBy(job, end.log, job.built.items[i].chunkId, k);
      assert k == i;
    }
  }

  // The undisturbed pass. ------------------------------------------------------------

  ghost function ExpectedRefs(job: Job, n: nat): seq<DataRef>
    requires n <= |job.built.items|
  {
    if n == 0 then [] else ExpectedRefs(job, n - 1) + [Expected(job, n - 1)]
  }

  lemma {:induction false} SupersedingSnoc(entries: seq<LogPayload>, refs: seq<DataRef>, r: DataRef)
    ensures entries + SupersedingEntries(refs + [r]) == (entries + SupersedingEntries(refs)) + [DataRefEntry(r)]
  {
    assert (refs + [r])[..|refs|] == refs;
    ConcatAssoc(entries, SupersedingEntries(refs), [DataRefEntry(r)]);
  }

  /** With every append delivered and allowed, the pass appends the expected
      pointers, all of them, in order. */
  lemma {:induction false} UndisturbedAppends(job: Job, log: VerseLog, fates: nat -> Fate, n: nat)
    requires n <= |job.built.items| && DistinctChunks(job) && !log.poisoned
    requires forall i :: 0 <= i < |job.built.items| ==>
      fates(i).Delivered? && SupersedeAllowed(log, Expected(job, i), job.built.items[i].supersededFirstOffset)
    ensures var done := SupersedeAll(Passing(log, {}, map[]), job.key, job.digest, job.built.items, fates, n);
            done.log == VerseLog(log.entries + SupersedingEntries(ExpectedRefs(job, n)), log.nextOffset, false) &&
            (forall id :: id in done.superseded <==> exists i :: 0 <= i < n && job.built.items[i].chunkId == id)
  {
    if n > 0 {
      hide SupersedingEntries;
      UndisturbedAppends(job, log, fates, n - 1);
      var before := SupersedeAll(Passing(log, {}, map[]), job.key, job.digest, job.built.items, fates, n - 1);
      var item := job.built.items[n - 1];
      assert item.chunkId !in before.superseded;
      assert SupersedeAllowed(log, Expected(job, n - 1), item.supersededFirstOffset);
      assert SupersedeAllowed(before.log, Expected(job, n - 1), item.supersededFirstOffset);
      SupersedingSnoc(log.entries, ExpectedRefs(job, n - 1), Expected(job, n - 1));
    } else {
      assert log.entries + SupersedingEntries([]) == log.entries;
    }
  }

  // One chunk listed twice. ------------------------------------------------------------

  // A log that takes every pointer that any log takes.
  const ROOMY_LOG: VerseLog := VerseLog([], U64_LIMIT - 1, false)

  ghost function OnlyAt(j: nat): nat -> Fate { (k: nat) => if k == j then Delivered else Fenced }

  lemma {:induction false} RoomyTakes(job: Job, i: nat, entries: seq<LogPayload>)
    requires i < |job.built.items|
    ensures var log, first := VerseLog(entries, U64_LIMIT - 1, false), job.built.items[i].supersededFirstOffset;
      SupersedeAllowed(log, Expected(job, i), first) <==> CanAppend(job, i)
  {
  }

  // With every append refused but the one of pointer `j`, only that one is made.
  lemma {:induction false} OnlyOneAppends(job: Job, j: nat, n: nat)
    requires j < |job.built.items| && n <= |job.built.items| && CanAppend(job, j)
    ensures var done := SupersedeAll(Passing(ROOMY_LOG, {}, map[]), job.key, job.digest, job.built.items, OnlyAt(j), n);
      if n <= j then done.log == ROOMY_LOG && done.superseded == {}
      else
        && done.log == VerseLog([DataRefEntry(Expected(job, j))], U64_LIMIT - 1, false)
        && done.superseded == {job.built.items[j].chunkId}
  {
    if n > 0 {
      OnlyOneAppends(job, j, n - 1);
      RoomyTakes(job, n - 1, []);
      hide CanAppend, SupersedeAllowed;
    }
  }

  lemma {:induction false} DeliveredStep(job: Job, s: Passing, i: nat)
    requires i < |job.built.items| && s.log == VerseLog(s.log.entries, U64_LIMIT - 1, false)
    ensures var item := job.built.items[i];
      var after, id := SupersedeOne(s, job.key, job.digest, item, Delivered), item.chunkId;
      if id !in s.superseded && CanAppend(job, i) then
        && after.log == VerseLog(s.log.entries + [DataRefEntry(Expected(job, i))], U64_LIMIT - 1, false)
        && after.superseded == s.superseded + {id}
      else after.log == s.log && after.superseded == s.superseded
  {
    RoomyTakes(job, i, s.log.entries);
    hide CanAppend, SupersedeAllowed;
  }

  // With every append delivered, each pointer that leads its chunk is appended.
  lemma {:induction false} LeadsAppend(job: Job, n: nat)
    requires n <= |job.built.items|
    ensures var done := SupersedeAll(Passing(ROOMY_LOG, {}, map[]), job.key, job.digest, job.built.items, _ =>
      Delivered, n);
      && done.log == VerseLog(done.log.entries, U64_LIMIT - 1, false)
      && (forall id :: id in done.superseded <==>
           exists k :: 0 <= k < n && CanAppend(job, k) && job.built.items[k].chunkId == id)
      && (forall i :: 0 <= i < n && Lead(job, i) ==> DataRefEntry(Expected(job, i)) in done.log.entries)
  {
    if n > 0 {
      LeadsAppend(job, n - 1);
      var before := SupersedeAll(Passing(ROOMY_LOG, {}, map[]), job.key, job.digest, job.built.items, _ =>
          Delivered, n - 1);
      DeliveredStep(job, before, n - 1);
      hide CanAppend, SupersedeOne, Expected;
    }
  }

  lemma {:induction false} ExpectedApart(c: Codec, cfg: RewriteConfig, job: Job, i: nat, j: nat)
    requires IsJob(c, cfg, job) && i < j < |job.built.items| && CanAppend(job, i)
    ensures Expected(job, i) != Expected(job, j)
  {
    hide Build, Copies, SameVerse, RewrittenObjectKey;
    var origin :| JobFor(c, cfg, origin, job);
    BuildCopies(c, origin, job.ps, |job.ps|);
    assert ItemAt(c, job.built.bytes, job.ps, job.built.items, i) &&
        ItemAt(c, job.built.bytes, job.ps, job.built.items, j);
    ExtentGrows(job.ps, i + 1, j);
  }

  // A first pass whose PUT is answered goes on to the append loop.
  lemma {:induction false} FirstPass(c: Codec, cfg: RewriteConfig, job: Job, objects: Objects, log: VerseLog,
          fates: nat -> Fate)
    requires CollisionFree(c) && JobFor(c, cfg, objects, job) && job.key !in objects
    ensures var end := Moved(c, cfg, job, Fresh(objects, log), Pass(_ => Attempt(true, true), fates));
      var done := SupersedeAll(Passing(log, {}, map[]), job.key, job.digest, job.built.items, fates, |job.built.items|);
      end.log == done.log && end.superseded == done.superseded
  {
    PutOutcomeOk(c, objects, job.key, job.built.bytes, _ => Attempt(true, true));
    hide Build, PutOutcome, CollisionFree, SupersedeAll;
  }

  /** When two pointers that can be appended are of one chunk, resuming can end elsewhere:
      an undisturbed pass appends the first one's pointer; a pass whose first append is
      refused records the same chunk with the other's, and never appends the first. */
  lemma {:induction false} DuplicateChunksDiverge(c: Codec, cfg: RewriteConfig, job: Job, objects: Objects, i: nat,
          j: nat)
    requires CollisionFree(c) && JobFor(c, cfg, objects, job) && job.key !in objects
    requires i < j < |job.built.items| && Lead(job, i) && CanAppend(job, j) &&
      job.built.items[i].chunkId == job.built.items[j].chunkId
    ensures var calm := Moved(c, cfg, job, Fresh(objects, ROOMY_LOG), Pass(_ => Attempt(true, true), _ => Delivered));
      var rough := Moved(c, cfg, job, Fresh(objects, ROOMY_LOG), Pass(_ => Attempt(true, true), OnlyAt(j)));
      && job.built.items[i].chunkId in calm.superseded && DataRefEntry(Expected(job, i)) in calm.log.entries
      && job.built.items[i].chunkId in rough.superseded && rough.log.entries == [DataRefEntry(Expected(job, j))]
      && DataRefEntry(Expected(job, i)) !in rough.log.entries
  {
    FirstPass(c, cfg, job, objects, ROOMY_LOG, _ => Delivered);
    FirstPass(c, cfg, job, objects, ROOMY_LOG, OnlyAt(j));
    LeadsAppend(job, |job.built.items|);
    OnlyOneAppends(job, j, |job.built.items|);
    ExpectedApart(c, cfg, job, i, j);
    hide SupersedeAll, Moved, CanAppend, JobFor, CollisionFree;
  }

  lemma {:induction false} SomeLead(job: Job, i: nat) returns (k: nat)
    requires i < |job.built.items| && CanAppend(job, i)
    ensures k <= i && Lead(job, k) && job.built.items[k].chunkId == job.built.items[i].chunkId
  {
    hide CanAppend;
    if h :| 0 <= h < i && CanAppend(job, h) && job.built.items[h].chunkId == job.built.items[i].chunkId {
      k := SomeLead(job, h);
    } else {
      k := i;
    }
  }

  /** Resuming always ends where an undisturbed pass ends exactly when no two pointers that
      can be appended are of one chunk. */
  lemma {:induction false} ResumesExactly(c: Codec, cfg: RewriteConfig, job: Job, objects: Objects)
    requires CollisionFree(c) && JobFor(c, cfg, objects, job) && job.key !in objects
    ensures (forall log, ms :: MovesAllowed(c, cfg, job, Fresh(objects, log), ms) ==>
      Recovered(job, AfterMoves(c, cfg, job, Fresh(objects, log), ms))) <==> OneEach(job)
  {
    hide CanAppend, MovesAllowed, AfterMoves, Lead, Moved, JobFor, CollisionFree;
    assert IsJob(c, cfg, job);
    if OneEach(job) {
      forall log, ms | MovesAllowed(c, cfg, job, Fresh(objects, log), ms)
          ensures Recovered(job, AfterMoves(c, cfg, job, Fresh(objects, log), ms)) {
        ResumeEquivalence(c, cfg, job, objects, log, ms);
      }
    } else {
      var i, j :| 0 <= i < j < |job.built.items| && CanAppend(job, i) && CanAppend(job, j) &&
          job.built.items[i].chunkId == job.built.items[j].chunkId;
      var k := SomeLead(job, i);
      var rough := Pass(_ => Attempt(true, true), OnlyAt(j));
      DuplicateChunksDiverge(c, cfg, job, objects, k, j);
      OneMove(c, cfg, job, Fresh(objects, ROOMY_LOG), rough);
      assert !Recovered(job, AfterMoves(c, cfg, job, Fresh(objects, ROOMY_LOG), [rough]));
    }
  }

  lemma {:induction false} OneMove(c: Codec, cfg: RewriteConfig, job: Job, s: State, m: Move)
    requires m.Pass?
    ensures MovesAllowed(c, cfg, job, s, [m]) && AfterMoves(c, cfg, job, s, [m]) == Moved(c, cfg, job, s, m)
  {
    assert [m][1..] == [];
  }

  /** A repeated superseding entry is ignored by every scan, to the letter. */
  lemma {:induction false} RepeatIsIgnored(c: Codec, cfg: RewriteConfig, objects: Objects, log: seq<LogPayload>,
          r: DataRef)
    requires IsRewrittenBlobKey(cfg, r.blobKey) && Candidates(c, log).Ok? && Ref(r) in Candidates(c, log).value
    ensures Scan(c, cfg, objects, log + [DataRefEntry(r)]) == Scan(c, cfg, objects, log)
  {
    var items := Candidates(c, log).value;
    assert (log + [DataRefEntry(r)])[..|log|] == log;
    assert Candidates(c, log + [DataRefEntry(r)]) == Ok(items + [Ref(r)]);
    var i :| 0 <= i < |items| && items[i] == Ref(r);
    assert Mentions(items, r.chunkId);
    DistinctIdsFacts(items);
    DistinctIdsGrow(items, [Ref(r)]);
    FirstRewrittenIs(cfg, items, r.chunkId);
    forall id ensures Choose(cfg, items + [Ref(r)], id) == Choose(cfg, items, id) {
      if id == r.chunkId { RewrittenSticks(cfg, items, [Ref(r)], id); } else { ChooseStep(cfg, items, Ref(r), id); }
    }
    SameChoiceSameScan(c, cfg, objects, items, items + [Ref(r)], DistinctIds(items), |DistinctIds(items)|);
  }

  lemma {:induction false} SameChoiceSameScan(c: Codec, cfg: RewriteConfig, objects: Objects, items: seq<Entry>,
          other: seq<Entry>, ids: seq<ChunkId>, n: nat)
    requires n <= |ids| && forall id :: Choose(cfg, other, id) == Choose(cfg, items, id)
    ensures ResolveChosen(c, cfg, objects, other, ids, n) == ResolveChosen(c, cfg, objects, items, ids, n)
  {
    if n > 0 { SameChoiceSameScan(c, cfg, objects, items, other, ids, n - 1); }
  }
}
