/** What readers see after a disturbed rewrite is what they see after an undisturbed one. */
module ResumeScan {
  import opened Prelude
  import opened BlobModel
  import opened BlobStore
  import opened BlobScan
  import opened ScanTheorems
  import opened BlobRewrite
  import opened RewriteResume

  // Entries others may add. ------------------------------------------------------------------

  // No rewritten pointer of a chunk of the job but the one the job appends for it.
  ghost predicate HarmlessItem(cfg: RewriteConfig, job: Job, e: Entry) {
    forall i :: 0 <= i < |job.built.items| && job.built.items[i].chunkId == e.Id() && e.Rewritten(cfg) ==>
        e == Ref(Expected(job, i))
  }

  ghost predicate HarmlessItems(cfg: RewriteConfig, job: Job, items: seq<Entry>) {
    forall k :: 0 <= k < |items| ==> HarmlessItem(cfg, job, items[k])
  }

  ghost predicate Harmless(c: Codec, cfg: RewriteConfig, job: Job, p: LogPayload) {
    PayloadEntries(c, p).Ok? ==> HarmlessItems(cfg, job, PayloadEntries(c, p).value)
  }

  ghost predicate AllHarmless(c: Codec, cfg: RewriteConfig, job: Job, entries: seq<LogPayload>) {
    forall k :: 0 <= k < |entries| ==> Harmless(c, cfg, job, entries[k])
  }

  // The entries that are not the job's own.
  ghost function Foreign(job: Job, entries: seq<LogPayload>): seq<LogPayload> {
    if entries == [] then [] else
      var front, last := Foreign(job, entries[..|entries| - 1]), entries[|entries| - 1];
      if IsExpected(job, last) then front else front + [last]
  }

  lemma {:induction false} ForeignIn(job: Job, entries: seq<LogPayload>, p: LogPayload)
    requires p in Foreign(job, entries)
    ensures p in entries
  {
    if p !in [entries[|entries| - 1]] { ForeignIn(job, entries[..|entries| - 1], p); }
  }

  lemma {:induction false} ForeignOfOwn(job: Job, entries: seq<LogPayload>)
    requires forall k :: 0 <= k < |entries| ==> IsExpected(job, entries[k])
    ensures Foreign(job, entries) == []
  {
    hide IsExpected;
    if entries != [] { ForeignOfOwn(job, entries[..|entries| - 1]); }
  }

  lemma {:induction false} ExpectedHarmless(c: Codec, cfg: RewriteConfig, job: Job, p: LogPayload)
    requires DistinctChunks(job) && IsExpected(job, p)
    ensures Harmless(c, cfg, job, p)
  {
    var i :| 0 <= i < |job.built.items| && p == DataRefEntry(Expected(job, i));
    forall k | 0 <= k < |job.built.items| && job.built.items[k].chunkId == job.built.items[i].chunkId ensures k == i { }
  }

  // All candidates of harmless entries are harmless.
  lemma {:induction false} HarmlessCandidates(c: Codec, cfg: RewriteConfig, job: Job, entries: seq<LogPayload>)
    requires AllHarmless(c, cfg, job, entries) && Candidates(c, entries).Ok?
    ensures HarmlessItems(cfg, job, Candidates(c, entries).value)
  {
    hide HarmlessItem;
    if entries != [] {
      var n := |entries| - 1;
      HarmlessCandidates(c, cfg, job, entries[..n]);
      assert Harmless(c, cfg, job, entries[n]);
      hide PayloadEntries, HarmlessItems;
      HarmlessConcat(cfg, job, Candidates(c, entries[..n]).value, PayloadEntries(c, entries[n]).value);
    }
  }

  lemma {:induction false} HarmlessConcat(cfg: RewriteConfig, job: Job, a: seq<Entry>, b: seq<Entry>)
    requires HarmlessItems(cfg, job, a) && HarmlessItems(cfg, job, b)
    ensures HarmlessItems(cfg, job, a + b)
  {
    hide HarmlessItem;
    forall k | 0 <= k < |a + b| ensures HarmlessItem(cfg, job, (a + b)[k]) {
      if k < |a| { assert (a + b)[k] == a[k]; } else { assert (a + b)[k] == b[k - |a|]; }
    }
  }

  lemma {:induction false} ForeignHarmless(c: Codec, cfg: RewriteConfig, job: Job, entries: seq<LogPayload>)
    requires AllHarmless(c, cfg, job, entries)
    ensures AllHarmless(c, cfg, job, Foreign(job, entries))
  {
    hide Harmless, Foreign;
    forall k | 0 <= k < |Foreign(job, entries)| ensures Harmless(c, cfg, job, Foreign(job, entries)[k]) {
      ForeignIn(job, entries, Foreign(job, entries)[k]);
    }
  }

  // With and without the job's own entries. ---------------------------------------------------

  ghost predicate JobChunk(job: Job, id: ChunkId) {
    exists i :: 0 <= i < |job.built.items| && job.built.items[i].chunkId == id
  }

  // Every chunk of the job is one the log holds.
  ghost predicate InBase(job: Job, base: seq<Entry>) {
    forall i :: 0 <= i < |job.built.items| ==> job.built.items[i].chunkId in DistinctIds(base)
  }

  lemma {:induction false} ChooseTogether(cfg: RewriteConfig, a: seq<Entry>, b: seq<Entry>, more: seq<Entry>,
          id: ChunkId)
    requires Choose(cfg, a, id) == Choose(cfg, b, id)
    ensures Choose(cfg, a + more, id) == Choose(cfg, b + more, id)
    decreases |more|
  {
    hide Choose;
    if more == [] {
      assert a + more == a && b + more == b;
    } else {
      var n := |more| - 1;
      ChooseTogether(cfg, a, b, more[..n], id);
      assert a + more == (a + more[..n]) + [more[n]] && b + more == (b + more[..n]) + [more[n]];
      ChooseStep(cfg, a + more[..n], more[n], id);
      ChooseStep(cfg, b + more[..n], more[n], id);
    }
  }

  lemma {:induction false} IdsTogether(a: seq<Entry>, b: seq<Entry>, more: seq<Entry>)
    requires DistinctIds(a) == DistinctIds(b)
    ensures DistinctIds(a + more) == DistinctIds(b + more)
    decreases |more|
  {
    if more == [] {
      assert a + more == a && b + more == b;
    } else {
      var n := |more| - 1;
      IdsTogether(a, b, more[..n]);
      assert (a + more)[..|a + more| - 1] == a + more[..n] && (b + more)[..|b + more| - 1] == b + more[..n];
    }
  }

  // What the two logs make of one more entry, the job's own or not.
  ghost predicate Alike(cfg: RewriteConfig, job: Job, a: seq<Entry>, b: seq<Entry>) {
    DistinctIds(a) == DistinctIds(b) && forall id :: !JobChunk(job, id) ==> Choose(cfg, a, id) == Choose(cfg, b, id)
  }

  lemma {:induction false} AlikeTogether(cfg: RewriteConfig, job: Job, a: seq<Entry>, b: seq<Entry>, more: seq<Entry>)
    requires Alike(cfg, job, a, b)
    ensures Alike(cfg, job, a + more, b + more)
  {
    hide Choose, DistinctIds, JobChunk;
    IdsTogether(a, b, more);
    forall id | !JobChunk(job, id) ensures Choose(cfg, a + more, id) == Choose(cfg, b + more, id) {
      ChooseTogether(cfg, a, b, more, id);
    }
  }

  lemma {:induction false} AlikeOwn(cfg: RewriteConfig, job: Job, base: seq<Entry>, a: seq<Entry>, b: seq<Entry>,
          i: nat)
    requires Alike(cfg, job, a, b) && InBase(job, base) && base <= a && i < |job.built.items|
    ensures Alike(cfg, job, a + [Ref(Expected(job, i))], b)
  {
    hide Choose;
    var e := Ref(Expected(job, i));
    assert a == base + a[|base|..];
    DistinctIdsGrow(base, a[|base|..]);
    DistinctIdsGrow(a, [e]);
    hide DistinctIds;
    assert e.Id() in DistinctIds(a);
    forall id | !JobChunk(job, id) ensures Choose(cfg, a + [e], id) == Choose(cfg, b, id) { ChooseStep(cfg, a, e, id); }
  }

  lemma {:induction false} AlikeForeign(c: Codec, cfg: RewriteConfig, job: Job, base: seq<Entry>,
          entries: seq<LogPayload>)
    requires InBase(job, base) && Candidates(c, entries).Ok?
    ensures Candidates(c, Foreign(job, entries)).Ok?
    ensures Alike(cfg, job, base + Candidates(c, entries).value, base + Candidates(c, Foreign(job, entries)).value)
  {
    hide Alike, PayloadEntries, IsExpected, InBase;
    if entries == [] {
      AlikeSame(cfg, job, base + []);
    } else {
      var n := |entries| - 1;
      AlikeForeign(c, cfg, job, base, entries[..n]);
      var front, back := Candidates(c, entries[..n]).value, PayloadEntries(c, entries[n]).value;
      var rest := Candidates(c, Foreign(job, entries[..n])).value;
      ConcatAssoc(base, front, back);
      if IsExpected(job, entries[n]) {
        var i := ExpectedItem(c, job, entries[n]);
        AlikeOwn(cfg, job, base, base + front, base + rest, i);
      } else {
        AlikeTogether(cfg, job, base + front, base + rest, back);
        ConcatAssoc(base, rest, back);
        assert Foreign(job, entries)[..|Foreign(job, entries)| - 1] == Foreign(job, entries[..n]);
      }
    }
  }

  lemma {:induction false} AlikeSame(cfg: RewriteConfig, job: Job, a: seq<Entry>)
    ensures Alike(cfg, job, a, a)
  {
  }

  lemma {:induction false} ExpectedItem(c: Codec, job: Job, p: LogPayload) returns (i: nat)
    requires IsExpected(job, p)
    ensures i < |job.built.items| && p == DataRefEntry(Expected(job, i)) &&
      PayloadEntries(c, p) == Ok([Ref(Expected(job, i))])
  {
    i :| 0 <= i < |job.built.items| && p == DataRefEntry(Expected(job, i));
  }

  // An entry nobody can read is not the job's, so it is there either way.
  lemma {:induction false} UnreadableForeign(c: Codec, job: Job, entries: seq<LogPayload>)
    requires Candidates(c, entries).Err?
    ensures Candidates(c, Foreign(job, entries)) == Candidates(c, entries)
  {
    var n := |entries| - 1;
    var front, foreign := entries[..n], Foreign(job, entries);
    if Candidates(c, front).Err? {
      UnreadableForeign(c, job, front);
    } else {
      ReadableForeign(c, job, front);
    }
    if !IsExpected(job, entries[n]) { assert foreign[..|foreign| - 1] == Foreign(job, front); }
  }

  lemma {:induction false} ReadableForeign(c: Codec, job: Job, entries: seq<LogPayload>)
    requires Candidates(c, entries).Ok?
    ensures Candidates(c, Foreign(job, entries)).Ok?
  {
    hide IsExpected, PayloadEntries;
    if entries != [] {
      var front, foreign := entries[..|entries| - 1], Foreign(job, entries);
      ReadableForeign(c, job, front);
      if !IsExpected(job, entries[|entries| - 1]) { assert foreign[..|foreign| - 1] == Foreign(job, front); }
    }
  }

  // The job's chunks. ---------------------------------------------------------------------------

  // `r` is in the list, and no other rewritten pointer of its chunk is.
  ghost predicate Sole(cfg: RewriteConfig, items: seq<Entry>, r: DataRef) {
    IsRewrittenBlobKey(cfg, r.blobKey) && Ref(r) in items &&
    forall k :: 0 <= k < |items| && items[k].Rewritten(cfg) && items[k].Id() == r.chunkId ==> items[k] == Ref(r)
  }

  lemma {:induction false} ChooseSole(cfg: RewriteConfig, base: seq<Entry>, items: seq<Entry>, r: DataRef)
    requires FirstRewritten(cfg, base, r.chunkId).None? && Sole(cfg, items, r)
    ensures Choose(cfg, base + items, r.chunkId) == Some(Ref(r))
  {
    var all := base + items;
    FirstRewrittenIs(cfg, base, r.chunkId);
    FirstRewrittenIs(cfg, all, r.chunkId);
    hide FirstRewritten;
    var k :| 0 <= k < |items| && items[k] == Ref(r);
    assert all[|base| + k] == Ref(r);
    var i :| 0 <= i < |all| && all[i].Rewritten(cfg) && all[i] == Ref(FirstRewritten(cfg, all, r.chunkId).value) &&
        all[i].Id() == r.chunkId;
    assert i >= |base| && all[i] == items[i - |base|];
  }

  lemma {:induction false} SoleHarmless(cfg: RewriteConfig, job: Job, items: seq<Entry>, i: nat)
    requires IsRewrittenBlobKey(cfg, job.key) && HarmlessItems(cfg, job, items) && i < |job.built.items| &&
      Ref(Expected(job, i)) in items
    ensures Sole(cfg, items, Expected(job, i))
  {
    var r := Expected(job, i);
    forall k | 0 <= k < |items| && items[k].Rewritten(cfg) && items[k].Id() == r.chunkId ensures items[k] == Ref(r) {
      assert HarmlessItem(cfg, job, items[k]);
    }
  }

  lemma {:induction false} ExpectedRefsAt(job: Job, n: nat)
    requires n <= |job.built.items|
    ensures |ExpectedRefs(job, n)| == n && forall i :: 0 <= i < n ==> ExpectedRefs(job, n)[i] == Expected(job, i)
  {
    if n > 0 { ExpectedRefsAt(job, n - 1); }
  }

  // The items of the job's own pointers, in order.
  ghost function OwnItems(job: Job): seq<Entry> {
    RefEntries(ExpectedRefs(job, |job.built.items|))
  }

  lemma {:induction false} OwnItemsAt(job: Job)
    ensures |OwnItems(job)| == |job.built.items|
    ensures forall i :: 0 <= i < |job.built.items| ==> OwnItems(job)[i] == Ref(Expected(job, i))
  {
    ExpectedRefsAt(job, |job.built.items|);
    RefEntriesAt(ExpectedRefs(job, |job.built.items|));
  }

  lemma {:induction false} OwnHarmless(cfg: RewriteConfig, job: Job)
    requires DistinctChunks(job)
    ensures HarmlessItems(cfg, job, OwnItems(job))
  {
    OwnItemsAt(job);
    hide OwnItems;
    forall k | 0 <= k < |OwnItems(job)| ensures HarmlessItem(cfg, job, OwnItems(job)[k]) {
      forall i | 0 <= i < |job.built.items| && job.built.items[i].chunkId == job.built.items[k].chunkId
          ensures i == k { }
    }
  }

  // Adding the job's own pointers after everything changes no other chunk and no order.
  lemma {:induction false} AlikeAfter(cfg: RewriteConfig, job: Job, base: seq<Entry>, a: seq<Entry>, b: seq<Entry>,
          n: nat)
    requires Alike(cfg, job, a, b) && InBase(job, base) && base <= b && n <= |OwnItems(job)|
    ensures Alike(cfg, job, a, b + OwnItems(job)[..n])
  {
    OwnItemsAt(job);
    hide Alike, InBase, OwnItems, Expected;
    if n == 0 {
      assert b + OwnItems(job)[..0] == b;
    } else {
      AlikeAfter(cfg, job, base, a, b, n - 1);
      var longer := b + OwnItems(job)[..n - 1];
      AlikeSwap(cfg, job, a, longer);
      AlikeOwn(cfg, job, base, longer, a, n - 1);
      AlikeSwap(cfg, job, longer + [OwnItems(job)[n - 1]], a);
      assert longer + [OwnItems(job)[n - 1]] == b + OwnItems(job)[..n];
    }
  }

  lemma {:induction false} AlikeSwap(cfg: RewriteConfig, job: Job, a: seq<Entry>, b: seq<Entry>)
    requires Alike(cfg, job, a, b)
    ensures Alike(cfg, job, b, a)
  {
  }

  // A chunk of the job: the old rewritten pointer if the log had one, else the job's.
  lemma {:induction false} SameForJob(cfg: RewriteConfig, job: Job, base: seq<Entry>, a: seq<Entry>, b: seq<Entry>,
          i: nat)
    requires IsRewrittenBlobKey(cfg, job.key) && i < |job.built.items| && HarmlessItems(cfg, job, a) &&
      HarmlessItems(cfg, job, b)
    requires Ref(Expected(job, i)) in base + a && Ref(Expected(job, i)) in b
    ensures Choose(cfg, base + a, job.built.items[i].chunkId) == Choose(cfg, base + b, job.built.items[i].chunkId)
  {
    var r := Expected(job, i);
    hide Choose, HarmlessItems, FirstRewritten, Expected;
    if FirstRewritten(cfg, base, r.chunkId).Some? {
      RewrittenSticks(cfg, base, a, r.chunkId);
      RewrittenSticks(cfg, base, b, r.chunkId);
    } else {
      FirstRewrittenIs(cfg, base, r.chunkId);
      NotOld(cfg, job, base, i);
      SoleHarmless(cfg, job, a, i);
      SoleHarmless(cfg, job, b, i);
      ChooseSole(cfg, base, a, r);
      ChooseSole(cfg, base, b, r);
    }
  }

  lemma {:induction false} NotOld(cfg: RewriteConfig, job: Job, base: seq<Entry>, i: nat)
    requires IsRewrittenBlobKey(cfg, job.key) && i < |job.built.items|
    requires forall k :: 0 <= k < |base| ==> !(base[k].Rewritten(cfg) && base[k].Id() == job.built.items[i].chunkId)
    ensures Ref(Expected(job, i)) !in base && Expected(job, i).chunkId == job.built.items[i].chunkId
  {
  }

  // Logs with the same base. ---------------------------------------------------------------------

  lemma {:induction false} PointerIsCandidate(c: Codec, log: seq<LogPayload>, r: DataRef)
    requires Candidates(c, log).Ok? && DataRefEntry(r) in log
    ensures Ref(r) in Candidates(c, log).value
  {
    var n := |log| - 1;
    if DataRefEntry(r) in log[..n] { PointerIsCandidate(c, log[..n], r); }
  }

  // What the disturbed and the undisturbed log add to the base, and which chunk each id gives.
  lemma {:induction false} SameChoice(cfg: RewriteConfig, job: Job, base: seq<Entry>, a: seq<Entry>, b: seq<Entry>,
          id: ChunkId)
    requires IsRewrittenBlobKey(cfg, job.key) && DistinctChunks(job) && HarmlessItems(cfg, job, a) &&
      HarmlessItems(cfg, job, b)
    requires forall i :: 0 <= i < |job.built.items| ==> Ref(Expected(job, i)) in base + a
    requires Alike(cfg, job, base + a, base + (b + OwnItems(job)))
    ensures Choose(cfg, base + a, id) == Choose(cfg, base + (b + OwnItems(job)), id)
  {
    OwnItemsAt(job);
    OwnHarmless(cfg, job);
    HarmlessConcat(cfg, job, b, OwnItems(job));
    hide Choose, HarmlessItems, OwnItems;
    if JobChunk(job, id) {
      var i :| 0 <= i < |job.built.items| && job.built.items[i].chunkId == id;
      assert Ref(Expected(job, i)) == OwnItems(job)[i];
      SameForJob(cfg, job, base, a, b + OwnItems(job), i);
    }
  }

  lemma {:induction false} UndisturbedCandidates(c: Codec, job: Job, log: seq<LogPayload>, foreign: seq<LogPayload>)
    requires Candidates(c, log).Ok? && Candidates(c, foreign).Ok?
    ensures Candidates(c, (log + foreign) + SupersedingEntries(ExpectedRefs(job, |job.built.items|)))
         == Ok(Candidates(c, log).value + (Candidates(c, foreign).value + OwnItems(job)))
  {
    hide Candidates, SupersedingEntries;
    var refs := ExpectedRefs(job, |job.built.items|);
    SupersedingCandidates(c, refs);
    CandidatesAppend(c, log, foreign);
    CandidatesAppend(c, log + foreign, SupersedingEntries(refs));
    ConcatAssoc(Candidates(c, log).value, Candidates(c, foreign).value, OwnItems(job));
  }

  /** A log that holds all the job's pointers, among harmless entries in whatever order, scans
      like the log in which they come last, once each and in order. */
  lemma {:induction false} SameScan(c: Codec, cfg: RewriteConfig, job: Job, store: Objects, log: seq<LogPayload>,
          added: seq<LogPayload>)
    requires IsRewrittenBlobKey(cfg, job.key) && DistinctChunks(job) && AllHarmless(c, cfg, job, added)
    requires Candidates(c, log).Ok? && InBase(job, Candidates(c, log).value)
    requires forall i :: 0 <= i < |job.built.items| ==> DataRefEntry(Expected(job, i)) in log + added
    ensures Scan(c, cfg, store, log + added)
         == Scan(c, cfg, store, (log + Foreign(job, added)) + SupersedingEntries(ExpectedRefs(job, |job.built.items|)))
  {
    hide Candidates, DistinctIds, Choose, HarmlessItems, Harmless, Foreign, SupersedingEntries, OwnItems, ExpectedRefs,
        InBase, ResolveChosen, IsRewrittenBlobKey;
    var foreign, all := Foreign(job, added), SupersedingEntries(ExpectedRefs(job, |job.built.items|));
    CandidatesAppend(c, log, added);
    if Candidates(c, added).Err? {
      UnreadableForeign(c, job, added);
      CandidatesAppend(c, log, foreign);
      CandidatesAppend(c, log + foreign, all);
    } else {
      var base, a := Candidates(c, log).value, Candidates(c, added).value;
      AlikeForeign(c, cfg, job, base, added);
      var b := Candidates(c, foreign).value;
      ForeignHarmless(c, cfg, job, added);
      HarmlessCandidates(c, cfg, job, added);
      HarmlessCandidates(c, cfg, job, foreign);
      UndisturbedCandidates(c, job, log, foreign);
      AlikeAfter(cfg, job, base, base + a, base + b, |OwnItems(job)|);
      ConcatAssoc(base, b, OwnItems(job));
      assert OwnItems(job)[..|OwnItems(job)|] == OwnItems(job);
      forall i | 0 <= i < |job.built.items| ensures Ref(Expected(job, i)) in base + a {
        PointerIsCandidate(c, log + added, Expected(job, i));
      }
      var other := base + (b + OwnItems(job));
      forall id ensures Choose(cfg, other, id) == Choose(cfg, base + a, id) { SameChoice(cfg, job, base, a, b, id); }
      SameChoiceSameScan(c, cfg, store, base + a, other, DistinctIds(other), |DistinctIds(other)|);
    }
  }

  // A disturbed rewrite. ------------------------------------------------------------------------

  // Passes and lost progress only: nobody else writes to the log meanwhile.
  ghost predicate Own(ms: seq<Move>) {
    forall i :: 0 <= i < |ms| ==> !ms[i].Outside?
  }

  /** What others write to the log meanwhile is harmless: commits of a live Verse, recovery
      after a lost answer, even the job's own pointers. */
  ghost predicate Gentle(c: Codec, cfg: RewriteConfig, job: Job, s: State, ms: seq<Move>)
    decreases ms
  {
    ms == [] ||
    (GentleMove(c, cfg, job, s, ms[0]) && Gentle(c, cfg, job, Moved(c, cfg, job, s, ms[0]), ms[1..]))
  }

  ghost predicate GentleMove(c: Codec, cfg: RewriteConfig, job: Job, s: State, m: Move) {
    m.Outside? && |s.log.entries| <= |m.log.entries| ==> AllHarmless(c, cfg, job, m.log.entries[|s.log.entries|..])
  }

  lemma {:induction false} MoveAdds(c: Codec, cfg: RewriteConfig, job: Job, s: State, m: Move)
    returns (added: seq<LogPayload>)
    requires CollisionFree(c) && IsJob(c, cfg, job) && DistinctChunks(job) && Sound(job, s) && Allowed(s, m) &&
      GentleMove(c, cfg, job, s, m)
    ensures Moved(c, cfg, job, s, m).log.entries == s.log.entries + added && AllHarmless(c, cfg, job, added)
    ensures !m.Outside? ==> forall k :: 0 <= k < |added| ==> IsExpected(job, added[k])
  {
    var after := Moved(c, cfg, job, s, m).log.entries;
    if m.Pass? { MoveKeepsSound(c, cfg, job, s, m); }
    assert IsPrefix(s.log.entries, after);
    added := after[|s.log.entries|..];
    hide RewritePass, IsExpected, Harmless, CollisionFree, IsJob, Sound;
    assert after == s.log.entries + added;
    if !m.Outside? {
      forall k | 0 <= k < |added| ensures IsExpected(job, added[k]) && Harmless(c, cfg, job, added[k]) {
        assert added[k] == after[|s.log.entries| + k];
        ExpectedHarmless(c, cfg, job, added[k]);
      }
    }
  }

  lemma {:induction false} MovesAdd(c: Codec, cfg: RewriteConfig, job: Job, s: State, ms: seq<Move>)
    returns (added: seq<LogPayload>)
    requires CollisionFree(c) && IsJob(c, cfg, job) && DistinctChunks(job) && Sound(job, s)
    requires MovesAllowed(c, cfg, job, s, ms) && Gentle(c, cfg, job, s, ms)
    ensures AfterMoves(c, cfg, job, s, ms).log.entries == s.log.entries + added && AllHarmless(c, cfg, job, added)
    ensures Own(ms) ==> forall k :: 0 <= k < |added| ==> IsExpected(job, added[k])
    decreases ms
  {
    if ms == [] {
      added := [];
      assert s.log.entries + [] == s.log.entries;
    } else {
      hide Moved, IsExpected, Harmless, CollisionFree, IsJob, Sound, Allowed, DistinctChunks, GentleMove;
      MoveKeepsSound(c, cfg, job, s, ms[0]);
      var first := MoveAdds(c, cfg, job, s, ms[0]);
      var rest := MovesAdd(c, cfg, job, Moved(c, cfg, job, s, ms[0]), ms[1..]);
      added := first + rest;
      ConcatAssoc(s.log.entries, first, rest);
    }
  }

  // The rewrite is done: every pointer's chunk is recorded as superseded.
  ghost predicate Complete(job: Job, s: State) {
    forall i :: 0 <= i < |job.built.items| ==> job.built.items[i].chunkId in s.superseded
  }

  lemma {:induction false} JobKey(c: Codec, cfg: RewriteConfig, job: Job)
    requires IsJob(c, cfg, job)
    ensures IsRewrittenBlobKey(cfg, job.key)
  {
    var origin :| JobFor(c, cfg, origin, job);
  }

  lemma {:induction false} CompleteHolds(job: Job, s: State, i: nat)
    requires DistinctChunks(job) && Sound(job, s) && Complete(job, s) && i < |job.built.items|
    ensures DataRefEntry(Expected(job, i)) in s.log.entries
  {
    assert SupersededIn(job, s.log, job.built.items[i].chunkId);
    var k :| SupersededBy(job, s.log, job.built.items[i].chunkId, k);
    assert k == i;
  }

  /** However often a rewrite was refused, interrupted, made to forget and repeated, and
      whatever harmless entries others appended meanwhile, once it is complete every scan of
      the log is, to the letter, the scan after those entries and one undisturbed pass, which
      appends the expected pointers once each and in order. */
  lemma {:induction false} ResumedScanIsSame(c: Codec, cfg: RewriteConfig, job: Job, objects: Objects, log: VerseLog,
          ms: seq<Move>, store: Objects)
    returns (added: seq<LogPayload>)
    requires CollisionFree(c) && IsJob(c, cfg, job) && DistinctChunks(job)
    requires MovesAllowed(c, cfg, job, Fresh(objects, log), ms) && Gentle(c, cfg, job, Fresh(objects, log), ms)
    requires Complete(job, AfterMoves(c, cfg, job, Fresh(objects, log), ms))
    requires Candidates(c, log.entries).Ok? && InBase(job, Candidates(c, log.entries).value)
    ensures AfterMoves(c, cfg, job, Fresh(objects, log), ms).log.entries == log.entries + added
    ensures Own(ms) ==> Foreign(job, added) == []
    ensures Scan(c, cfg, store, AfterMoves(c, cfg, job, Fresh(objects, log), ms).log.entries)
         == Scan(c, cfg, store, (log.entries + Foreign(job, added)) +
             SupersedingEntries(ExpectedRefs(job, |job.built.items|)))
  {
    hide AfterMoves, MovesAllowed, Gentle, Scan, Candidates, CollisionFree, IsJob, SupersedingEntries, ExpectedRefs,
        Complete, Foreign, InBase, Harmless, IsExpected, IsRewrittenBlobKey;
    JobKey(c, cfg, job);
    var s := Fresh(objects, log);
    var end := AfterMoves(c, cfg, job, s, ms);
    MovesKeepSound(c, cfg, job, s, ms);
    added := MovesAdd(c, cfg, job, s, ms);
    if Own(ms) { ForeignOfOwn(job, added); }
    hide Sound;
    forall i | 0 <= i < |job.built.items| ensures DataRefEntry(Expected(job, i)) in log.entries + added {
      CompleteHolds(job, end, i);
    }
    SameScan(c, cfg, job, store, log.entries, added);
  }
}
