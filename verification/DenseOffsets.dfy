/** Record offsets: over every run of commits and rewrites, what stands in a Verse's log is
    numbered densely from zero, whatever is refused or lost. */
module DenseOffsets {
  import opened Prelude
  import opened BlobModel
  import opened BlobStore
  import opened Grouping
  import opened CommitPlan
  import opened CommitVerses
  import opened BlobRewrite
  import opened RewriteRuns
  import opened ContentKeys

  type Logs = map<VerseKey, VerseLog>

  // The pointers of a log that are not rewritten ones, in order.
  function Staged(cfg: RewriteConfig, refs: seq<DataRef>): seq<DataRef> {
    if refs == [] then [] else
      var last := refs[|refs| - 1];
      Staged(cfg, refs[..|refs| - 1]) + (if IsRewrittenBlobKey(cfg, last.blobKey) then [] else [last])
  }

  // Records of the first `n` pointers.
  function Records(refs: seq<DataRef>, n: nat): nat
    requires n <= |refs|
  {
    if n == 0 then 0 else Records(refs, n - 1) + refs[n - 1].recordCount
  }

  // Whatever bytes the pointer's digest is of, they hold one frame, starting at `base`, with as
  // many records as the DataRef counts.
  ghost predicate NumberedAt(c: Codec, r: DataRef, base: nat) {
    forall bytes :: c.digest(bytes) == r.chunkDigest && c.decode(bytes).Some? ==>
      var frames := c.decode(bytes).value.frames;
      |frames| == 1 && frames[0].baseOffset == base && |frames[0].records| == r.recordCount
  }

  ghost predicate Numbered(c: Codec, refs: seq<DataRef>) {
    forall k :: 0 <= k < |refs| ==> NumberedAt(c, refs[k], Records(refs, k))
  }

  /** The log is densely numbered, and its writer knows where it ends unless an append was
      left undecided. */
  ghost predicate DenseLog(c: Codec, cfg: RewriteConfig, log: VerseLog) {
    var refs := Staged(cfg, LogRefs(log.entries));
    && Numbered(c, refs) && Records(refs, |refs|) < U64_LIMIT
    && log.nextOffset <= Records(refs, |refs|) && (!log.poisoned ==> log.nextOffset == Records(refs, |refs|))
  }

  lemma {:induction false} StagedConcat(cfg: RewriteConfig, a: seq<DataRef>, b: seq<DataRef>)
    ensures Staged(cfg, a + b) == Staged(cfg, a) + Staged(cfg, b)
    decreases |b|
  {
    hide IsRewrittenBlobKey;
    if b == [] {
      assert a + b == a;
    } else {
      StagedConcat(cfg, a, b[..|b| - 1]);
      assert (a + b)[..|a + b| - 1] == a + b[..|b| - 1];
    }
  }

  lemma {:induction false} StagedAll(cfg: RewriteConfig, refs: seq<DataRef>)
    requires forall i :: 0 <= i < |refs| ==> !IsRewrittenBlobKey(cfg, refs[i].blobKey)
    ensures Staged(cfg, refs) == refs
  {
    hide IsRewrittenBlobKey;
    if refs != [] {
      StagedAll(cfg, refs[..|refs| - 1]);
      assert refs == refs[..|refs| - 1] + [refs[|refs| - 1]];
    }
  }

  lemma {:induction false} RecordsConcat(a: seq<DataRef>, b: seq<DataRef>, n: nat)
    requires n <= |a| + |b|
    ensures Records(a + b, n) == if n <= |a| then Records(a, n) else Records(a, |a|) + Records(b, n - |a|)
  {
    if n > 0 { RecordsConcat(a, b, n - 1); }
  }

  // Appends. ------------------------------------------------------------------------------------------

  // A chunk the fenced writer accepts is numbered where it expects it.
  lemma {:induction false} AcceptedIsNumbered(c: Codec, expected: nat, s: SealedChunk, r: DataRef)
    requires CollisionFree(c) && IndexAgrees(c) && Accepts(c, expected, s, r)
    ensures NumberedAt(c, r, expected)
  {
    forall bytes | c.digest(bytes) == r.chunkDigest && c.decode(bytes).Some?
      ensures var frames := c.decode(bytes).value.frames;
        |frames| == 1 && frames[0].baseOffset == expected && |frames[0].records| == r.recordCount {
      assert bytes == s.bytes;
    }
  }

  lemma {:induction false} AcceptedAt(c: Codec, start: nat, blob: Blob, group: seq<Placement>, n: nat, i: nat)
    requires i < n <= |group| && AcceptsAll(c, start, blob, group, n)
    ensures Accepts(c, start + RecordTotal(group, i), group[i].sealed, RefOf(blob, group[i]))
  {
    if i < n - 1 { AcceptedAt(c, start, blob, group, n - 1, i); }
  }

  lemma {:induction false} TotalIsRecords(blob: Blob, group: seq<Placement>, n: nat)
    requires n <= |group|
    ensures Records(RefsOf(blob, group), n) == RecordTotal(group, n)
  {
    if n > 0 { TotalIsRecords(blob, group, n - 1); }
  }

  lemma {:induction false} GroupIsNumbered(c: Codec, refs: seq<DataRef>, blob: Blob, group: seq<Placement>)
    requires CollisionFree(c) && IndexAgrees(c) && Numbered(c, refs)
    requires AcceptsAll(c, Records(refs, |refs|), blob, group, |group|)
    ensures Numbered(c, refs + RefsOf(blob, group))
  {
    hide NumberedAt, CollisionFree, IndexAgrees, AcceptsAll, Accepts, Records;
    var more := RefsOf(blob, group);
    var all := refs + more;
    forall k | 0 <= k < |all| ensures NumberedAt(c, all[k], Records(all, k)) {
      RecordsConcat(refs, more, k);
      if k >= |refs| { MemberIsNumbered(c, Records(refs, |refs|), blob, group, k - |refs|); }
      assert k == |refs| ==> Records(more, 0) == 0 by { NoRecords(more); }
    }
  }

  lemma {:induction false} NoRecords(refs: seq<DataRef>)
    ensures Records(refs, 0) == 0
  {
  }

  lemma {:induction false} MemberIsNumbered(c: Codec, start: nat, blob: Blob, group: seq<Placement>, i: nat)
    requires CollisionFree(c) && IndexAgrees(c) && i < |group| && AcceptsAll(c, start, blob, group, |group|)
    ensures NumberedAt(c, RefOf(blob, group[i]), start + Records(RefsOf(blob, group), i))
  {
    hide NumberedAt, CollisionFree, IndexAgrees, AcceptsAll, Accepts, Records, RecordTotal;
    AcceptedAt(c, start, blob, group, |group|, i);
    TotalIsRecords(blob, group, i);
    AcceptedIsNumbered(c, start + RecordTotal(group, i), group[i].sealed, RefOf(blob, group[i]));
  }

  lemma {:induction false} PayloadForRefs(blob: Blob, group: seq<Placement>)
    requires group != []
    ensures PayloadRefs(PayloadFor(blob, group)) == RefsOf(blob, group)
  {
    if |group| == 1 { assert RefsOf(blob, group) == [RefOf(blob, group[0])]; }
  }

  lemma {:induction false} AppendedRefs(cfg: RewriteConfig, log: seq<LogPayload>, p: LogPayload)
    ensures LogRefs(log + [p]) == LogRefs(log) + PayloadRefs(p)
    ensures Staged(cfg, LogRefs(log + [p])) == Staged(cfg, LogRefs(log)) + Staged(cfg, PayloadRefs(p))
  {
    assert (log + [p])[..|log|] == log;
    StagedConcat(cfg, LogRefs(log), PayloadRefs(p));
  }

  lemma {:induction false} LastAccepted(c: Codec, start: nat, blob: Blob, group: seq<Placement>)
    requires group != [] && AcceptsAll(c, start, blob, group, |group|)
    ensures start + RecordTotal(group, |group|) < U64_LIMIT
  {
    assert Accepts(c, start + RecordTotal(group, |group| - 1), group[|group| - 1].sealed,
        RefOf(blob, group[|group| - 1]));
  }

  /** A commit's append keeps the numbering: delivered, refused, dropped or with its answer
      lost. */
  lemma {:induction false} CommitAppendKeeps(c: Codec, cfg: RewriteConfig, log: VerseLog, blob: Blob,
          group: seq<Placement>, fate: Fate)
    requires CollisionFree(c) && IndexAgrees(c) && DenseLog(c, cfg, log) && !IsRewrittenBlobKey(cfg, blob.key)
    ensures DenseLog(c, cfg, AppendDataRefs(c, log, blob, group, fate).0)
  {
    hide Numbered, CollisionFree, IndexAgrees, AcceptsAll, IsRewrittenBlobKey, LogRefs, Staged;
    if Appendable(c, log, blob, group) {
      var refs, more := Staged(cfg, LogRefs(log.entries)), RefsOf(blob, group);
      AppendedRefs(cfg, log.entries, PayloadFor(blob, group));
      PayloadForRefs(blob, group);
      StagedAll(cfg, more);
      GroupIsNumbered(c, refs, blob, group);
      RecordsConcat(refs, more, |refs| + |more|);
      TotalIsRecords(blob, group, |group|);
      LastAccepted(c, log.nextOffset, blob, group);
    }
  }

  /** A superseding append changes nothing of it. */
  lemma {:induction false} SupersedeKeeps(c: Codec, cfg: RewriteConfig, log: VerseLog, r: DataRef, first: nat,
          fate: Fate)
    requires DenseLog(c, cfg, log) && IsRewrittenBlobKey(cfg, r.blobKey)
    ensures DenseLog(c, cfg, AppendSuperseding(log, r, first, fate).0)
  {
    hide Numbered, IsRewrittenBlobKey, LogRefs;
    AppendedRefs(cfg, log.entries, DataRefEntry(r));
    assert [r][..0] == [] && Staged(cfg, [r]) == [];
    var refs := Staged(cfg, LogRefs(log.entries));
    hide Staged;
    assert refs + [] == refs;
  }

  // Commits and passes. -----------------------------------------------------------------------------------

  ghost predicate AllDense(c: Codec, cfg: RewriteConfig, logs: Logs) {
    forall v :: v in logs ==> DenseLog(c, cfg, logs[v])
  }

  lemma {:induction false} GroupsKeep(c: Codec, cfg: RewriteConfig, logs: Logs, blob: Blob,
          byVerse: seq<(VerseKey, seq<Placement>)>, fates: VerseKey -> Fate, n: nat)
    requires n <= |byVerse| && CollisionFree(c) && IndexAgrees(c) && AllDense(c, cfg, logs)
    requires !IsRewrittenBlobKey(cfg, blob.key)
    ensures AllDense(c, cfg, CommitGroups(c, logs, blob, byVerse, fates, n).0)
  {
    hide DenseLog, AppendDataRefs, CollisionFree, IndexAgrees, IsRewrittenBlobKey, SplitAck, Refusals;
    if n > 0 {
      GroupsKeep(c, cfg, logs, blob, byVerse, fates, n - 1);
      var before := CommitGroups(c, logs, blob, byVerse, fates, n - 1).0;
      var (verse, group) := byVerse[n - 1];
      if verse in before { CommitAppendKeeps(c, cfg, before[verse], blob, group, fates(verse)); }
    }
  }

  lemma {:induction false} CommitKeeps(c: Codec, cfg: RewriteConfig, objects: Objects, call: CommitCall)
    requires CollisionFree(c) && IndexAgrees(c) && AllDense(c, cfg, call.logs)
    requires !IsPrefix(cfg.rewrittenPrefix + "/", call.plan.blobPrefix + "/")
    ensures AllDense(c, cfg, Committed(c, objects, call).logs)
  {
    hide PlanLayout, CommitGroups, PutOutcome, Keyed, CollisionFree, IndexAgrees, AllDense, IsRewrittenBlobKey;
    if PlanLayout(c, call.plan, call.sealers).Ok? {
      var layout := PlanLayout(c, call.plan, call.sealers).value;
      var digest := c.digest(layout.bytes);
      var blob, byVerse := Blob(BlobKey(call.plan.blobPrefix, digest), digest), GroupBy(Keyed(layout.placements));
      StagingKeyIsRewritten(cfg, call.plan.blobPrefix, digest);
      GroupsKeep(c, cfg, call.logs, blob, byVerse, call.fates, |byVerse|);
    }
  }

  lemma {:induction false} SupersedeAllKeeps(c: Codec, cfg: RewriteConfig, s: Passing, key: Key, digest: Digest,
          items: seq<Rewritten>, fates: nat -> Fate, n: nat)
    requires n <= |items| && DenseLog(c, cfg, s.log) && IsRewrittenBlobKey(cfg, key)
    ensures DenseLog(c, cfg, SupersedeAll(s, key, digest, items, fates, n).log)
  {
    hide DenseLog, AppendSuperseding, IsRewrittenBlobKey;
    if n > 0 {
      SupersedeAllKeeps(c, cfg, s, key, digest, items, fates, n - 1);
      var mid, item := SupersedeAll(s, key, digest, items, fates, n - 1), items[n - 1];
      SupersedeKeeps(c, cfg, mid.log, Superseding(key, digest, item), item.supersededFirstOffset, fates(n - 1));
    }
  }

  lemma {:induction false} PassKeeps(c: Codec, cfg: RewriteConfig, objects: Objects, call: PassCall)
    requires DenseLog(c, cfg, call.log) && (call.key.Some? ==> IsRewrittenBlobKey(cfg, call.key.value))
    ensures DenseLog(c, cfg, Passed(c, cfg, objects, call).log)
  {
    hide Build, Load, PutOutcome, SupersedeAll, DenseLog;
    var s := Passing(call.log, call.superseded, map[]);
    if SameVerse(call.ps) && call.key.None? && Build(c, objects, call.ps, |call.ps|).Ok? {
      var b := Build(c, objects, call.ps, |call.ps|).value;
      var digest := c.digest(b.bytes);
      var key := RewrittenObjectKey(cfg, call.ps[0].verseKey, digest);
      SupersedeAllKeeps(c, cfg, s, key, digest, b.items, call.fates, |b.items|);
    } else if call.key.Some? && call.key.value in objects && Load(c, objects[call.key.value], call.ps, |call.ps|).Ok? {
      var l := Load(c, objects[call.key.value], call.ps, |call.ps|).value;
      var digest := c.digest(objects[call.key.value]);
      SupersedeAllKeeps(c, cfg, s, call.key.value, digest, l.items, call.fates, |l.items|);
    }
  }

  // Runs. ---------------------------------------------------------------------------------------------------

  datatype Shop = Shop(objects: Objects, logs: Logs)

  /** What may happen: a commit, a rewrite pass over one Verse, or any change of the store. */
  datatype Event =
    | CommitAll(plan: CutPlan, sealers: Sealers, env: nat -> Attempt, fates: VerseKey -> Fate)
    | Rewrite(verse: VerseKey, ps: seq<StagingPointer>, key: Option<Key>, superseded: set<ChunkId>,
              tries: nat -> Attempt, ends: nat -> Fate)
    | Store(objects: Objects)

  function Next(c: Codec, cfg: RewriteConfig, s: Shop, e: Event): Shop {
    match e
    case CommitAll(plan, sealers, env, fates) =>
      var done := Committed(c, s.objects, CommitCall(s.logs, plan, sealers, env, fates));
      Shop(done.objects, done.logs)
    case Rewrite(verse, ps, key, superseded, tries, ends) =>
      if verse !in s.logs then s else
        var done := Passed(c, cfg, s.objects, PassCall(s.logs[verse], ps, key, superseded, tries, ends));
        Shop(done.objects, s.logs[verse := done.log])
    case Store(objects) => s.(objects := objects)
  }

  // Commits stage outside the rewritten prefix, and progress names rewritten objects.
  ghost predicate Apart(cfg: RewriteConfig, e: Event) {
    match e
    case CommitAll(plan, _, _, _) => !IsPrefix(cfg.rewrittenPrefix + "/", plan.blobPrefix + "/")
    case Rewrite(_, _, key, _, _, _) => key.Some? ==> IsRewrittenBlobKey(cfg, key.value)
    case Store(_) => true
  }

  function After(c: Codec, cfg: RewriteConfig, s: Shop, events: seq<Event>): Shop {
    if events == [] then s else Next(c, cfg, After(c, cfg, s, events[..|events| - 1]), events[|events| - 1])
  }

  lemma {:induction false} EventKeeps(c: Codec, cfg: RewriteConfig, s: Shop, e: Event)
    requires CollisionFree(c) && IndexAgrees(c) && AllDense(c, cfg, s.logs) && Apart(cfg, e)
    ensures AllDense(c, cfg, Next(c, cfg, s, e).logs)
  {
    hide Committed, Passed, DenseLog, CollisionFree, IndexAgrees, IsRewrittenBlobKey;
    match e {
      case CommitAll(plan, sealers, env, fates) =>
        CommitKeeps(c, cfg, s.objects, CommitCall(s.logs, plan, sealers, env, fates));
      case Rewrite(verse, ps, key, superseded, tries, ends) =>
        if verse in s.logs {
          PassKeeps(c, cfg, s.objects, PassCall(s.logs[verse], ps, key, superseded, tries, ends));
        }
      case Store(_) =>
    }
  }

  // Verses whose logs are empty.
  ghost predicate Opened(logs: Logs) {
    forall v :: v in logs ==> logs[v] == VerseLog([], 0, false)
  }

  /** Over every run of commits, rewrites and changes of the store, from empty logs: the
      chunks committed to a Verse are numbered densely from zero in log order, each record
      once, and the next commit continues where the log ends. */
  lemma {:induction false} RunsAreDense(c: Codec, cfg: RewriteConfig, s: Shop, events: seq<Event>)
    requires CollisionFree(c) && IndexAgrees(c) && Opened(s.logs)
    requires forall i :: 0 <= i < |events| ==> Apart(cfg, events[i])
    ensures AllDense(c, cfg, After(c, cfg, s, events).logs)
  {
    hide CollisionFree, IndexAgrees, Apart, Next;
    if events == [] {
      forall v | v in s.logs ensures DenseLog(c, cfg, s.logs[v]) { assert Staged(cfg, LogRefs([])) == []; }
    } else {
      RunsAreDense(c, cfg, s, events[..|events| - 1]);
      EventKeeps(c, cfg, After(c, cfg, s, events[..|events| - 1]), events[|events| - 1]);
    }
  }
}
