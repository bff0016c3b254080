/** Which commits are acknowledged, from the sealed chunks alone, and why the others are not. */
module CommitAcks {
  import opened Prelude
  import opened BlobModel
  import opened BlobStore
  import opened BlobReader
  import opened Grouping
  import opened CommitPlan
  import opened CommitVerses
  import opened CommitTheorems
  import opened CommitAnswers

  // The one frame of a sealed chunk, as its index tells it.
  function FrameOf(c: Codec, s: SealedChunk): (r: Option<FrameRef>)
    ensures r.Some? ==> c.index(s.bytes).Some?
  {
    if c.index(s.bytes).Some? && |c.index(s.bytes).value.frames| == 1
    then Some(c.index(s.bytes).value.frames[0]) else None
  }

  // Records of the first `n` chunks.
  function CountOf(c: Codec, chunks: seq<SealedChunk>, n: nat): nat
    requires n <= |chunks|
  {
    if n == 0 then 0 else
      CountOf(c, chunks, n - 1) + (if FrameOf(c, chunks[n - 1]).Some? then FrameOf(c, chunks[n - 1]).value.recordCount
          else 0)
  }

  /** The chunks continue a log whose next offset is `next`: each is what it says it is, with
      one frame that starts where the one before ends, and together they fit one entry. */
  ghost predicate Continues(c: Codec, next: nat, chunks: seq<SealedChunk>) {
    && 1 <= |chunks| <= 65535 && next + CountOf(c, chunks, |chunks|) < U64_LIMIT
    && (|chunks| > 1 ==> CountOf(c, chunks, |chunks|) < U32_LIMIT)
    && forall i :: 0 <= i < |chunks| ==>
        && FrameOf(c, chunks[i]).Some? && c.index(chunks[i].bytes).value.chunkId == chunks[i].chunkId
        && FrameOf(c, chunks[i]).value.baseOffset == next + CountOf(c, chunks, i)
  }

  function ChunksOf(group: seq<Placement>): (chunks: seq<SealedChunk>)
    ensures |chunks| == |group| && forall i :: 0 <= i < |group| ==> chunks[i] == group[i].sealed
  {
    if group == [] then [] else ChunksOf(group[..|group| - 1]) + [group[|group| - 1].sealed]
  }

  // Placements as a layout makes them.
  ghost predicate PlacedWell(c: Codec, group: seq<Placement>) {
    forall i :: 0 <= i < |group| ==> PlacedOne(c, group[i])
  }

  ghost predicate PlacedOne(c: Codec, p: Placement) {
    && FrameOf(c, p.sealed).Some? && p.recordCount == FrameOf(c, p.sealed).value.recordCount
    && c.digest(p.sealed.bytes) == p.sealed.digest
  }

  lemma {:induction false} TotalIsCount(c: Codec, group: seq<Placement>, n: nat)
    requires n <= |group| && PlacedWell(c, group)
    ensures RecordTotal(group, n) == CountOf(c, ChunksOf(group), n)
  {
    hide FrameOf;
    if n > 0 {
      TotalIsCount(c, group, n - 1);
      assert PlacedOne(c, group[n - 1]);
    }
  }

  // One chunk's check, told from its index.
  lemma {:induction false} AcceptsExactly(c: Codec, expected: nat, blob: Blob, p: Placement)
    requires PlacedOne(c, p) && RefOf(blob, p).Valid()
    ensures Accepts(c, expected, p.sealed, RefOf(blob, p)) <==>
      && c.index(p.sealed.bytes).value.chunkId == p.sealed.chunkId
      && FrameOf(c, p.sealed).value.baseOffset == expected && expected + p.recordCount < U64_LIMIT
  {
  }

  ghost predicate Continued(c: Codec, start: nat, group: seq<Placement>, i: nat)
    requires i < |group|
  {
    && FrameOf(c, group[i].sealed).Some? && c.index(group[i].sealed.bytes).value.chunkId == group[i].sealed.chunkId
    && FrameOf(c, group[i].sealed).value.baseOffset == start + RecordTotal(group, i)
    && start + RecordTotal(group, i + 1) < U64_LIMIT
  }

  lemma {:induction false} AcceptsAllExactly(c: Codec, start: nat, blob: Blob, group: seq<Placement>, n: nat)
    requires n <= |group| && PlacedWell(c, group) && Encodable(blob, group)
    ensures AcceptsAll(c, start, blob, group, n) <==> forall i :: 0 <= i < n ==> Continued(c, start, group, i)
  {
    hide Accepts, FrameOf, RefOf;
    if n > 0 {
      AcceptsAllExactly(c, start, blob, group, n - 1);
      assert PlacedOne(c, group[n - 1]) && RefOf(blob, group[n - 1]).Valid();
      AcceptsExactly(c, start + RecordTotal(group, n - 1), blob, group[n - 1]);
      assert RecordTotal(group, n) == RecordTotal(group, n - 1) + group[n - 1].recordCount;
      assert Accepts(c, start + RecordTotal(group, n - 1), group[n - 1].sealed, RefOf(blob, group[n - 1])) <==>
          Continued(c, start, group, n - 1);
    }
  }

  lemma {:induction false} AppendableExactly(c: Codec, log: VerseLog, blob: Blob, group: seq<Placement>)
    requires PlacedWell(c, group) && Encodable(blob, group)
    ensures Appendable(c, log, blob, group) <==> !log.poisoned && Continues(c, log.nextOffset, ChunksOf(group))
  {
    hide FrameOf, AcceptsAll, Encodable, RecordTotal, CountOf, PlacedWell;
    var chunks, next := ChunksOf(group), log.nextOffset;
    AcceptsAllExactly(c, next, blob, group, |group|);
    forall n | 0 <= n <= |group| ensures
      && RecordTotal(group, n) == CountOf(c, chunks, n) && RecordTotal(group, n) <= RecordTotal(group, |group|)
    {
      TotalIsCount(c, group, n);
      RecordTotalMonotone(group, n, |group|);
    }
    if Appendable(c, log, blob, group) {
      assert Continued(c, next, group, |group| - 1);
      forall i | 0 <= i < |chunks| ensures
        && FrameOf(c, chunks[i]).Some? && c.index(chunks[i].bytes).value.chunkId == chunks[i].chunkId
        && FrameOf(c, chunks[i]).value.baseOffset == next + CountOf(c, chunks, i)
      {
        assert Continued(c, next, group, i);
      }
    }
    if Continues(c, next, chunks) {
      forall i | 0 <= i < |group| ensures Continued(c, next, group, i) { assert chunks[i] == group[i].sealed; }
    }
  }

  /** What one Verse's group is answered. */
  ghost predicate AckedOrWhy(c: Codec, logs: Logs, verse: VerseKey, chunks: seq<SealedChunk>, fate: Fate,
          outs: seq<PlacementOutcome>)
  {
    var good := verse in logs && !logs[verse].poisoned && fate.Delivered? &&
        Continues(c, logs[verse].nextOffset, chunks);
    && |outs| == |chunks|
    && forall i :: 0 <= i < |outs| ==>
        && (outs[i].result.Ok? <==> good)
        && (!good ==> outs[i].result == Err(if i > 0 then SharedFailure
              else if verse !in logs then NoTarget(verse) else AppendRefused))
  }

  lemma {:induction false} GroupAckedOrWhy(c: Codec, logs: Logs, blob: Blob, verse: VerseKey, group: seq<Placement>,
          fate: Fate)
    requires group != [] && PlacedWell(c, group) && Encodable(blob, group)
    ensures CommitGroup(c, logs, blob, verse, group, fate).1.Ok?
    ensures AckedOrWhy(c, logs, verse, ChunksOf(group), fate, CommitGroup(c, logs, blob, verse, group, fate).1.value)
  {
    hide Appendable, Continues, Refusals, SplitAck, PlacedWell, Encodable, RefsOf;
    EncodableNoFault(blob, group);
    if verse !in logs {
      RefusalsAll(verse, NoTarget(verse), group, |group|);
    } else {
      AppendableExactly(c, logs[verse], blob, group);
      AppendAnswered(c, logs[verse], blob, verse, group, fate);
      var reply := AppendDataRefs(c, logs[verse], blob, group, fate).1;
      if reply.Err? { RefusalsAll(verse, reply.error, group, |group|); }
    }
  }

  // Commits. ----------------------------------------------------------------------------------------------

  lemma {:induction false} PlacedWellAll(c: Codec, items: seq<(VerseKey, SealedChunk)>, n: nat)
    requires n <= |items| && PlaceAll(c, items, n).Ok?
    requires forall i :: 0 <= i < |items| ==> c.digest(items[i].1.bytes) == items[i].1.digest
    ensures PlacedWell(c, PlaceAll(c, items, n).value.placements)
  {
    if n > 0 {
      PlacedWellAll(c, items, n - 1);
      var p := PlaceOne(c, |PlaceAll(c, items, n - 1).value.bytes|, items[n - 1].0, items[n - 1].1).value;
      assert PlacedOne(c, p);
      hide PlacedOne;
    }
  }

  lemma {:induction false} SealedDigests(c: Codec, sealers: Sealers, es: seq<Envelope>, n: nat)
    requires n <= |es| && SealAll(c, sealers, es, n).Ok?
    ensures forall i :: 0 <= i < |SealAll(c, sealers, es, n).value| ==>
      var s := SealAll(c, sealers, es, n).value[i].1; c.digest(s.bytes) == s.digest
  {
    if n > 0 { SealedDigests(c, sealers, es, n - 1); }
  }

  lemma {:induction false} InUngroup<K, V>(items: seq<(K, V)>, i: nat)
    requires i < |Ungroup(GroupBy(items))|
    ensures Ungroup(GroupBy(items))[i] in items
  {
    GroupByKeepsAll(items);
    assert Ungroup(GroupBy(items))[i] in multiset(Ungroup(GroupBy(items)));
  }

  lemma {:induction false} LayoutPlacedWell(c: Codec, plan: CutPlan, sealers: Sealers)
    requires PlanLayout(c, plan, sealers).Ok?
    ensures PlacedWell(c, PlanLayout(c, plan, sealers).value.placements)
  {
    var sealed := SealAll(c, sealers, plan.envelopes, |plan.envelopes|).value;
    var items := Ungroup(GroupBy(sealed));
    SealedDigests(c, sealers, plan.envelopes, |plan.envelopes|);
    hide GroupBy, Ungroup, PlaceAll, SealAll, PlacedWell;
    forall i | 0 <= i < |items| ensures c.digest(items[i].1.bytes) == items[i].1.digest { InUngroup(sealed, i); }
    PlacedWellAll(c, items, |items|);
  }

  // A Verse's group of placements: its sealed chunks in envelope order, each placed well.
  lemma {:induction false} GroupIsSealed(c: Codec, plan: CutPlan, sealers: Sealers, layout: Layout, byVerse: Groups,
          verse: VerseKey)
    requires PlacedFor(c, plan, sealers, layout, byVerse)
    ensures SealAll(c, sealers, plan.envelopes, |plan.envelopes|).Ok?
    ensures var mine := ValuesOf(SealAll(c, sealers, plan.envelopes, |plan.envelopes|).value, verse);
      var at := FindGroup(byVerse, verse);
      && (at == |byVerse| <==> mine == [])
      && (at < |byVerse| ==> ChunksOf(byVerse[at].1) == mine && PlacedWell(c, byVerse[at].1))
  {
    var sealed := SealAll(c, sealers, plan.envelopes, |plan.envelopes|).value;
    var groups := GroupBy(sealed);
    GroupByFacts(sealed);
    GroupByKeys(sealed, verse);
    SecondGroupingIsFirst(c, groups);
    SameKeysFound(groups, byVerse, verse);
    LayoutPlacedWell(c, plan, sealers);
    hide GroupBy, Keyed, SealAll, LayoutOf, ValuesOf, PlanLayout, PlacedWell;
    var at := FindGroup(byVerse, verse);
    if at < |byVerse| {
      assert SameGroup(groups[at], byVerse[at]);
      MembersPlacedWell(c, layout.placements, at);
    }
  }

  lemma {:induction false} MembersPlacedWell(c: Codec, ps: seq<Placement>, at: nat)
    requires PlacedWell(c, ps) && at < |GroupBy(Keyed(ps))|
    ensures PlacedWell(c, GroupBy(Keyed(ps))[at].1)
  {
    var byVerse := GroupBy(Keyed(ps));
    GroupByFacts(Keyed(ps));
    hide GroupBy, PlacedOne;
    forall i | 0 <= i < |byVerse[at].1| ensures PlacedOne(c, byVerse[at].1[i]) {
      InValues(Keyed(ps), byVerse[at].0, i);
      InKeyed(ps, (byVerse[at].0, byVerse[at].1[i]));
    }
  }

  lemma {:induction false} InValues<K, V>(items: seq<(K, V)>, k: K, i: nat)
    requires i < |ValuesOf(items, k)|
    ensures (k, ValuesOf(items, k)[i]) in items
  {
    var n := |items| - 1;
    if i < |ValuesOf(items[..n], k)| {
      InValues(items[..n], k, i);
    } else {
      assert items[n] == (k, ValuesOf(items, k)[i]);
    }
  }

  lemma {:induction false} InKeyed(ps: seq<Placement>, e: (VerseKey, Placement))
    requires e in Keyed(ps)
    ensures e.1 in ps
  {
    var n := |ps| - 1;
    if e in Keyed(ps[..n]) { InKeyed(ps[..n], e); }
  }

  /** When a commit answers, a Verse's chunks are acknowledged exactly when the Verse has a log
      that nothing left undecided, the append is delivered, and the sealed chunks continue
      that log densely; otherwise the first says why and the rest that they shared its fate. */
  lemma {:induction false} CommitAcksExactly(c: Codec, objects: Objects, logs: Logs, plan: CutPlan, sealers: Sealers,
          env: nat -> Attempt, fates: VerseKey -> Fate, verse: VerseKey)
    requires Commit(c, objects, logs, plan, sealers, env, fates).result.Ok?
    ensures SealAll(c, sealers, plan.envelopes, |plan.envelopes|).Ok?
    ensures var mine := ValuesOf(SealAll(c, sealers, plan.envelopes, |plan.envelopes|).value, verse);
      var outs := OutcomesFor(Commit(c, objects, logs, plan, sealers, env, fates).result.value, verse);
      AckedOrWhy(c, logs, verse, mine, fates(verse), outs)
  {
    hide CommitGroups, PlanLayout, GroupBy, Keyed, OutcomesFor, AckedOrWhy, PlacedWell, SealAll, ValuesOf;
    var layout := PlanLayout(c, plan, sealers).value;
    var digest := c.digest(layout.bytes);
    var blob := Blob(BlobKey(plan.blobPrefix, digest), digest);
    var byVerse := GroupBy(Keyed(layout.placements));
    var done := Commit(c, objects, logs, plan, sealers, env, fates);
    assert CommitGroups(c, logs, blob, byVerse, fates, |byVerse|) == (done.logs, done.result);
    hide Commit;
    OkMeansEncodable(c, logs, blob, byVerse, fates, |byVerse|);
    GroupOfVerse(c, plan, sealers, layout, byVerse, verse);
    GroupIsSealed(c, plan, sealers, layout, byVerse, verse);
    CommitForVerse(c, logs, blob, byVerse, fates, verse);
    var at := FindGroup(byVerse, verse);
    if at < |byVerse| {
      var group := byVerse[at].1;
      OnlyOwnLogMatters(c, logs, blob, verse, group, fates(verse));
      GroupAckedOrWhy(c, logs, blob, verse, group, fates(verse));
    } else {
      NothingToAck(c, logs, verse, fates(verse));
    }
  }

  lemma {:induction false} NothingToAck(c: Codec, logs: Logs, verse: VerseKey, fate: Fate)
    ensures AckedOrWhy(c, logs, verse, [], fate, [])
  {
  }

  // What an acknowledgement leaves behind. -------------------------------------------------------------------

  // The pointer is to these very bytes, in an object of the store.
  ghost predicate PointsTo(c: Codec, objects: Objects, r: DataRef, s: SealedChunk) {
    && r.chunkId == s.chunkId && r.chunkDigest == s.digest && r.length == |s.bytes|
    && FrameOf(c, s).Some? && r.recordCount == FrameOf(c, s).value.recordCount
    && Backed(c, objects, r) && Slice(objects, r) == s.bytes
  }

  // One chunk is appended as a pointer, several as one batch of pointers, in order.
  ghost predicate EntryOf(c: Codec, objects: Objects, p: LogPayload, chunks: seq<SealedChunk>) {
    && (|chunks| == 1 ==> p.DataRefEntry?) && (|chunks| > 1 ==> p.ReferenceBatch?)
    && |PayloadRefs(p)| == |chunks|
    && forall i :: 0 <= i < |chunks| ==> PointsTo(c, objects, PayloadRefs(p)[i], chunks[i])
  }

  // The placement's range of the object holds its sealed bytes.
  ghost predicate AllHold(bytes: Bytes, group: seq<Placement>) {
    forall i :: 0 <= i < |group| ==> HoldsBytes(bytes, group[i])
  }

  lemma {:induction false} MembersHold(bytes: Bytes, ps: seq<Placement>, at: nat)
    requires AllHold(bytes, ps) && at < |GroupBy(Keyed(ps))|
    ensures AllHold(bytes, GroupBy(Keyed(ps))[at].1)
  {
    var byVerse := GroupBy(Keyed(ps));
    GroupByFacts(Keyed(ps));
    hide GroupBy, HoldsBytes;
    forall i | 0 <= i < |byVerse[at].1| ensures HoldsBytes(bytes, byVerse[at].1[i]) {
      InValues(Keyed(ps), byVerse[at].0, i);
      InKeyed(ps, (byVerse[at].0, byVerse[at].1[i]));
    }
  }

  lemma {:induction false} RefPointsTo(c: Codec, objects: Objects, blob: Blob, p: Placement)
    requires PlacedOne(c, p) && RefOf(blob, p).Valid() && blob.key in objects
    requires c.digest(objects[blob.key]) == blob.digest && HoldsBytes(objects[blob.key], p)
    ensures PointsTo(c, objects, RefOf(blob, p), p.sealed)
  {
  }

  lemma {:induction false} PayloadIsEntry(c: Codec, objects: Objects, blob: Blob, group: seq<Placement>)
    requires group != [] && PlacedWell(c, group) && Encodable(blob, group) && blob.key in objects
    requires c.digest(objects[blob.key]) == blob.digest && AllHold(objects[blob.key], group)
    ensures EntryOf(c, objects, PayloadFor(blob, group), ChunksOf(group))
  {
    hide PointsTo, HoldsBytes, PlacedOne, RefOf;
    var refs := PayloadRefs(PayloadFor(blob, group));
    assert |group| == 1 ==> RefsOf(blob, group) == [RefOf(blob, group[0])];
    forall i | 0 <= i < |group| ensures PointsTo(c, objects, refs[i], group[i].sealed) {
      assert refs[i] == RefOf(blob, group[i]);
      RefPointsTo(c, objects, blob, group[i]);
    }
  }

  // The sealed chunks as they are placed: by Verse, in order of first appearance.
  function ToPlace(c: Codec, plan: CutPlan, sealers: Sealers): seq<(VerseKey, SealedChunk)> {
    match SealAll(c, sealers, plan.envelopes, |plan.envelopes|)
    case Err(_) => []
    case Ok(sealed) => Ungroup(GroupBy(sealed))
  }

  lemma {:induction false} LayoutHolds(c: Codec, plan: CutPlan, sealers: Sealers)
    requires PlanLayout(c, plan, sealers).Ok?
    ensures var layout := PlanLayout(c, plan, sealers).value; AllHold(layout.bytes, layout.placements)
  {
    var items := ToPlace(c, plan, sealers);
    PlaceAllTiles(c, items, |items|);
    hide PlaceAll, SealAll;
  }

  lemma {:induction false} AckedGroupLeaves(c: Codec, logs: Logs, blob: Blob, verse: VerseKey, group: seq<Placement>,
          fate: Fate)
    requires group != [] && Encodable(blob, group)
    requires CommitGroup(c, logs, blob, verse, group, fate).1.Ok?
    requires |CommitGroup(c, logs, blob, verse, group, fate).1.value| == |group|
    requires CommitGroup(c, logs, blob, verse, group, fate).1.value[0].result.Ok?
    ensures verse in logs && verse in CommitGroup(c, logs, blob, verse, group, fate).0
    ensures CommitGroup(c, logs, blob, verse, group, fate).0[verse].entries ==
      logs[verse].entries + [PayloadFor(blob, group)]
  {
    GroupAnswered(c, logs, blob, verse, group, fate);
    hide CommitGroup, PayloadFor, Encodable, DenseAcks;
    var (after, r) := CommitGroup(c, logs, blob, verse, group, fate);
    assert !AllRefused(verse, group, r.value);
  }

  /** An acknowledged commit has left in the Verse's log one more entry, with a pointer for
      each of the Verse's chunks in envelope order, and each pointer is backed by the store
      with exactly the bytes that were sealed. */
  lemma {:induction false} AckedIsStored(c: Codec, objects: Objects, logs: Logs, plan: CutPlan, sealers: Sealers,
          env: nat -> Attempt, fates: VerseKey -> Fate, verse: VerseKey)
    requires CollisionFree(c) && Commit(c, objects, logs, plan, sealers, env, fates).result.Ok?
    requires var outs := OutcomesFor(Commit(c, objects, logs, plan, sealers, env, fates).result.value, verse);
      outs != [] && outs[0].result.Ok?
    ensures SealAll(c, sealers, plan.envelopes, |plan.envelopes|).Ok?
    ensures var mine := ValuesOf(SealAll(c, sealers, plan.envelopes, |plan.envelopes|).value, verse);
      var done := Commit(c, objects, logs, plan, sealers, env, fates);
      && verse in logs && verse in done.logs && |done.logs[verse].entries| == |logs[verse].entries| + 1
      && logs[verse].entries <= done.logs[verse].entries
      && EntryOf(c, done.objects, done.logs[verse].entries[|logs[verse].entries|], mine)
  {
    hide CommitGroups, PlanLayout, GroupBy, Keyed, OutcomesFor, PlacedWell, SealAll, ValuesOf, PutOutcome, EntryOf;
    hide AllHold, PayloadFor, CollisionFree;
    var layout := PlanLayout(c, plan, sealers).value;
    var digest := c.digest(layout.bytes);
    var blob := Blob(BlobKey(plan.blobPrefix, digest), digest);
    var byVerse := GroupBy(Keyed(layout.placements));
    var done := Commit(c, objects, logs, plan, sealers, env, fates);
    assert CommitGroups(c, logs, blob, byVerse, fates, |byVerse|) == (done.logs, done.result);
    var (stored, put) := PutOutcome(c, objects, blob.key, layout.bytes, digest, env, 0);
    assert put.Ok? && done.objects == stored;
    PutOutcomeSafe(c, objects, blob.key, layout.bytes, env, 0);
    assert blob.key in done.objects && done.objects[blob.key] == layout.bytes;
    hide Commit;
    OkMeansEncodable(c, logs, blob, byVerse, fates, |byVerse|);
    GroupOfVerse(c, plan, sealers, layout, byVerse, verse);
    GroupIsSealed(c, plan, sealers, layout, byVerse, verse);
    CommitForVerse(c, logs, blob, byVerse, fates, verse);
    LayoutHolds(c, plan, sealers);
    var at := FindGroup(byVerse, verse);
    if at < |byVerse| {
      var group := byVerse[at].1;
      MembersHold(layout.bytes, layout.placements, at);
      OnlyOwnLogMatters(c, logs, blob, verse, group, fates(verse));
      GroupAckedOrWhy(c, logs, blob, verse, group, fates(verse));
      AckedGroupLeaves(c, logs, blob, verse, group, fates(verse));
      PayloadIsEntry(c, done.objects, blob, group);
    }
  }

  // Which plans can be laid out. ---------------------------------------------------------------------------

  // Bytes of the first `n` chunks.
  function SizeOf(items: seq<(VerseKey, SealedChunk)>, n: nat): nat
    requires n <= |items|
  {
    if n == 0 then 0 else SizeOf(items, n - 1) + |items[n - 1].1.bytes|
  }

  // The chunk has one frame, and it and what comes before it are short of 2^64 bytes.
  ghost predicate Placeable(c: Codec, items: seq<(VerseKey, SealedChunk)>, i: nat)
    requires i < |items|
  {
    FrameOf(c, items[i].1).Some? && |items[i].1.bytes| < U64_LIMIT && SizeOf(items, i) < U64_LIMIT
  }

  lemma {:induction false} PlacesOneExactly(c: Codec, offset: nat, verse: VerseKey, s: SealedChunk)
    ensures PlaceOne(c, offset, verse, s).Ok? <==>
      FrameOf(c, s).Some? && |s.bytes| < U64_LIMIT && offset < U64_LIMIT
  {
  }

  lemma {:induction false} PlacesExactly(c: Codec, items: seq<(VerseKey, SealedChunk)>, n: nat)
    requires n <= |items|
    ensures PlaceAll(c, items, n).Ok? <==>
      forall i :: 0 <= i < n ==> Placeable(c, items, i)
    ensures PlaceAll(c, items, n).Ok? ==> |PlaceAll(c, items, n).value.bytes| == SizeOf(items, n)
  {
    hide FrameOf, PlaceOne;
    if n > 0 {
      PlacesExactly(c, items, n - 1);
      PlacesOneExactly(c, SizeOf(items, n - 1), items[n - 1].0, items[n - 1].1);
      assert PlaceOne(c, SizeOf(items, n - 1), items[n - 1].0, items[n - 1].1).Ok? <==> Placeable(c, items, n - 1);
      hide Placeable;
    }
  }

  // The envelope's Verse can seal, and sealing gives the envelope's own chunk under its digest.
  ghost predicate Seals(c: Codec, sealers: Sealers, i: nat, e: Envelope) {
    && e.verseKey in sealers.verses && sealers.seal(i, e).Ok?
    && sealers.seal(i, e).value.chunkId == e.chunkId
    && c.digest(sealers.seal(i, e).value.bytes) == sealers.seal(i, e).value.digest
  }

  lemma {:induction false} SealsExactly(c: Codec, sealers: Sealers, es: seq<Envelope>, n: nat)
    requires n <= |es|
    ensures SealAll(c, sealers, es, n).Ok? <==> forall i :: 0 <= i < n ==> Seals(c, sealers, i, es[i])
    ensures SealAll(c, sealers, es, n).Ok? ==>
      |SealAll(c, sealers, es, n).value| == n &&
      forall i :: 0 <= i < n ==>
        SealAll(c, sealers, es, n).value[i] == (es[i].verseKey, sealers.seal(i, es[i]).value)
  {
    if n > 0 { SealsExactly(c, sealers, es, n - 1); }
  }

  ghost predicate AllPlaceable(c: Codec, items: seq<(VerseKey, SealedChunk)>) {
    forall i :: 0 <= i < |items| ==> Placeable(c, items, i)
  }

  ghost predicate AllSeal(c: Codec, sealers: Sealers, es: seq<Envelope>) {
    forall i :: 0 <= i < |es| ==> Seals(c, sealers, i, es[i])
  }

  /** A plan is laid out exactly when it has a prefix, every envelope seals to its own chunk
      and every sealed chunk has one frame, short of 2^64 bytes in all. */
  lemma {:induction false} LaysOutExactly(c: Codec, plan: CutPlan, sealers: Sealers)
    ensures PlanLayout(c, plan, sealers).Ok? <==>
      plan.blobPrefix != "" && AllSeal(c, sealers, plan.envelopes) && AllPlaceable(c, ToPlace(c, plan, sealers))
  {
    SealsExactly(c, sealers, plan.envelopes, |plan.envelopes|);
    var items := ToPlace(c, plan, sealers);
    PlacesExactly(c, items, |items|);
    hide Seals, PlaceAll, SealAll, Placeable;
  }
}
