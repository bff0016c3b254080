/** The whole commit, seen from its envelopes. */
module CommitAnswers {
  import opened Prelude
  import opened BlobModel
  import opened BlobStore
  import opened BlobReader
  import opened Grouping
  import opened CommitPlan
  import opened CommitVerses
  import opened CommitTheorems
  import Hex

  // Chunk ids of the Verse's envelopes among the first `n`, in order.
  ghost function EnvelopeIds(es: seq<Envelope>, n: nat, verse: VerseKey): seq<ChunkId>
    requires n <= |es|
  {
    if n == 0 then [] else
      EnvelopeIds(es, n - 1, verse) + (if es[n - 1].verseKey == verse then [es[n - 1].chunkId] else [])
  }

  ghost function ChunkIds(chunks: seq<SealedChunk>): seq<ChunkId> {
    seq(|chunks|, i requires 0 <= i < |chunks| => chunks[i].chunkId)
  }

  ghost function OutcomeIds(outs: seq<PlacementOutcome>): seq<ChunkId> {
    seq(|outs|, i requires 0 <= i < |outs| => outs[i].chunkId)
  }

  lemma {:induction false} SealedForVerse(c: Codec, sealers: Sealers, es: seq<Envelope>, n: nat, verse: VerseKey)
    requires n <= |es| && SealAll(c, sealers, es, n).Ok?
    ensures ChunkIds(ValuesOf(SealAll(c, sealers, es, n).value, verse)) == EnvelopeIds(es, n, verse)
  {
    if n > 0 {
      SealedForVerse(c, sealers, es, n - 1, verse);
      var front, all := SealAll(c, sealers, es, n - 1).value, SealAll(c, sealers, es, n).value;
      assert all[..|all| - 1] == front;
    }
  }

  // What `CommitGroups` is given: the placed groups of the sealed envelopes.
  ghost predicate PlacedFor(c: Codec, plan: CutPlan, sealers: Sealers, layout: Layout, byVerse: Groups) {
    PlanLayout(c, plan, sealers) == Ok(layout) && byVerse == GroupBy(Keyed(layout.placements))
  }

  lemma {:induction false} GroupOfVerse(c: Codec, plan: CutPlan, sealers: Sealers, layout: Layout, byVerse: Groups,
          verse: VerseKey)
    requires PlacedFor(c, plan, sealers, layout, byVerse)
    ensures OneRunEach(byVerse)
    ensures var at := FindGroup(byVerse, verse);
            var ids := EnvelopeIds(plan.envelopes, |plan.envelopes|, verse);
            (at == |byVerse| ==> ids == []) &&
            (at < |byVerse| ==> |byVerse[at].1| == |ids| && forall i :: 0 <= i < |ids| ==>
                byVerse[at].1[i].sealed.chunkId == ids[i])
  {
    var sealed := SealAll(c, sealers, plan.envelopes, |plan.envelopes|).value;
    var groups := GroupBy(sealed);
    GroupByFacts(sealed);
    GroupByKeys(sealed, verse);
    SecondGroupingIsFirst(c, groups);
    SameRuns(groups, byVerse);
    SealedForVerse(c, sealers, plan.envelopes, |plan.envelopes|, verse);
    SameKeysFound(groups, byVerse, verse);
    hide GroupBy, Keyed, SealAll, LayoutOf, ValuesOf, EnvelopeIds, PlanLayout;
    var at := FindGroup(byVerse, verse);
    if at < |byVerse| { assert SameGroup(groups[at], byVerse[at]); }
  }

  lemma {:induction false} SameKeysFound(groups: seq<(VerseKey, seq<SealedChunk>)>, placed: Groups, verse: VerseKey)
    requires SameGroups(groups, placed)
    ensures FindGroup(groups, verse) == FindGroup(placed, verse)
  {
    forall g | 0 <= g < |groups| ensures groups[g].0 == placed[g].0 { assert SameGroup(groups[g], placed[g]); }
  }

  /** Acks that tile [start, end): each begins where the one before it ended. */
  ghost predicate AckTiling(outs: seq<PlacementOutcome>, start: nat, end: nat) {
    outs != [] && (forall i :: 0 <= i < |outs| ==> AckFits(outs, i, start)) &&
    outs[|outs| - 1].result.Ok? && outs[|outs| - 1].result.value.nextOffset == end
  }

  ghost predicate AckFits(outs: seq<PlacementOutcome>, i: nat, start: nat)
    requires i < |outs|
  {
    outs[i].result.Ok? && outs[i].result.value.chunkId == outs[i].chunkId &&
    outs[i].result.value.nextOffset == outs[i].result.value.firstOffset + outs[i].result.value.recordCount &&
    (i == 0 ==> outs[i].result.value.firstOffset == start) &&
    (i > 0 ==> outs[i - 1].result.Ok? && outs[i].result.value.firstOffset == outs[i - 1].result.value.nextOffset)
  }

  lemma {:induction false} DenseIsTiling(verse: VerseKey, slot: nat, start: nat, group: seq<Placement>,
          outs: seq<PlacementOutcome>)
    requires group != [] && DenseAcks(verse, slot, start, group, outs)
    ensures AckTiling(outs, start, start + RecordTotal(group, |group|))
  {
    forall i | 0 <= i < |outs| ensures AckFits(outs, i, start) {
      assert outs[i] == DenseAck(verse, slot, start, group, i);
      if i > 0 { assert outs[i - 1] == DenseAck(verse, slot, start, group, i - 1); }
    }
  }

  lemma {:induction false} GroupOk(c: Codec, logs: Logs, blob: Blob, verse: VerseKey, group: seq<Placement>, fate: Fate)
    ensures CommitGroup(c, logs, blob, verse, group, fate).1.Ok? <==> Encodable(blob, group)
    ensures CommitGroup(c, logs, blob, verse, group, fate).1.Err? ==>
      CommitGroup(c, logs, blob, verse, group, fate).0 == logs
  {
    EncodableNoFault(blob, group);
    if Encodable(blob, group) { GroupAnswered(c, logs, blob, verse, group, fate); }
  }

  lemma {:induction false} OkMeansEncodable(c: Codec, logs: Logs, blob: Blob, byVerse: Groups, fates: VerseKey -> Fate,
          n: nat)
    requires n <= |byVerse| && CommitGroups(c, logs, blob, byVerse, fates, n).1.Ok?
    ensures forall g :: 0 <= g < n ==> Encodable(blob, byVerse[g].1)
  {
    if n > 0 {
      hide CommitGroup, Encodable;
      OkMeansEncodable(c, logs, blob, byVerse, fates, n - 1);
      var before := CommitGroups(c, logs, blob, byVerse, fates, n - 1).0;
      GroupOk(c, before, blob, byVerse[n - 1].0, byVerse[n - 1].1, fates(byVerse[n - 1].0));
    }
  }

  // A Verse's answer: everything refused, or everything acknowledged in one new log entry.
  ghost predicate VerseOutcome(logs: Logs, after: Logs, verse: VerseKey, outs: seq<PlacementOutcome>) {
    (forall i :: 0 <= i < |outs| ==> outs[i].result.Err?) ||
    (verse in logs && verse in after && |after[verse].entries| == |logs[verse].entries| + 1 &&
     after[verse].entries[..|logs[verse].entries|] == logs[verse].entries &&
     AckTiling(outs, logs[verse].nextOffset, after[verse].nextOffset))
  }

  lemma {:induction false} OwnOutcome(c: Codec, logs: Logs, blob: Blob, group: (VerseKey, seq<Placement>),
          fates: VerseKey -> Fate)
    requires Encodable(blob, group.1)
    ensures var outs := OwnAnswer(c, logs, blob, group, fates);
            |outs| == |group.1| && (forall i :: 0 <= i < |outs| ==> outs[i].chunkId == group.1[i].sealed.chunkId) &&
            (group.0 in logs ==>
                VerseOutcome(logs, logs[group.0 := OwnLog(c, logs, blob, group, fates)], group.0, outs)) &&
            (group.0 !in logs ==> forall i :: 0 <= i < |outs| ==> outs[i].result.Err?)
  {
    GroupAnswered(c, logs, blob, group.0, group.1, fates(group.0));
    var after, outs := CommitGroup(c, logs, blob, group.0, group.1, fates(group.0)).0,
        OwnAnswer(c, logs, blob, group, fates);
    assert Answered(logs, blob, group.0, group.1, after, outs);
    assert group.0 in logs ==> after[group.0] == OwnLog(c, logs, blob, group, fates);
    hide CommitGroup, Encodable, OwnAnswer, OwnLog, RecordTotal;
    if !AllRefused(group.0, group.1, outs) {
      var log := logs[group.0];
      assert DenseAcks(group.0, |log.entries|, log.nextOffset, group.1, outs);
      DenseIsTiling(group.0, |log.entries|, log.nextOffset, group.1, outs);
      forall i | 0 <= i < |outs| ensures outs[i].chunkId == group.1[i].sealed.chunkId {
        assert outs[i] == DenseAck(group.0, |log.entries|, log.nextOffset, group.1, i);
      }
    }
  }

  /** When a commit answers at all, every Verse's outcomes name exactly that
      Verse's envelopes, once each and in order; either all are refused, or all
      are acknowledged and their offsets tile the stretch of dense offsets by
      which the Verse's log advanced. */
  lemma {:induction false} CommitAnswersEveryEnvelope(c: Codec, objects: Objects, logs: Logs, plan: CutPlan,
          sealers: Sealers, env: nat -> Attempt, fates: VerseKey -> Fate, verse: VerseKey)
    requires Commit(c, objects, logs, plan, sealers, env, fates).result.Ok?
    ensures var done := Commit(c, objects, logs, plan, sealers, env, fates);
            var outs := OutcomesFor(done.result.value, verse);
            OutcomeIds(outs) == EnvelopeIds(plan.envelopes, |plan.envelopes|, verse) &&
            VerseOutcome(logs, done.logs, verse, outs)
  {
    hide CommitGroups, PlanLayout, GroupBy, Keyed, EnvelopeIds, OutcomesFor, OwnAnswer, OwnLog, Encodable, VerseOutcome;
    var layout := PlanLayout(c, plan, sealers).value;
    var digest := c.digest(layout.bytes);
    var blob := Blob(BlobKey(plan.blobPrefix, digest), digest);
    var byVerse := GroupBy(Keyed(layout.placements));
    var done := Commit(c, objects, logs, plan, sealers, env, fates);
    assert CommitGroups(c, logs, blob, byVerse, fates, |byVerse|) == (done.logs, done.result);
    hide Commit;
    OkMeansEncodable(c, logs, blob, byVerse, fates, |byVerse|);
    GroupOfVerse(c, plan, sealers, layout, byVerse, verse);
    CommitForVerse(c, logs, blob, byVerse, fates, verse);
    var at := FindGroup(byVerse, verse);
    if at < |byVerse| {
      OnlyOwnLogMatters(c, logs, blob, verse, byVerse[at].1, fates(verse));
      OwnOutcome(c, logs, blob, byVerse[at], _ => fates(verse));
      if verse in logs {
        SameOutcome(logs, done.logs, verse, OutcomesFor(done.result.value, verse),
            OwnLog(c, logs, blob, byVerse[at], _ => fates(verse)));
      } else {
        NoOutcome(logs, done.logs, verse, OutcomesFor(done.result.value, verse));
      }
    } else {
      NoOutcome(logs, done.logs, verse, OutcomesFor(done.result.value, verse));
    }
  }

  lemma {:induction false} NoOutcome(logs: Logs, after: Logs, verse: VerseKey, outs: seq<PlacementOutcome>)
    requires forall i :: 0 <= i < |outs| ==> outs[i].result.Err?
    ensures VerseOutcome(logs, after, verse, outs)
  {
  }

  lemma {:induction false} SameOutcome(logs: Logs, after: Logs, verse: VerseKey, outs: seq<PlacementOutcome>,
          own: VerseLog)
    requires verse in logs && verse in after && after[verse] == own &&
      VerseOutcome(logs, logs[verse := own], verse, outs)
    ensures VerseOutcome(logs, after, verse, outs)
  {
  }

  // A pointer the codec refuses: the key is too long, or the range or the chunk is empty or too far out.
  predicate Unencodable(key: Key, p: Placement) {
    |key| > MAX_BLOB_KEY_BYTES || p.length == 0 || p.recordCount == 0 || p.offset + p.length >= U64_LIMIT
  }

  /** After a verified PUT, the commit as a whole fails exactly when some chunk
      of the plan has a pointer that cannot be encoded: in particular when it
      carries no record. */
  lemma {:induction false} CommitAbortsExactly(c: Codec, objects: Objects, logs: Logs, plan: CutPlan, sealers: Sealers,
          env: nat -> Attempt, fates: VerseKey -> Fate)
    requires PlanLayout(c, plan, sealers).Ok?
    requires var layout := PlanLayout(c, plan, sealers).value; var digest := c.digest(layout.bytes);
             PutOutcome(c, objects, BlobKey(plan.blobPrefix, digest), layout.bytes, digest, env, 0).1.Ok?
    ensures var layout := PlanLayout(c, plan, sealers).value;
            Commit(c, objects, logs, plan, sealers, env, fates).result.Err? <==>
            exists i :: 0 <= i < |layout.placements| &&
                Unencodable(BlobKey(plan.blobPrefix, c.digest(layout.bytes)), layout.placements[i])
  {
    var layout := PlanLayout(c, plan, sealers).value;
    var digest := c.digest(layout.bytes);
    var blob := Blob(BlobKey(plan.blobPrefix, digest), digest);
    var byVerse := GroupBy(Keyed(layout.placements));
    GroupOfVerse(c, plan, sealers, layout, byVerse, "");
    assert CommitGroups(c, logs, blob, byVerse, fates, |byVerse|).1 ==
        Commit(c, objects, logs, plan, sealers, env, fates).result;
    if AllEncodable(blob, byVerse) {
      GroupsAreIndependent(c, logs, blob, byVerse, fates, |byVerse|);
    } else if CommitGroups(c, logs, blob, byVerse, fates, |byVerse|).1.Ok? {
      OkMeansEncodable(c, logs, blob, byVerse, fates, |byVerse|);
    }
    hide Commit, CommitGroups, PlanLayout, PutOutcome;
    EncodablePlacements(blob, layout.placements);
  }

  lemma {:induction false} EncodablePlacements(blob: Blob, ps: seq<Placement>)
    requires blob.key != ""
    ensures AllEncodable(blob, GroupBy(Keyed(ps))) <==> forall i :: 0 <= i < |ps| ==> !Unencodable(blob.key, ps[i])
  {
    var byVerse := GroupBy(Keyed(ps));
    hide AllEncodable, Unencodable;
    if AllEncodable(blob, byVerse) {
      forall i | 0 <= i < |ps| ensures !Unencodable(blob.key, ps[i]) { PlacementEncodable(blob, ps, i); }
    }
    if forall i :: 0 <= i < |ps| ==> !Unencodable(blob.key, ps[i]) {
      GroupsEncodable(blob, ps);
    }
  }

  lemma {:induction false} SameBag<T>(a: seq<T>, b: seq<T>, i: nat)
    requires i < |a| && multiset(a) == multiset(b)
    ensures a[i] in b
  {
    assert a[i] in multiset(a);
  }

  lemma {:induction false} PlacementEncodable(blob: Blob, ps: seq<Placement>, i: nat)
    requires i < |ps| && AllEncodable(blob, GroupBy(Keyed(ps)))
    ensures !Unencodable(blob.key, ps[i])
  {
    hide Keyed, GroupBy, Ungroup, AllEncodable;
    KeyedAt(ps, i);
    GroupByKeepsAll(Keyed(ps));
    SameBag(Keyed(ps), Ungroup(GroupBy(Keyed(ps))), i);
    UngroupMember(blob, GroupBy(Keyed(ps)), ps[i].verseKey, ps[i]);
  }

  lemma {:induction false} GroupsEncodable(blob: Blob, ps: seq<Placement>)
    requires blob.key != "" && forall i :: 0 <= i < |ps| ==> !Unencodable(blob.key, ps[i])
    ensures AllEncodable(blob, GroupBy(Keyed(ps)))
  {
    var byVerse := GroupBy(Keyed(ps));
    GroupByKeepsAll(Keyed(ps));
    hide GroupBy, Keyed, Ungroup;
    forall g | 0 <= g < |byVerse| ensures Encodable(blob, byVerse[g].1) {
      forall k | 0 <= k < |byVerse[g].1| ensures RefOf(blob, byVerse[g].1[k]).Valid() {
        UngroupHas(byVerse, g, k);
        assert (byVerse[g].0, byVerse[g].1[k]) in multiset(Ungroup(byVerse));
        assert (byVerse[g].0, byVerse[g].1[k]) in Keyed(ps);
        KeyedFrom(ps, byVerse[g].0, byVerse[g].1[k]);
      }
    }
  }

  lemma {:induction false} KeyedAt(ps: seq<Placement>, i: nat)
    requires i < |ps|
    ensures |Keyed(ps)| == |ps| && Keyed(ps)[i] == (ps[i].verseKey, ps[i])
  {
    if |ps| > 1 { KeyedAt(ps[..|ps| - 1], if i == |ps| - 1 then i - 1 else i); }
  }

  lemma {:induction false} KeyedFrom(ps: seq<Placement>, verse: VerseKey, p: Placement)
    requires (verse, p) in Keyed(ps)
    ensures p in ps
  {
    var n := |ps| - 1;
    if (verse, p) in Keyed(ps[..n]) { KeyedFrom(ps[..n], verse, p); }
  }

  lemma {:induction false} UngroupHas(byVerse: Groups, g: nat, k: nat)
    requires g < |byVerse| && k < |byVerse[g].1|
    ensures (byVerse[g].0, byVerse[g].1[k]) in Ungroup(byVerse)
  {
    var n := |byVerse| - 1;
    TagLength(byVerse[n].0, byVerse[n].1);
    if g == n {
      assert Tag(byVerse[n].0, byVerse[n].1)[k] == (byVerse[n].0, byVerse[n].1[k]);
    } else {
      UngroupHas(byVerse[..n], g, k);
    }
  }

  lemma {:induction false} UngroupMember(blob: Blob, byVerse: Groups, verse: VerseKey, p: Placement)
    requires (verse, p) in Ungroup(byVerse) && AllEncodable(blob, byVerse)
    ensures RefOf(blob, p).Valid()
  {
    var n := |byVerse| - 1;
    if (verse, p) in Ungroup(byVerse[..n]) {
      UngroupMember(blob, byVerse[..n], verse, p);
    } else {
      TagLength(byVerse[n].0, byVerse[n].1);
      var i :| 0 <= i < |byVerse[n].1| && byVerse[n].1[i] == p;
      assert Encodable(blob, byVerse[n].1);
    }
  }

  // The partial failure of a commit. -----------------------------------------

  function ToyEnvelope(verse: VerseKey, id: byte): Envelope {
    Envelope(verse, [id], 0, [], [], [], [])
  }

  // Chunk [1] carries one record, every other chunk none.
  const TOY_CODEC: Codec :=
    Codec(b => b, b => Some(ChunkIndex(b, [], [FrameRef(0, if b == [1] then 1 else 0)])), b => None, b => None)
  const TOY_SEALERS: Sealers := Sealers({"a", "b"}, (i: nat, e: Envelope) =>
      Ok(SealedChunk(e.chunkId, e.chunkId, e.chunkId)))
  const TOY_PLAN: CutPlan := CutPlan(Size, [ToyEnvelope("a", 1), ToyEnvelope("b", 2)], "p")
  const TOY_LOG: VerseLog := VerseLog([], 0, false)

  function ToyPlacement(verse: VerseKey, id: byte, offset: nat, count: nat): Placement {
    Placement(verse, SealedChunk([id], [id], [id]), offset, 1, count)
  }

  lemma {:induction false} ToyLayout()
    ensures PlanLayout(TOY_CODEC, TOY_PLAN, TOY_SEALERS) ==
      Ok(Layout([1, 2], [ToyPlacement("a", 1, 0, 1), ToyPlacement("b", 2, 1, 0)]))
  {
    var a, b := SealedChunk([1], [1], [1]), SealedChunk([2], [2], [2]);
    var es := TOY_PLAN.envelopes;
    assert SealOne(TOY_CODEC, TOY_SEALERS, 0, es[0]) == Ok(a) && SealOne(TOY_CODEC, TOY_SEALERS, 1, es[1]) == Ok(b);
    assert SealAll(TOY_CODEC, TOY_SEALERS, es, 0) == Ok([]);
    assert SealAll(TOY_CODEC, TOY_SEALERS, es, 1) == Ok([] + [("a", a)]);
    assert SealAll(TOY_CODEC, TOY_SEALERS, es, 2) == Ok(([] + [("a", a)]) + [("b", b)]);
    var sealed := [("a", a), ("b", b)];
    assert ([] + [("a", a)]) + [("b", b)] == sealed;
    ToyGroupBy(a, b);
    ToyPlace(a, b);
  }

  lemma {:induction false} ToyGroupBy<V>(a: V, b: V)
    ensures GroupBy([("a", a), ("b", b)]) == [("a", [a]), ("b", [b])]
    ensures Ungroup([("a", [a]), ("b", [b])]) == [("a", a), ("b", b)]
  {
    GroupBySnoc<VerseKey, V>([], "a", a);
    GroupBySnoc([("a", a)], "b", b);
    assert [("a", a), ("b", b)] == [("a", a)] + [("b", b)];
    var groups: seq<(VerseKey, seq<V>)> := [("a", [a]), ("b", [b])];
    assert groups[..1] == [("a", [a])] && groups[..1][..0] == [] && [a][..0] == [] && [b][..0] == [];
    assert Tag("a", [a]) == [] + [("a", a)] && Tag("b", [b]) == [] + [("b", b)];
    assert Ungroup(groups[..1]) == [] + Tag("a", [a]);
  }

  lemma {:induction false} ToyPlace(a: SealedChunk, b: SealedChunk)
    requires a == SealedChunk([1], [1], [1]) && b == SealedChunk([2], [2], [2])
    ensures LayoutOf(TOY_CODEC, [("a", a), ("b", b)]) ==
      Ok(Layout([1, 2], [ToyPlacement("a", 1, 0, 1), ToyPlacement("b", 2, 1, 0)]))
  {
    var items := [("a", a), ("b", b)];
    assert PlaceOne(TOY_CODEC, 0, "a", a) == Ok(ToyPlacement("a", 1, 0, 1));
    assert PlaceOne(TOY_CODEC, 1, "b", b) == Ok(ToyPlacement("b", 2, 1, 0));
    assert PlaceAll(TOY_CODEC, items, 0) == Ok(Layout([], []));
    assert [] + a.bytes == [1] && [] + [ToyPlacement("a", 1, 0, 1)] == [ToyPlacement("a", 1, 0, 1)];
    assert PlaceAll(TOY_CODEC, items, 1) == Ok(Layout([1], [ToyPlacement("a", 1, 0, 1)]));
    assert [1] + b.bytes == [1, 2];
    assert [ToyPlacement("a", 1, 0, 1)] + [ToyPlacement("b", 2, 1, 0)] ==
        [ToyPlacement("a", 1, 0, 1), ToyPlacement("b", 2, 1, 0)];
  }

  /** A failed commit may have appended: with a record-less chunk in the second
      Verse, the first Verse's pointer is in its log although the commit fails. */
  lemma {:induction false} FailedCommitMayHaveAppended(objects: Objects)
    requires BlobKey("p", [1, 2]) !in objects
    ensures var done := Commit(TOY_CODEC, objects, map["a" := TOY_LOG, "b" := TOY_LOG], TOY_PLAN, TOY_SEALERS, _ =>
      Attempt(true, true), _ => Delivered);
            done.result.Err? && "a" in done.logs && |done.logs["a"].entries| == 1
  {
    ToyLayout();
    var pa, pb := ToyPlacement("a", 1, 0, 1), ToyPlacement("b", 2, 1, 0);
    var logs := map["a" := TOY_LOG, "b" := TOY_LOG];
    var blob := Blob(BlobKey("p", [1, 2]), [1, 2]);
    assert [pa, pb][..1] == [pa] && [pa][..0] == [];
    assert Keyed([pa]) == [] + [("a", pa)];
    assert Keyed([pa, pb]) == [("a", pa), ("b", pb)];
    ToyGroupBy(pa, pb);
    var byVerse := GroupBy(Keyed([pa, pb]));
    KeyShort();
    ToyGroups(logs, blob, byVerse, pa, pb);
  }

  lemma {:induction false} KeyShort()
    ensures 0 < |BlobKey("p", [1, 2])| <= MAX_BLOB_KEY_BYTES
  {
    Hex.HexTextShape([1, 2]);
  }

  lemma {:induction false} ToyGroups(logs: Logs, blob: Blob, byVerse: Groups, pa: Placement, pb: Placement)
    requires pa == ToyPlacement("a", 1, 0, 1) && pb == ToyPlacement("b", 2, 1, 0) &&
      byVerse == [("a", [pa]), ("b", [pb])]
    requires "a" in logs && logs["a"] == TOY_LOG && 0 < |blob.key| <= MAX_BLOB_KEY_BYTES
    ensures var (after, r) := CommitGroups(TOY_CODEC, logs, blob, byVerse, _ => Delivered, 2);
            r.Err? && "a" in after && |after["a"].entries| == 1
  {
    var fates: VerseKey -> Fate := _ => Delivered;
    assert RefsOf(blob, [pa])[0].Valid();
    NoFault(RefsOf(blob, [pa]));
    assert AcceptsAll(TOY_CODEC, 0, blob, [pa], 0);
    assert Appendable(TOY_CODEC, TOY_LOG, blob, [pa]);
    GroupAnswered(TOY_CODEC, logs, blob, "a", [pa], Delivered);
    assert CommitGroups(TOY_CODEC, logs, blob, byVerse, fates, 0) == (logs, Ok([]));
    var after := CommitGroup(TOY_CODEC, logs, blob, "a", [pa], Delivered).0;
    assert CommitGroups(TOY_CODEC, logs, blob, byVerse, fates, 1).0 == after;
    assert RefsOf(blob, [pb])[0].Fault().Some?;
    NoFault(RefsOf(blob, [pb]));
    assert CommitGroup(TOY_CODEC, after, blob, "b", [pb], Delivered).1.Err?;
  }
}
