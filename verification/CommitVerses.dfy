/** The second half of `commit_cut_plan`: one append per Verse, and its acks. */
module CommitVerses {
  import opened Prelude
  import opened BlobModel
  import opened BlobStore
  import opened BlobReader
  import opened Grouping
  import opened CommitPlan
  import Hex

  // The second grouping. -----------------------------------------------------

  function Keyed(ps: seq<Placement>): seq<(VerseKey, Placement)> {
    if ps == [] then [] else Keyed(ps[..|ps| - 1]) + [(ps[|ps| - 1].verseKey, ps[|ps| - 1])]
  }

  method GroupPlacements(ps: seq<Placement>) returns (byVerse: seq<(VerseKey, seq<Placement>)>)
    ensures byVerse == GroupBy(Keyed(ps))
  {
    byVerse := [];
    for i := 0 to |ps|
      invariant byVerse == GroupBy(Keyed(ps[..i]))
    {
      var p := ps[i];
      assert ps[..i + 1][..i] == ps[..i];
      GroupBySnoc(Keyed(ps[..i]), p.verseKey, p);
      var at := FindGroup(byVerse, p.verseKey);
      if at < |byVerse| {
        byVerse := byVerse[at := (p.verseKey, byVerse[at].1 + [p])];
      } else {
        byVerse := byVerse + [(p.verseKey, [p])];
      }
    }
    assert ps[..|ps|] == ps;
  }

  // The first grouping with every chunk replaced by its placement.
  function PlacedGroups(groups: seq<(VerseKey, seq<SealedChunk>)>, ps: seq<Placement>): seq<(VerseKey, seq<Placement>)>
    requires |ps| == |Ungroup(groups)|
  {
    if groups == [] then [] else
      var (verse, chunks) := groups[|groups| - 1];
      TagLength(verse, chunks);
      var cut := |ps| - |chunks|;
      PlacedGroups(groups[..|groups| - 1], ps[..cut]) + [(verse, ps[cut..])]
  }

  lemma {:induction false} TagLength<K, V>(k: K, vs: seq<V>)
    ensures |Tag(k, vs)| == |vs|
    ensures forall i :: 0 <= i < |vs| ==> Tag(k, vs)[i] == (k, vs[i])
  {
    if vs != [] { TagLength(k, vs[..|vs| - 1]); }
  }

  lemma {:induction false} KeyedSplit(ps: seq<Placement>, cut: nat)
    requires cut <= |ps|
    ensures Keyed(ps) == Keyed(ps[..cut]) + Keyed(ps[cut..])
  {
    if cut == |ps| {
      assert ps[..cut] == ps && ps[cut..] == [];
    } else {
      var n := |ps| - 1;
      KeyedSplit(ps[..n], cut);
      assert ps[..n][..cut] == ps[..cut] && ps[..n][cut..] == ps[cut..][..n - cut];
    }
  }

  lemma {:induction false} KeyedIsTag(verse: VerseKey, ps: seq<Placement>)
    requires forall i :: 0 <= i < |ps| ==> ps[i].verseKey == verse
    ensures Keyed(ps) == Tag(verse, ps)
  {
    if ps != [] { KeyedIsTag(verse, ps[..|ps| - 1]); }
  }

  // Placement i stands for item i of the laid-out groups.
  ghost predicate Stands(groups: seq<(VerseKey, seq<SealedChunk>)>, ps: seq<Placement>) {
    |ps| == |Ungroup(groups)| &&
    forall i :: 0 <= i < |ps| ==> (ps[i].verseKey, ps[i].sealed) == Ungroup(groups)[i]
  }

  lemma {:induction false} StandsSplit(groups: seq<(VerseKey, seq<SealedChunk>)>, ps: seq<Placement>)
    requires groups != [] && Stands(groups, ps)
    ensures var (verse, chunks) := groups[|groups| - 1]; var cut := |ps| - |chunks|;
            cut >= 0 && Stands(groups[..|groups| - 1], ps[..cut]) &&
            forall i :: 0 <= i < |chunks| ==> ps[cut..][i].verseKey == verse && ps[cut..][i].sealed == chunks[i]
  {
    hide Tag;
    var (verse, chunks) := groups[|groups| - 1];
    TagLength(verse, chunks);
    var front, all := Ungroup(groups[..|groups| - 1]), Ungroup(groups);
    assert all == front + Tag(verse, chunks);
    var cut := |ps| - |chunks|;
    assert cut == |front|;
    hide Ungroup;
    forall i | 0 <= i < cut ensures (ps[..cut][i].verseKey, ps[..cut][i].sealed) == front[i] {
      assert all[i] == front[i];
    }
    forall i | 0 <= i < |chunks| ensures ps[cut..][i].verseKey == verse && ps[cut..][i].sealed == chunks[i] {
      assert all[cut + i] == (verse, chunks[i]);
      assert ps[cut + i] == ps[cut..][i];
    }
  }

  lemma {:induction false} UngroupPlaced(groups: seq<(VerseKey, seq<SealedChunk>)>, ps: seq<Placement>)
    requires Stands(groups, ps)
    ensures Ungroup(PlacedGroups(groups, ps)) == Keyed(ps)
  {
    if groups != [] {
      StandsSplit(groups, ps);
      var (verse, chunks) := groups[|groups| - 1];
      var cut := |ps| - |chunks|;
      UngroupPlaced(groups[..|groups| - 1], ps[..cut]);
      KeyedSplit(ps, cut);
      KeyedIsTag(verse, ps[cut..]);
      var pg := PlacedGroups(groups, ps);
      assert pg[..|pg| - 1] == PlacedGroups(groups[..|groups| - 1], ps[..cut]);
    }
  }

  // Group g of the placements carries the chunks of group g, in order.
  ghost predicate SameGroups(groups: seq<(VerseKey, seq<SealedChunk>)>, placed: seq<(VerseKey, seq<Placement>)>) {
    |placed| == |groups| && forall g :: 0 <= g < |groups| ==> SameGroup(groups[g], placed[g])
  }

  ghost predicate SameGroup(group: (VerseKey, seq<SealedChunk>), placed: (VerseKey, seq<Placement>)) {
    placed.0 == group.0 && |placed.1| == |group.1| &&
    forall i :: 0 <= i < |group.1| ==> placed.1[i].sealed == group.1[i] && placed.1[i].verseKey == group.0
  }

  lemma {:induction false} PlacedGroupsSame(groups: seq<(VerseKey, seq<SealedChunk>)>, ps: seq<Placement>)
    requires Stands(groups, ps)
    ensures SameGroups(groups, PlacedGroups(groups, ps))
  {
    if groups != [] {
      StandsSplit(groups, ps);
      var n := |groups| - 1;
      PlacedGroupsSame(groups[..n], ps[..|ps| - |groups[n].1|]);
      assert SameGroup(groups[n], PlacedGroups(groups, ps)[n]);
      forall g | 0 <= g < n ensures SameGroup(groups[g], PlacedGroups(groups, ps)[g]) {
        assert SameGroup(groups[..n][g], PlacedGroups(groups[..n], ps[..|ps| - |groups[n].1|])[g]);
      }
    }
  }

  /** Grouping the placements by Verse gives back the groups that were placed:
      each Verse is one contiguous run, its chunks in envelope order. */
  lemma {:induction false} SecondGroupingIsFirst(c: Codec, groups: seq<(VerseKey, seq<SealedChunk>)>)
    requires OneRunEach(groups) && LayoutOf(c, Ungroup(groups)).Ok?
    ensures var ps := LayoutOf(c, Ungroup(groups)).value.placements;
            Stands(groups, ps) && GroupBy(Keyed(ps)) == PlacedGroups(groups, ps) &&
            SameGroups(groups, GroupBy(Keyed(ps)))
  {
    var ps := LayoutOf(c, Ungroup(groups)).value.placements;
    PlaceAllTiles(c, Ungroup(groups), |Ungroup(groups)|);
    assert Stands(groups, ps);
    UngroupPlaced(groups, ps);
    PlacedGroupsSame(groups, ps);
    SameRuns(groups, PlacedGroups(groups, ps));
    Regroup(PlacedGroups(groups, ps));
  }

  lemma {:induction false} SameRuns(groups: seq<(VerseKey, seq<SealedChunk>)>, placed: seq<(VerseKey, seq<Placement>)>)
    requires OneRunEach(groups) && SameGroups(groups, placed)
    ensures OneRunEach(placed)
  {
    forall g | 0 <= g < |groups| ensures placed[g].0 == groups[g].0 && placed[g].1 != [] {
      assert SameGroup(groups[g], placed[g]);
    }
  }

  // One Verse's append. ------------------------------------------------------

  /** The shared object of a commit: its key and digest. */
  datatype Blob = Blob(key: Key, digest: Digest)

  function RefOf(blob: Blob, p: Placement): DataRef {
    DataRef(blob.key, p.offset, p.length, p.recordCount, p.sealed.chunkId, p.sealed.digest, blob.digest)
  }

  function RefsOf(blob: Blob, group: seq<Placement>): (refs: seq<DataRef>)
    ensures |refs| == |group|
    ensures forall i :: 0 <= i < |group| ==> refs[i] == RefOf(blob, group[i])
  {
    if group == [] then [] else RefsOf(blob, group[..|group| - 1]) + [RefOf(blob, group[|group| - 1])]
  }

  function RecordTotal(group: seq<Placement>, n: nat): nat
    requires n <= |group|
  {
    if n == 0 then 0 else RecordTotal(group, n - 1) + group[n - 1].recordCount
  }

  // The fenced writer's check of one chunk against its pointer and the dense offset.
  predicate Accepts(c: Codec, expected: nat, s: SealedChunk, r: DataRef) {
    r.Valid() && c.index(s.bytes).Some? &&
    var index := c.index(s.bytes).value;
    index.chunkId == s.chunkId && c.digest(s.bytes) == s.digest && |index.frames| == 1 &&
    index.frames[0].baseOffset == expected && r.recordCount == index.frames[0].recordCount &&
    r.chunkId == s.chunkId && r.chunkDigest == s.digest && expected + index.frames[0].recordCount < U64_LIMIT
  }

  predicate AcceptsAll(c: Codec, start: nat, blob: Blob, group: seq<Placement>, n: nat)
    requires n <= |group|
  {
    n == 0 ||
    (AcceptsAll(c, start, blob, group, n - 1) &&
     Accepts(c, start + RecordTotal(group, n - 1), group[n - 1].sealed, RefOf(blob, group[n - 1])))
  }

  const MAX_BATCH: nat := 65535

  function PayloadFor(blob: Blob, group: seq<Placement>): LogPayload {
    if |group| == 1 then DataRefEntry(RefOf(blob, group[0])) else ReferenceBatch(RefsOf(blob, group))
  }

  predicate Appendable(c: Codec, log: VerseLog, blob: Blob, group: seq<Placement>) {
    !log.poisoned && group != [] && AcceptsAll(c, log.nextOffset, blob, group, |group|) &&
    (|group| > 1 ==> |group| <= MAX_BATCH && RecordTotal(group, |group|) < U32_LIMIT)
  }

  /** `append_data_ref` / `append_reference_batch` under one Verse's fence. */
  function AppendDataRefs(c: Codec, log: VerseLog, blob: Blob, group: seq<Placement>, fate: Fate)
    : (VerseLog, Result<Ack, WriterError>)
  {
    if !Appendable(c, log, blob, group) then (log, Err(AppendRefused)) else
      var next := log.nextOffset + RecordTotal(group, |group|);
      (WriteEntry(log, PayloadFor(blob, group), next, fate),
       if fate.Delivered? then
         Ok(Ack(|log.entries|, group[0].sealed.chunkId, log.nextOffset, next, RecordTotal(group, |group|)))
       else Err(AppendRefused))
  }

  // The batch answer split over its members; the offset arithmetic may overflow.
  function SplitAck(verse: VerseKey, ack: Ack, group: seq<Placement>, n: nat)
    : Result<seq<PlacementOutcome>, WriterError>
    requires n <= |group|
  {
    if n == 0 then Ok([]) else
      match SplitAck(verse, ack, group, n - 1)
      case Err(e) => Err(e)
      case Ok(front) =>
        var p, next := group[n - 1], ack.firstOffset + RecordTotal(group, n);
        if next >= U64_LIMIT then Err(OffsetOverflow)
        else Ok(front + [PlacementOutcome(verse, p.sealed.chunkId,
                   Ok(Ack(ack.slot, p.sealed.chunkId, ack.firstOffset + RecordTotal(group, n - 1), next,
                       p.recordCount)))])
  }

  // A refused batch: the first placement carries the error, the others share it.
  function Refusals(verse: VerseKey, e: WriterError, group: seq<Placement>, n: nat): seq<PlacementOutcome>
    requires n <= |group|
  {
    if n == 0 then []
    else Refusals(verse, e, group, n - 1) +
         [PlacementOutcome(verse, group[n - 1].sealed.chunkId, Err(if n == 1 then e else SharedFailure))]
  }

  /** One Verse of a commit: its log afterwards, and its outcomes or the error
      that aborts the whole commit. */
  function CommitGroup(c: Codec, logs: map<VerseKey, VerseLog>, blob: Blob, verse: VerseKey, group: seq<Placement>,
          fate: Fate)
    : (map<VerseKey, VerseLog>, Result<seq<PlacementOutcome>, WriterError>)
  {
    if FirstFault(RefsOf(blob, group)).Some? then (logs, Err(DataRefInvalid(FirstFault(RefsOf(blob, group)).value)))
    else if verse !in logs then (logs, Ok(Refusals(verse, NoTarget(verse), group, |group|)))
    else
      var (log, reply) := AppendDataRefs(c, logs[verse], blob, group, fate);
      (logs[verse := log],
       match reply
       case Err(e) => Ok(Refusals(verse, e, group, |group|))
       case Ok(ack) => SplitAck(verse, ack, group, |group|))
  }

  // The first `n` Verses in order, stopping at the first aborting error.
  function CommitGroups(c: Codec, logs: map<VerseKey, VerseLog>, blob: Blob, byVerse: seq<(VerseKey, seq<Placement>)>,
          fates: VerseKey -> Fate, n: nat)
    : (map<VerseKey, VerseLog>, Result<seq<PlacementOutcome>, WriterError>)
    requires n <= |byVerse|
  {
    if n == 0 then (logs, Ok([])) else
      var (before, front) := CommitGroups(c, logs, blob, byVerse, fates, n - 1);
      if front.Err? then (before, front) else
        var (after, back) := CommitGroup(c, before, blob, byVerse[n - 1].0, byVerse[n - 1].1, fates(byVerse[n - 1].0));
        (after, if back.Err? then back else Ok(front.value + back.value))
  }

  lemma {:induction false} GroupsFailureSticks(c: Codec, logs: map<VerseKey, VerseLog>, blob: Blob,
          byVerse: seq<(VerseKey, seq<Placement>)>, fates: VerseKey -> Fate, k: nat, n: nat)
    requires k <= n <= |byVerse| && CommitGroups(c, logs, blob, byVerse, fates, k).1.Err?
    ensures CommitGroups(c, logs, blob, byVerse, fates, n) == CommitGroups(c, logs, blob, byVerse, fates, k)
  {
    if k < n { GroupsFailureSticks(c, logs, blob, byVerse, fates, k, n - 1); }
  }

  method Prepare(blob: Blob, group: seq<Placement>) returns (r: Result<seq<DataRef>, DataRefError>)
    ensures r.Err? ==> FirstFault(RefsOf(blob, group)) == Some(r.error)
    ensures r.Ok? ==> FirstFault(RefsOf(blob, group)).None? && r.value == RefsOf(blob, group)
  {
    var prepared := [];
    ghost var refs := RefsOf(blob, group);
    for i := 0 to |group|
      invariant prepared == refs[..i] && forall j :: 0 <= j < i ==> refs[j].Fault().None?
    {
      var r := RefOf(blob, group[i]);
      if r.Fault().Some? {
        FirstFaultAt(refs, i);
        return Err(r.Fault().value);
      }
      prepared := prepared + [r];
    }
    NoFault(refs);
    r := Ok(prepared);
  }

  lemma {:induction false} SplitFailureSticks(verse: VerseKey, ack: Ack, group: seq<Placement>, k: nat, n: nat)
    requires k <= n <= |group| && SplitAck(verse, ack, group, k).Err?
    ensures SplitAck(verse, ack, group, n) == SplitAck(verse, ack, group, k)
  {
    if k < n { SplitFailureSticks(verse, ack, group, k, n - 1); }
  }

  method SplitBatchAck(verse: VerseKey, ack: Ack, group: seq<Placement>)
    returns (r: Result<seq<PlacementOutcome>, WriterError>)
    ensures r == SplitAck(verse, ack, group, |group|)
  {
    var outcomes, next := [], ack.firstOffset;
    for i := 0 to |group|
      invariant SplitAck(verse, ack, group, i) == Ok(outcomes) && next == ack.firstOffset + RecordTotal(group, i)
    {
      var placementNext := next + group[i].recordCount;
      if placementNext >= U64_LIMIT {
        SplitFailureSticks(verse, ack, group, i + 1, |group|);
        return Err(OffsetOverflow);
      }
      outcomes := outcomes +
        [PlacementOutcome(verse, group[i].sealed.chunkId,
            Ok(Ack(ack.slot, group[i].sealed.chunkId, next, placementNext, group[i].recordCount)))];
      next := placementNext;
    }
    r := Ok(outcomes);
  }

  method RefuseBatch(verse: VerseKey, e: WriterError, group: seq<Placement>) returns (outcomes: seq<PlacementOutcome>)
    ensures outcomes == Refusals(verse, e, group, |group|)
  {
    outcomes := [];
    for i := 0 to |group|
      invariant outcomes == Refusals(verse, e, group, i)
    {
      outcomes := outcomes + [PlacementOutcome(verse, group[i].sealed.chunkId,
          Err(if i == 0 then e else SharedFailure))];
    }
  }

  method CommitOneVerse(d: Deployment, c: Codec, blob: Blob, verse: VerseKey, group: seq<Placement>, fate: Fate)
    returns (r: Result<seq<PlacementOutcome>, WriterError>)
    modifies d`logs
    ensures (d.logs, r) == CommitGroup(c, old(d.logs), blob, verse, group, fate)
  {
    var prepared := Prepare(blob, group);
    if prepared.Err? {
      return Err(DataRefInvalid(prepared.error));
    }
    if verse !in d.logs {
      var refused := RefuseBatch(verse, NoTarget(verse), group);
      return Ok(refused);
    }
    var (log, reply) := AppendDataRefs(c, d.logs[verse], blob, group, fate);
    d.logs := d.logs[verse := log];
    match reply {
      case Err(e) =>
        var refused := RefuseBatch(verse, e, group);
        r := Ok(refused);
      case Ok(ack) =>
        r := SplitBatchAck(verse, ack, group);
    }
  }

  method CommitEachVerse(d: Deployment, c: Codec, blob: Blob, byVerse: seq<(VerseKey, seq<Placement>)>,
          fates: VerseKey -> Fate)
    returns (r: Result<seq<PlacementOutcome>, WriterError>)
    modifies d`logs
    ensures (d.logs, r) == CommitGroups(c, old(d.logs), blob, byVerse, fates, |byVerse|)
  {
    var outcomes := [];
    for g := 0 to |byVerse|
      invariant CommitGroups(c, old(d.logs), blob, byVerse, fates, g) == (d.logs, Ok(outcomes))
    {
      var one := CommitOneVerse(d, c, blob, byVerse[g].0, byVerse[g].1, fates(byVerse[g].0));
      if one.Err? {
        GroupsFailureSticks(c, old(d.logs), blob, byVerse, fates, g + 1, |byVerse|);
        return one;
      }
      outcomes := outcomes + one.value;
    }
    r := Ok(outcomes);
  }

  // The whole commit. --------------------------------------------------------

  function BlobKey(prefix: string, digest: Digest): Key {
    prefix + "/" + Hex.HexText(digest)
  }

  // The groups of a plan and their layout, before anything is written.
  function PlanLayout(c: Codec, plan: CutPlan, sealers: Sealers): Result<Layout, WriterError> {
    match SealAll(c, sealers, plan.envelopes, |plan.envelopes|)
    case Err(e) => Err(e)
    case Ok(sealed) =>
      match LayoutOf(c, Ungroup(GroupBy(sealed)))
      case Err(e) => Err(e)
      case Ok(layout) => if plan.blobPrefix == "" then Err(EmptyPrefix) else Ok(layout)
  }

  datatype After = After(objects: Objects, logs: map<VerseKey, VerseLog>,
          result: Result<seq<PlacementOutcome>, WriterError>)

  /** What a commit does to the store and the logs, and what it answers. */
  function Commit(c: Codec, objects: Objects, logs: map<VerseKey, VerseLog>, plan: CutPlan, sealers: Sealers,
          env: nat -> Attempt, fates: VerseKey -> Fate): After
  {
    match PlanLayout(c, plan, sealers)
    case Err(e) => After(objects, logs, Err(e))
    case Ok(layout) =>
      var digest := c.digest(layout.bytes);
      var key := BlobKey(plan.blobPrefix, digest);
      var (stored, put) := PutOutcome(c, objects, key, layout.bytes, digest, env, 0);
      if put.Err? then After(stored, logs, Err(put.error)) else
        var byVerse := GroupBy(Keyed(layout.placements));
        var (committed, result) := CommitGroups(c, logs, Blob(key, digest), byVerse, fates, |byVerse|);
        After(stored, committed, result)
  }

  method CommitCutPlan(d: Deployment, c: Codec, plan: CutPlan, sealers: Sealers, env: nat -> Attempt,
          fates: VerseKey -> Fate)
    returns (r: Result<seq<PlacementOutcome>, WriterError>)
    modifies d
    ensures After(d.objects, d.logs, r) == Commit(c, old(d.objects), old(d.logs), plan, sealers, env, fates)
  {
    var groups := SealAndGroup(c, sealers, plan.envelopes);
    if groups.Err? {
      return Err(groups.error);
    }
    var layout := Place(c, groups.value);
    if layout.Err? {
      return Err(layout.error);
    }
    var digest := c.digest(layout.value.bytes);
    if plan.blobPrefix == "" {
      return Err(EmptyPrefix);
    }
    var hex := Hex.HexEncode(digest);
    var key := plan.blobPrefix + "/" + hex;
    var put := d.PutAndVerify(c, key, layout.value.bytes, digest, env);
    if put.Err? {
      return Err(put.error);
    }
    var byVerse := GroupPlacements(layout.value.placements);
    r := CommitEachVerse(d, c, Blob(key, digest), byVerse, fates);
  }
}
