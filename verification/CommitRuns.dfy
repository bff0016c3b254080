/** A commit is a run of the lifecycle, whatever is refused or lost on the way. */
module CommitRuns {
  import opened Prelude
  import opened BlobModel
  import opened BlobStore
  import opened BlobReader
  import opened BlobScan
  import opened BlobCollect
  import opened Grouping
  import opened CommitPlan
  import opened CommitVerses
  import opened CommitTheorems
  import opened CommitAnswers
  import opened Lifecycle
  import opened LifecycleRuns

  // The entries of the fenced logs, as readers see them.
  ghost function Entries(logs: Logs): LogFamily {
    map v | v in logs :: logs[v].entries
  }

  /** At each append of the run, the pointers appended are stored, digests matching. */
  ghost predicate BytesFirst(c: Codec, w: World, steps: seq<Step>)
    decreases steps
  {
    steps == [] ||
    ((steps[0].AppendRefs? ==> forall r :: r in PayloadRefs(steps[0].payload) ==> Backed(c, w.objects, r)) &&
     BytesFirst(c, Apply(w, steps[0]), steps[1..]))
  }

  lemma {:induction false} BytesFirstConcat(c: Codec, w: World, a: seq<Step>, b: seq<Step>)
    requires BytesFirst(c, w, a) && BytesFirst(c, Final(w, a), b)
    ensures BytesFirst(c, w, a + b)
    decreases a
  {
    if a == [] {
      assert a + b == b;
    } else {
      assert (a + b)[0] == a[0] && (a + b)[1..] == a[1..] + b;
      BytesFirstConcat(c, Apply(w, a[0]), a[1..], b);
    }
  }

  // A run, with bytes before pointers.
  ghost predicate SafeRun(c: Codec, cfg: RewriteConfig, idn: Identity, w: World, steps: seq<Step>) {
    Runs(c, cfg, idn, w, steps) && BytesFirst(c, w, steps)
  }

  lemma {:induction false} SafeConcat(c: Codec, cfg: RewriteConfig, idn: Identity, w: World, a: seq<Step>, b: seq<Step>)
    requires SafeRun(c, cfg, idn, w, a) && SafeRun(c, cfg, idn, Final(w, a), b)
    ensures SafeRun(c, cfg, idn, w, a + b) && Final(w, a + b) == Final(Final(w, a), b)
  {
    RunsConcat(c, cfg, idn, w, a, b);
    BytesFirstConcat(c, w, a, b);
  }

  lemma {:induction false} SafeOne(c: Codec, cfg: RewriteConfig, idn: Identity, w: World, s: Step)
    requires Enabled(c, cfg, idn, w, s)
    requires s.AppendRefs? ==> forall r :: r in PayloadRefs(s.payload) ==> Backed(c, w.objects, r)
    ensures SafeRun(c, cfg, idn, w, [s]) && Final(w, [s]) == Apply(w, s)
  {
    assert [s][1..] == [];
  }

  ghost predicate Ready(c: Codec, cfg: RewriteConfig, idn: Identity, objects: Objects, v: VerseKey, r: DataRef) {
    Standing(c, cfg, objects, r) && Genuine(c, idn, r) && idn.owner(r.chunkId) == v
  }

  // Checking a list of pointers one by one.
  lemma {:induction false} VerifyRun(c: Codec, cfg: RewriteConfig, idn: Identity, w: World, v: VerseKey,
          refs: seq<DataRef>) returns (steps: seq<Step>)
    requires forall i :: 0 <= i < |refs| ==> Ready(c, cfg, idn, w.objects, v, refs[i])
    ensures SafeRun(c, cfg, idn, w, steps)
    ensures Final(w, steps) == w.(verified := w.verified + set r | r in refs)
  {
    if refs == [] {
      steps := [];
      assert (set r | r in refs) == {};
    } else {
      var n := |refs| - 1;
      var front := VerifyRun(c, cfg, idn, w, v, refs[..n]);
      var mid := Final(w, front);
      assert Ready(c, cfg, idn, w.objects, v, refs[n]);
      SafeOne(c, cfg, idn, mid, Verify(refs[n]));
      SafeConcat(c, cfg, idn, w, front, [Verify(refs[n])]);
      assert refs == refs[..n] + [refs[n]];
      assert (set r | r in refs) == (set r | r in refs[..n]) + {refs[n]};
      steps := front + [Verify(refs[n])];
    }
  }

  // One append of verified pointers to a Verse's log.
  lemma {:induction false} AppendRun(c: Codec, cfg: RewriteConfig, idn: Identity, w: World, v: VerseKey, p: LogPayload)
    returns (steps: seq<Step>)
    requires v in w.logs && (p.DataRefEntry? || p.ReferenceBatch?)
    requires forall r :: r in PayloadRefs(p) ==> Ready(c, cfg, idn, w.objects, v, r)
    ensures SafeRun(c, cfg, idn, w, steps)
    ensures Final(w, steps).objects == w.objects && Final(w, steps).acked == w.acked
    ensures Final(w, steps).logs == w.logs[v := w.logs[v] + [p]]
  {
    var refs := PayloadRefs(p);
    var front := VerifyRun(c, cfg, idn, w, v, refs);
    var mid := Final(w, front);
    forall r | r in refs ensures Backed(c, mid.objects, r) && r in mid.verified && idn.owner(r.chunkId) == v {
      assert Ready(c, cfg, idn, w.objects, v, r);
    }
    SafeOne(c, cfg, idn, mid, AppendRefs(v, p));
    SafeConcat(c, cfg, idn, w, front, [AppendRefs(v, p)]);
    steps := front + [AppendRefs(v, p)];
  }

  // Acknowledging chunks the log holds.
  lemma {:induction false} AckRun(c: Codec, cfg: RewriteConfig, idn: Identity, w: World, v: VerseKey, ids: seq<ChunkId>)
    returns (steps: seq<Step>)
    requires forall i :: 0 <= i < |ids| ==> Acked(c, w, v, ids[i])
    ensures SafeRun(c, cfg, idn, w, steps)
    ensures Final(w, steps) == w.(acked := w.acked + set id | id in ids :: (v, id))
  {
    if ids == [] {
      steps := [];
      assert (set id | id in ids :: (v, id)) == {};
    } else {
      var n := |ids| - 1;
      var front := AckRun(c, cfg, idn, w, v, ids[..n]);
      SafeOne(c, cfg, idn, Final(w, front), Acknowledge(v, ids[n]));
      SafeConcat(c, cfg, idn, w, front, [Acknowledge(v, ids[n])]);
      assert ids == ids[..n] + [ids[n]];
      assert (set id | id in ids :: (v, id)) == (set id | id in ids[..n] :: (v, id)) + {(v, ids[n])};
      steps := front + [Acknowledge(v, ids[n])];
    }
  }

  lemma {:induction false} AppendedAcked(c: Codec, cfg: RewriteConfig, idn: Identity, w: World, v: VerseKey,
          p: LogPayload, before: seq<LogPayload>, r: DataRef)
    requires Inv(c, cfg, idn, w) && v in w.logs && w.logs[v] == before + [p] && r in PayloadRefs(p)
    ensures Acked(c, w, v, r.chunkId)
  {
    assert GoodLog(c, cfg, idn, w, v) && LogOf(w, v) == w.logs[v];
    GoodLogReads(c, idn, v, w.logs[v]);
    var items := Candidates(c, w.logs[v]).value;
    assert w.logs[v][..|before|] == before;
    assert r in LogRefs(w.logs[v]);
    CandidateRefs(c, w.logs[v], r);
    var i :| 0 <= i < |items| && items[i] == Ref(r);
  }

  ghost predicate AckedAll(w: World, outs: seq<PlacementOutcome>) {
    forall i :: 0 <= i < |outs| && outs[i].result.Ok? ==> (outs[i].verseKey, outs[i].chunkId) in w.acked
  }

  lemma {:induction false} PayloadForRefs(blob: Blob, group: seq<Placement>)
    requires group != []
    ensures PayloadFor(blob, group).DataRefEntry? || PayloadFor(blob, group).ReferenceBatch?
    ensures PayloadRefs(PayloadFor(blob, group)) == RefsOf(blob, group)
  {
    if |group| == 1 { assert RefsOf(blob, group) == [RefOf(blob, group[0])]; }
  }

  ghost predicate Writes(c: Codec, logs: Logs, blob: Blob, verse: VerseKey, group: seq<Placement>, fate: Fate) {
    verse in logs && Appendable(c, logs[verse], blob, group) && (fate.Delivered? || fate.AnswerLost?)
  }

  // What a group's append leaves in the log, entry by entry.
  lemma {:induction false} GroupEntries(c: Codec, logs: Logs, blob: Blob, verse: VerseKey, group: seq<Placement>,
          fate: Fate)
    requires Encodable(blob, group)
    ensures Entries(CommitGroup(c, logs, blob, verse, group, fate).0) ==
            if Writes(c, logs, blob, verse, group, fate)
                then Entries(logs)[verse := logs[verse].entries + [PayloadFor(blob, group)]]
            else Entries(logs)
  {
    EncodableNoFault(blob, group);
    hide Encodable, RefsOf, FirstFault, Appendable, PayloadFor, Refusals, SplitAck;
  }

  lemma {:induction false} GroupNames(c: Codec, logs: Logs, blob: Blob, verse: VerseKey, group: seq<Placement>,
          fate: Fate)
    requires Encodable(blob, group)
    ensures CommitGroup(c, logs, blob, verse, group, fate).1.Ok?
    ensures var outs := CommitGroup(c, logs, blob, verse, group, fate).1.value;
            |outs| == |group| && forall i :: 0 <= i < |outs| ==>
                outs[i].verseKey == verse && outs[i].chunkId == group[i].sealed.chunkId
  {
    GroupAnswered(c, logs, blob, verse, group, fate);
    assert OwnAnswer(c, logs, blob, (verse, group), _ => fate) ==
        CommitGroup(c, logs, blob, verse, group, fate).1.value;
    hide CommitGroup;
    OwnOutcome(c, logs, blob, (verse, group), _ => fate);
    AnsweredOwn(c, logs, blob, (verse, group), _ => fate);
  }

  // Without a delivered append nothing is acknowledged.
  lemma {:induction false} GroupRefuses(c: Codec, logs: Logs, blob: Blob, verse: VerseKey, group: seq<Placement>,
          fate: Fate)
    requires Encodable(blob, group) && !(Writes(c, logs, blob, verse, group, fate) && fate.Delivered?)
    ensures CommitGroup(c, logs, blob, verse, group, fate).1.Ok?
    ensures forall i :: 0 <= i < |CommitGroup(c, logs, blob, verse, group, fate).1.value| ==>
              CommitGroup(c, logs, blob, verse, group, fate).1.value[i].result.Err?
  {
    EncodableNoFault(blob, group);
    RefusalsAll(verse, NoTarget(verse), group, |group|);
    RefusalsAll(verse, AppendRefused, group, |group|);
    hide Encodable, RefsOf, FirstFault, Appendable, PayloadFor, Refusals, SplitAck, WriteEntry;
  }

  lemma {:induction false} AckGroup(c: Codec, cfg: RewriteConfig, idn: Identity, w: World, verse: VerseKey,
          before: seq<LogPayload>, blob: Blob, group: seq<Placement>) returns (steps: seq<Step>)
    requires Inv(c, cfg, idn, w) && verse in w.logs && group != [] &&
      w.logs[verse] == before + [PayloadFor(blob, group)]
    ensures SafeRun(c, cfg, idn, w, steps)
    ensures Final(w, steps).objects == w.objects && Final(w, steps).logs == w.logs && w.acked <= Final(w, steps).acked
    ensures forall p :: p in group ==> (verse, p.sealed.chunkId) in Final(w, steps).acked
  {
    var ids := seq(|group|, i requires 0 <= i < |group| => group[i].sealed.chunkId);
    PayloadForRefs(blob, group);
    forall i | 0 <= i < |ids| ensures Acked(c, w, verse, ids[i]) {
      assert RefsOf(blob, group)[i] == RefOf(blob, group[i]);
      AppendedAcked(c, cfg, idn, w, verse, PayloadFor(blob, group), before, RefOf(blob, group[i]));
    }
    steps := AckRun(c, cfg, idn, w, verse, ids);
    forall p | p in group ensures (verse, p.sealed.chunkId) in Final(w, steps).acked {
      var i :| 0 <= i < |group| && group[i] == p;
      assert ids[i] in ids;
    }
  }

  /** One Verse's part of a commit, as steps. */
  lemma {:induction false} GroupRun(c: Codec, cfg: RewriteConfig, idn: Identity, w: World, logs: Logs, blob: Blob,
          verse: VerseKey, group: seq<Placement>, fate: Fate) returns (steps: seq<Step>)
    requires Inv(c, cfg, idn, w) && w.logs == Entries(logs) && Encodable(blob, group)
    requires forall i :: 0 <= i < |group| ==> Ready(c, cfg, idn, w.objects, verse, RefOf(blob, group[i]))
    ensures SafeRun(c, cfg, idn, w, steps)
    ensures var (after, r) := CommitGroup(c, logs, blob, verse, group, fate);
            r.Ok? && Final(w, steps).objects == w.objects && Final(w, steps).logs == Entries(after) &&
            w.acked <= Final(w, steps).acked && AckedAll(Final(w, steps), r.value)
  {
    hide CommitGroup, Encodable, Ready, Inv;
    GroupEntries(c, logs, blob, verse, group, fate);
    GroupNames(c, logs, blob, verse, group, fate);
    if Writes(c, logs, blob, verse, group, fate) {
      var p := PayloadFor(blob, group);
      PayloadForRefs(blob, group);
      steps := AppendRun(c, cfg, idn, w, verse, p);
      if fate.Delivered? {
        var mid := Final(w, steps);
        SafeKeepsInv(c, cfg, idn, w, steps);
        var acks := AckGroup(c, cfg, idn, mid, verse, w.logs[verse], blob, group);
        SafeConcat(c, cfg, idn, w, steps, acks);
        steps := steps + acks;
      } else {
        GroupRefuses(c, logs, blob, verse, group, fate);
      }
    } else {
      GroupRefuses(c, logs, blob, verse, group, fate);
      steps := [];
    }
  }

  lemma {:induction false} SafeKeepsInv(c: Codec, cfg: RewriteConfig, idn: Identity, w: World, steps: seq<Step>)
    requires Inv(c, cfg, idn, w) && SafeRun(c, cfg, idn, w, steps)
    ensures Inv(c, cfg, idn, Final(w, steps))
  {
    RunKeepsInv(c, cfg, idn, w, steps);
  }

  // Every pointer of the groups that can be encoded is good in the store.
  ghost predicate GroupsReady(c: Codec, cfg: RewriteConfig, idn: Identity, objects: Objects, blob: Blob,
          byVerse: Groups)
  {
    forall g, i :: 0 <= g < |byVerse| && 0 <= i < |byVerse[g].1| && RefOf(blob, byVerse[g].1[i]).Valid() ==>
      Ready(c, cfg, idn, objects, byVerse[g].0, RefOf(blob, byVerse[g].1[i]))
  }

  /** The Verses of a commit in turn, up to the first that aborts it, as steps. */
  lemma {:induction false} GroupsRun(c: Codec, cfg: RewriteConfig, idn: Identity, w: World, logs: Logs, blob: Blob,
          byVerse: Groups, fates: VerseKey -> Fate, n: nat) returns (steps: seq<Step>)
    requires n <= |byVerse| && Inv(c, cfg, idn, w) && w.logs == Entries(logs) &&
      GroupsReady(c, cfg, idn, w.objects, blob, byVerse)
    ensures SafeRun(c, cfg, idn, w, steps)
    ensures var (after, r) := CommitGroups(c, logs, blob, byVerse, fates, n);
            Final(w, steps).objects == w.objects && Final(w, steps).logs == Entries(after) &&
            w.acked <= Final(w, steps).acked && (r.Ok? ==> AckedAll(Final(w, steps), r.value))
  {
    if n == 0 {
      steps := [];
    } else {
      steps := GroupsRun(c, cfg, idn, w, logs, blob, byVerse, fates, n - 1);
      var (before, front) := CommitGroups(c, logs, blob, byVerse, fates, n - 1);
      var (verse, group) := byVerse[n - 1];
      if front.Ok? {
        GroupOk(c, before, blob, verse, group, fates(verse));
        if Encodable(blob, group) {
          SafeKeepsInv(c, cfg, idn, w, steps);
          var mid := Final(w, steps);
          hide CommitGroup, SafeRun, Inv, Ready;
          forall i | 0 <= i < |group| ensures Ready(c, cfg, idn, mid.objects, verse, RefOf(blob, group[i])) {
            assert RefOf(blob, byVerse[n - 1].1[i]).Valid();
          }
          hide Encodable, GroupsReady;
          var more := GroupRun(c, cfg, idn, mid, before, blob, verse, group, fates(verse));
          SafeConcat(c, cfg, idn, w, steps, more);
          AckedBoth(mid, Final(mid, more), front.value,
              CommitGroup(c, before, blob, verse, group, fates(verse)).1.value);
          steps := steps + more;
        }
      }
    }
  }

  lemma {:induction false} AckedBoth(mid: World, end: World, a: seq<PlacementOutcome>, b: seq<PlacementOutcome>)
    requires AckedAll(mid, a) && AckedAll(end, b) && mid.acked <= end.acked
    ensures AckedAll(end, a + b)
  {
  }

  // The sealing contract: what a Verse seals for an envelope decodes to that
  // envelope's stable identity, and envelopes carry their own Verse's chunks.
  ghost predicate HonestSealing(c: Codec, idn: Identity, sealers: Sealers, es: seq<Envelope>) {
    forall i :: 0 <= i < |es| && sealers.seal(i, es[i]).Ok? && sealers.seal(i, es[i]).value.chunkId == es[i].chunkId ==>
      SealedAs(c, idn, sealers.seal(i, es[i]).value.bytes, es[i].chunkId) && idn.owner(es[i].chunkId) == es[i].verseKey
  }

  ghost predicate GoodSealed(c: Codec, idn: Identity, item: (VerseKey, SealedChunk)) {
    SealedAs(c, idn, item.1.bytes, item.1.chunkId) && c.digest(item.1.bytes) == item.1.digest &&
        idn.owner(item.1.chunkId) == item.0
  }

  lemma {:induction false} SealedItemsGood(c: Codec, idn: Identity, sealers: Sealers, es: seq<Envelope>)
    requires HonestSealing(c, idn, sealers, es) && SealAll(c, sealers, es, |es|).Ok?
    ensures forall item :: item in Ungroup(GroupBy(SealAll(c, sealers, es, |es|).value)) ==> GoodSealed(c, idn, item)
  {
    var sealed := SealAll(c, sealers, es, |es|).value;
    GroupByKeepsAll(sealed);
    SealLength(c, sealers, es, |es|);
    forall item | item in Ungroup(GroupBy(sealed)) ensures GoodSealed(c, idn, item) {
      assert item in multiset(Ungroup(GroupBy(sealed)));
      assert item in sealed;
      var i :| 0 <= i < |sealed| && sealed[i] == item;
      SealAllAt(c, sealers, es, |es|, i);
    }
  }

  lemma {:induction false} SealLength(c: Codec, sealers: Sealers, es: seq<Envelope>, n: nat)
    requires n <= |es| && SealAll(c, sealers, es, n).Ok?
    ensures |SealAll(c, sealers, es, n).value| == n
  {
    if n > 0 { SealLength(c, sealers, es, n - 1); }
  }

  ghost predicate GoodPlacement(c: Codec, idn: Identity, p: Placement) {
    GoodSealed(c, idn, (p.verseKey, p.sealed))
  }

  /** A placed chunk's pointer is good as soon as the object is stored. */
  lemma {:induction false} PlacementReady(c: Codec, cfg: RewriteConfig, idn: Identity, objects: Objects, blob: Blob,
          bytes: Bytes, ps: seq<Placement>, k: nat)
    requires SelfDelimiting(c) && Tiles(bytes, ps) && k < |ps| && forall i :: 0 <= i < |ps| ==>
      GoodPlacement(c, idn, ps[i])
    requires blob.key in objects && objects[blob.key] == bytes && blob.digest == c.digest(bytes) &&
      RefOf(blob, ps[k]).Valid()
    ensures Ready(c, cfg, idn, objects, ps[k].verseKey, RefOf(blob, ps[k]))
  {
    var p, r := ps[k], RefOf(blob, ps[k]);
    assert HoldsBytes(bytes, p) && GoodPlacement(c, idn, p);
    assert Slice(objects, r) == p.sealed.bytes;
    assert IsCopy(c, idn, r, p.sealed.bytes);
    forall i | 0 <= i < |ps| ensures c.decode(ps[i].sealed.bytes).Some? &&
        c.decode(ps[i].sealed.bytes).value.chunkId == ps[i].sealed.chunkId {
      assert GoodPlacement(c, idn, ps[i]);
    }
    assert Tile(r.offset, r.length, r.chunkId) == Tile(p.offset, p.length, p.sealed.chunkId);
    WalkIsLayout(c, bytes, ps);
  }

  lemma {:induction false} GroupMembers(ps: seq<Placement>, g: nat, i: nat)
    requires g < |GroupBy(Keyed(ps))| && i < |GroupBy(Keyed(ps))[g].1|
    ensures GroupBy(Keyed(ps))[g].1[i] in ps && GroupBy(Keyed(ps))[g].1[i].verseKey == GroupBy(Keyed(ps))[g].0
  {
    var byVerse := GroupBy(Keyed(ps));
    GroupByKeepsAll(Keyed(ps));
    UngroupHas(byVerse, g, i);
    var item := (byVerse[g].0, byVerse[g].1[i]);
    hide GroupBy, Ungroup, Keyed;
    assert item in multiset(Ungroup(byVerse));
    assert item in Keyed(ps);
    KeyedKeyed(ps, item.0, item.1);
  }

  lemma {:induction false} KeyedKeyed(ps: seq<Placement>, verse: VerseKey, p: Placement)
    requires (verse, p) in Keyed(ps)
    ensures p in ps && p.verseKey == verse
  {
    var n := |ps| - 1;
    if (verse, p) in Keyed(ps[..n]) { KeyedKeyed(ps[..n], verse, p); }
  }

  lemma {:induction false} LayoutReady(c: Codec, cfg: RewriteConfig, idn: Identity, objects: Objects, plan: CutPlan,
          sealers: Sealers, layout: Layout, blob: Blob)
    requires SelfDelimiting(c) && HonestSealing(c, idn, sealers, plan.envelopes) &&
      PlanLayout(c, plan, sealers) == Ok(layout)
    requires blob.key in objects && objects[blob.key] == layout.bytes && blob.digest == c.digest(layout.bytes)
    ensures GroupsReady(c, cfg, idn, objects, blob, GroupBy(Keyed(layout.placements)))
  {
    hide SealAll, PlaceAll, GroupBy, Keyed, Ready;
    var ps := layout.placements;
    var items := Ungroup(GroupBy(SealAll(c, sealers, plan.envelopes, |plan.envelopes|).value));
    SealedItemsGood(c, idn, sealers, plan.envelopes);
    PlaceAllTiles(c, items, |items|);
    hide PlanLayout, Ungroup;
    forall i | 0 <= i < |ps| ensures GoodPlacement(c, idn, ps[i]) {
      assert (ps[i].verseKey, ps[i].sealed) == items[i];
    }
    var byVerse := GroupBy(Keyed(ps));
    forall g, i | 0 <= g < |byVerse| && 0 <= i < |byVerse[g].1| && RefOf(blob, byVerse[g].1[i]).Valid()
      ensures Ready(c, cfg, idn, objects, byVerse[g].0, RefOf(blob, byVerse[g].1[i]))
    {
      GroupMembers(ps, g, i);
      var k :| 0 <= k < |ps| && ps[k] == byVerse[g].1[i];
      PlacementReady(c, cfg, idn, objects, blob, layout.bytes, ps, k);
    }
  }

  lemma {:induction false} PutRun(c: Codec, cfg: RewriteConfig, idn: Identity, w: World, key: Key, bytes: Bytes,
          stored: Objects) returns (steps: seq<Step>)
    requires stored == w.objects || (key !in w.objects && stored == w.objects[key := bytes])
    ensures SafeRun(c, cfg, idn, w, steps) && Final(w, steps) == w.(objects := stored)
  {
    if stored == w.objects {
      steps := [];
    } else {
      steps := [Put(key, bytes)];
      SafeOne(c, cfg, idn, w, Put(key, bytes));
    }
  }

  /** A whole commit is a run of the lifecycle: every intermediate state of it is
      a lifecycle state, no pointer is appended before its bytes are stored with
      both digests matching, and every chunk it acknowledges is one the run has
      acknowledged. This holds whatever is refused, lost or failed on the way. */
  lemma {:induction false} CommitIsRun(c: Codec, cfg: RewriteConfig, idn: Identity, w: World, logs: Logs, plan: CutPlan,
          sealers: Sealers, env: nat -> Attempt, fates: VerseKey -> Fate) returns (steps: seq<Step>)
    requires WellBehaved(c) && Inv(c, cfg, idn, w) && w.logs == Entries(logs) &&
      HonestSealing(c, idn, sealers, plan.envelopes)
    ensures SafeRun(c, cfg, idn, w, steps)
    ensures var done := Commit(c, w.objects, logs, plan, sealers, env, fates);
            Final(w, steps).objects == done.objects && Final(w, steps).logs == Entries(done.logs) &&
            w.acked <= Final(w, steps).acked && (done.result.Ok? ==> AckedAll(Final(w, steps), done.result.value))
  {
    var planned := PlanLayout(c, plan, sealers);
    if planned.Err? {
      steps := [];
    } else {
      var layout := planned.value;
      var digest := c.digest(layout.bytes);
      var blob := Blob(BlobKey(plan.blobPrefix, digest), digest);
      var (stored, put) := PutOutcome(c, w.objects, blob.key, layout.bytes, digest, env, 0);
      PutOutcomeSafe(c, w.objects, blob.key, layout.bytes, env, 0);
      steps := PutRun(c, cfg, idn, w, blob.key, layout.bytes, stored);
      if put.Ok? {
        LayoutReady(c, cfg, idn, stored, plan, sealers, layout, blob);
        SafeKeepsInv(c, cfg, idn, w, steps);
        var byVerse := GroupBy(Keyed(layout.placements));
        hide PlanLayout, GroupBy, Keyed, GroupsReady, SafeRun, Inv, HonestSealing, WellBehaved, PutOutcome;
        var more := GroupsRun(c, cfg, idn, Final(w, steps), logs, blob, byVerse, fates, |byVerse|);
        SafeConcat(c, cfg, idn, w, steps, more);
        steps := steps + more;
      }
    }
  }
}
