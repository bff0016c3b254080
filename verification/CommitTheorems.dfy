/** What a commit promises: every envelope answered once, dense acks, isolated Verses. */
module CommitTheorems {
  import opened Prelude
  import opened BlobModel
  import opened BlobStore
  import opened BlobReader
  import opened Grouping
  import opened CommitPlan
  import opened CommitVerses

  type Logs = map<VerseKey, VerseLog>
  type Groups = seq<(VerseKey, seq<Placement>)>

  // Every pointer of the group can be encoded.
  ghost predicate Encodable(blob: Blob, group: seq<Placement>) {
    forall i :: 0 <= i < |group| ==> RefOf(blob, group[i]).Valid()
  }

  lemma {:induction false} EncodableNoFault(blob: Blob, group: seq<Placement>)
    ensures Encodable(blob, group) <==> FirstFault(RefsOf(blob, group)).None?
  {
    NoFault(RefsOf(blob, group));
    assert forall i :: 0 <= i < |group| ==> RefsOf(blob, group)[i] == RefOf(blob, group[i]);
  }

  lemma {:induction false} RecordTotalMonotone(group: seq<Placement>, k: nat, n: nat)
    requires k <= n <= |group|
    ensures RecordTotal(group, k) <= RecordTotal(group, n)
  {
    if k < n { RecordTotalMonotone(group, k, n - 1); }
  }

  lemma {:induction false} AcceptedFits(c: Codec, start: nat, blob: Blob, group: seq<Placement>, k: nat)
    requires k <= |group| && group != [] && AcceptsAll(c, start, blob, group, |group|)
    ensures start + RecordTotal(group, k) < U64_LIMIT
  {
    RecordTotalMonotone(group, k, |group|);
    assert Accepts(c, start + RecordTotal(group, |group| - 1), group[|group| - 1].sealed,
        RefOf(blob, group[|group| - 1]));
  }

  // The ack of member `i`: it begins where the records of the members before it end.
  ghost function DenseAck(verse: VerseKey, slot: nat, start: nat, group: seq<Placement>, i: nat): PlacementOutcome
    requires i < |group|
  {
    PlacementOutcome(verse, group[i].sealed.chunkId,
      Ok(Ack(slot, group[i].sealed.chunkId, start + RecordTotal(group, i), start + RecordTotal(group, i + 1),
          group[i].recordCount)))
  }

  // Acks of a delivered batch: dense from `start`, in group order.
  ghost predicate DenseAcks(verse: VerseKey, slot: nat, start: nat, group: seq<Placement>,
          outs: seq<PlacementOutcome>)
  {
    |outs| == |group| && forall i :: 0 <= i < |group| ==> outs[i] == DenseAck(verse, slot, start, group, i)
  }

  ghost predicate AllRefused(verse: VerseKey, group: seq<Placement>, outs: seq<PlacementOutcome>) {
    |outs| == |group| && forall i :: 0 <= i < |group| ==>
      outs[i].verseKey == verse && outs[i].chunkId == group[i].sealed.chunkId && outs[i].result.Err?
  }

  lemma {:induction false} SplitAckDense(verse: VerseKey, ack: Ack, group: seq<Placement>, n: nat)
    requires n <= |group| && forall k :: 0 <= k <= n ==> ack.firstOffset + RecordTotal(group, k) < U64_LIMIT
    ensures SplitAck(verse, ack, group, n).Ok? && |SplitAck(verse, ack, group, n).value| == n
    ensures forall i :: 0 <= i < n ==>
      SplitAck(verse, ack, group, n).value[i] == DenseAck(verse, ack.slot, ack.firstOffset, group, i)
  {
    if n > 0 { SplitAckDense(verse, ack, group, n - 1); }
  }

  lemma {:induction false} RefusalsAll(verse: VerseKey, e: WriterError, group: seq<Placement>, n: nat)
    requires n <= |group|
    ensures |Refusals(verse, e, group, n)| == n
    ensures forall i :: 0 <= i < n ==>
      Refusals(verse, e, group, n)[i] == PlacementOutcome(verse, group[i].sealed.chunkId,
          Err(if i == 0 then e else SharedFailure))
  {
    if n > 0 { RefusalsAll(verse, e, group, n - 1); }
  }

  ghost predicate DeliveredTo(log: VerseLog, blob: Blob, verse: VerseKey, group: seq<Placement>, after: VerseLog,
          outs: seq<PlacementOutcome>)
  {
    group != [] &&
    after == VerseLog(log.entries + [PayloadFor(blob, group)], log.nextOffset + RecordTotal(group, |group|), false) &&
    DenseAcks(verse, |log.entries|, log.nextOffset, group, outs)
  }

  // The delivered answer of one Verse.
  lemma {:induction false} AppendAnswered(c: Codec, log: VerseLog, blob: Blob, verse: VerseKey, group: seq<Placement>,
          fate: Fate)
    ensures var (after, reply) := AppendDataRefs(c, log, blob, group, fate);
            reply.Ok? ==> SplitAck(verse, reply.value, group, |group|).Ok? &&
                          DeliveredTo(log, blob, verse, group, after,
                              SplitAck(verse, reply.value, group, |group|).value)
  {
    var (after, reply) := AppendDataRefs(c, log, blob, group, fate);
    if reply.Ok? {
      var ack := reply.value;
      forall k | 0 <= k <= |group| ensures ack.firstOffset + RecordTotal(group, k) < U64_LIMIT {
        AcceptedFits(c, log.nextOffset, blob, group, k);
      }
      SplitAckDense(verse, ack, group, |group|);
    }
  }

  ghost predicate Answered(logs: Logs, blob: Blob, verse: VerseKey, group: seq<Placement>, after: Logs,
          outs: seq<PlacementOutcome>)
  {
    AllRefused(verse, group, outs) ||
    (verse in logs && verse in after && DeliveredTo(logs[verse], blob, verse, group, after[verse], outs))
  }

  /** One Verse: all of its placements are acknowledged, densely from the log's
      next offset and only with the entry in the log, or all are refused. */
  lemma {:induction false} GroupAnswered(c: Codec, logs: Logs, blob: Blob, verse: VerseKey, group: seq<Placement>,
          fate: Fate)
    requires Encodable(blob, group)
    ensures var (after, r) := CommitGroup(c, logs, blob, verse, group, fate);
            r.Ok? && after.Keys == logs.Keys && (forall v :: v in logs && v != verse ==> after[v] == logs[v]) &&
            Answered(logs, blob, verse, group, after, r.value)
  {
    EncodableNoFault(blob, group);
    hide Encodable, AppendDataRefs, SplitAck, Refusals, DeliveredTo;
    if verse !in logs {
      RefusalsAll(verse, NoTarget(verse), group, |group|);
    } else {
      AppendAnswered(c, logs[verse], blob, verse, group, fate);
      var (_, reply) := AppendDataRefs(c, logs[verse], blob, group, fate);
      if reply.Err? { RefusalsAll(verse, reply.error, group, |group|); }
    }
  }

  // A Verse's part of a commit depends on that Verse's log and fate alone.
  lemma {:induction false} CommitGroupLocal(c: Codec, a: Logs, b: Logs, blob: Blob, verse: VerseKey,
          group: seq<Placement>, fate: Fate)
    requires verse in a <==> verse in b
    requires verse in a ==> a[verse] == b[verse]
    ensures CommitGroup(c, a, blob, verse, group, fate).1 == CommitGroup(c, b, blob, verse, group, fate).1
    ensures verse in a ==>
      verse in CommitGroup(c, a, blob, verse, group, fate).0 &&
          verse in CommitGroup(c, b, blob, verse, group, fate).0 &&
      CommitGroup(c, a, blob, verse, group, fate).0[verse] == CommitGroup(c, b, blob, verse, group, fate).0[verse]
  {
  }

  // A Verse's outcomes, computed from the logs as they were before the commit.
  ghost function OwnAnswer(c: Codec, logs: Logs, blob: Blob, group: (VerseKey, seq<Placement>),
          fates: VerseKey -> Fate): seq<PlacementOutcome>
  {
    match CommitGroup(c, logs, blob, group.0, group.1, fates(group.0)).1
    case Ok(outs) => outs
    case Err(_) => []
  }

  ghost function OwnLog(c: Codec, logs: Logs, blob: Blob, group: (VerseKey, seq<Placement>),
          fates: VerseKey -> Fate): VerseLog
    requires group.0 in logs
  {
    var after := CommitGroup(c, logs, blob, group.0, group.1, fates(group.0)).0;
    if group.0 in after then after[group.0] else logs[group.0]
  }

  ghost function Answers(c: Codec, logs: Logs, blob: Blob, byVerse: Groups, fates: VerseKey -> Fate,
          n: nat): seq<PlacementOutcome>
    requires n <= |byVerse|
  {
    if n == 0 then [] else
      Answers(c, logs, blob, byVerse, fates, n - 1) + OwnAnswer(c, logs, blob, byVerse[n - 1], fates)
  }

  ghost predicate AllEncodable(blob: Blob, byVerse: Groups) {
    forall g :: 0 <= g < |byVerse| ==> Encodable(blob, byVerse[g].1)
  }

  // What the first `n` Verses leave behind: their own logs, and nothing else touched.
  ghost predicate LeftBehind(c: Codec, logs: Logs, blob: Blob, byVerse: Groups, fates: VerseKey -> Fate, n: nat,
          after: Logs)
    requires n <= |byVerse|
  {
    after.Keys == logs.Keys &&
    (forall v :: v in logs && (forall g :: 0 <= g < n ==> byVerse[g].0 != v) ==> after[v] == logs[v]) &&
    (forall g :: 0 <= g < n && byVerse[g].0 in logs ==> after[byVerse[g].0] == OwnLog(c, logs, blob, byVerse[g], fates))
  }

  lemma {:induction false} NotYetTouched(c: Codec, logs: Logs, blob: Blob, byVerse: Groups, fates: VerseKey -> Fate,
          n: nat, before: Logs)
    requires n < |byVerse| && OneRunEach(byVerse) && LeftBehind(c, logs, blob, byVerse, fates, n, before)
    ensures before.Keys == logs.Keys && (byVerse[n].0 in logs ==> before[byVerse[n].0] == logs[byVerse[n].0])
  {
  }

  lemma {:induction false} LeftBehindStep(c: Codec, logs: Logs, blob: Blob, byVerse: Groups, fates: VerseKey -> Fate,
          n: nat, before: Logs, after: Logs)
    requires n < |byVerse| && OneRunEach(byVerse) && LeftBehind(c, logs, blob, byVerse, fates, n, before)
    requires after.Keys == before.Keys && forall v :: v in before && v != byVerse[n].0 ==> after[v] == before[v]
    requires byVerse[n].0 in logs ==> after[byVerse[n].0] == OwnLog(c, logs, blob, byVerse[n], fates)
    ensures LeftBehind(c, logs, blob, byVerse, fates, n + 1, after)
  {
    hide OwnLog;
  }

  // Running a Verse's part after other Verses' parts changes nothing about it.
  lemma {:induction false} PartIsOwn(c: Codec, logs: Logs, before: Logs, blob: Blob, group: (VerseKey, seq<Placement>),
          fates: VerseKey -> Fate)
    requires Encodable(blob, group.1) && before.Keys == logs.Keys &&
      (group.0 in logs ==> before[group.0] == logs[group.0])
    ensures var (after, r) := CommitGroup(c, before, blob, group.0, group.1, fates(group.0));
            r == Ok(OwnAnswer(c, logs, blob, group, fates)) && after.Keys == before.Keys &&
            (forall v :: v in before && v != group.0 ==> after[v] == before[v]) &&
            (group.0 in logs ==> after[group.0] == OwnLog(c, logs, blob, group, fates))
  {
    CommitGroupLocal(c, before, logs, blob, group.0, group.1, fates(group.0));
    GroupAnswered(c, before, blob, group.0, group.1, fates(group.0));
    hide CommitGroup, Answered, Encodable;
  }

  /** The Verses of a commit do not see each other: the result is every Verse's
      own part, run on the logs as they were, laid end to end. */
  lemma {:induction false} GroupsAreIndependent(c: Codec, logs: Logs, blob: Blob, byVerse: Groups,
          fates: VerseKey -> Fate, n: nat)
    requires n <= |byVerse| && OneRunEach(byVerse) && AllEncodable(blob, byVerse)
    ensures CommitGroups(c, logs, blob, byVerse, fates, n).1 == Ok(Answers(c, logs, blob, byVerse, fates, n))
    ensures LeftBehind(c, logs, blob, byVerse, fates, n, CommitGroups(c, logs, blob, byVerse, fates, n).0)
  {
    hide CommitGroup, OwnAnswer, OwnLog, OneRunEach;
    if n == 0 { return; }
    assert Encodable(blob, byVerse[n - 1].1);
    hide Encodable, AllEncodable, LeftBehind;
    GroupsAreIndependent(c, logs, blob, byVerse, fates, n - 1);
    var before := CommitGroups(c, logs, blob, byVerse, fates, n - 1).0;
    NotYetTouched(c, logs, blob, byVerse, fates, n - 1, before);
    PartIsOwn(c, logs, before, blob, byVerse[n - 1], fates);
    LeftBehindStep(c, logs, blob, byVerse, fates, n - 1, before,
        CommitGroup(c, before, blob, byVerse[n - 1].0, byVerse[n - 1].1, fates(byVerse[n - 1].0)).0);
  }

  ghost function OutcomesFor(outs: seq<PlacementOutcome>, verse: VerseKey): seq<PlacementOutcome> {
    if outs == [] then [] else
      var last := outs[|outs| - 1];
      OutcomesFor(outs[..|outs| - 1], verse) + (if last.verseKey == verse then [last] else [])
  }

  lemma {:induction false} OutcomesForAppend(a: seq<PlacementOutcome>, b: seq<PlacementOutcome>, verse: VerseKey)
    ensures OutcomesFor(a + b, verse) == OutcomesFor(a, verse) + OutcomesFor(b, verse)
  {
    if b == [] {
      assert a + b == a;
    } else {
      OutcomesForAppend(a, b[..|b| - 1], verse);
      assert (a + b)[..|a + b| - 1] == a + b[..|b| - 1];
    }
  }

  lemma {:induction false} OutcomesForOne(outs: seq<PlacementOutcome>, owner: VerseKey, verse: VerseKey)
    requires forall i :: 0 <= i < |outs| ==> outs[i].verseKey == owner
    ensures OutcomesFor(outs, verse) == if owner == verse then outs else []
  {
    if outs != [] {
      OutcomesForOne(outs[..|outs| - 1], owner, verse);
      assert outs == outs[..|outs| - 1] + [outs[|outs| - 1]];
    }
  }

  lemma {:induction false} AnsweredOwn(c: Codec, logs: Logs, blob: Blob, group: (VerseKey, seq<Placement>),
          fates: VerseKey -> Fate)
    requires Encodable(blob, group.1)
    ensures forall i :: 0 <= i < |OwnAnswer(c, logs, blob, group, fates)| ==>
              OwnAnswer(c, logs, blob, group, fates)[i].verseKey == group.0
  {
    GroupAnswered(c, logs, blob, group.0, group.1, fates(group.0));
    var after, outs := CommitGroup(c, logs, blob, group.0, group.1, fates(group.0)).0,
        OwnAnswer(c, logs, blob, group, fates);
    assert Answered(logs, blob, group.0, group.1, after, outs);
    hide CommitGroup, Encodable, OwnAnswer;
    if !AllRefused(group.0, group.1, outs) {
      assert DenseAcks(group.0, |logs[group.0].entries|, logs[group.0].nextOffset, group.1, outs);
    }
  }

  lemma {:induction false} NoOutcomes(verse: VerseKey)
    ensures OutcomesFor([], verse) == []
  {
  }

  lemma {:induction false} AnswersMiss(c: Codec, logs: Logs, blob: Blob, byVerse: Groups, fates: VerseKey -> Fate,
          n: nat, verse: VerseKey)
    requires n <= |byVerse| && AllEncodable(blob, byVerse)
    requires forall g :: 0 <= g < n ==> byVerse[g].0 != verse
    ensures OutcomesFor(Answers(c, logs, blob, byVerse, fates, n), verse) == []
  {
    hide OwnAnswer, Encodable;
    if n == 0 {
      NoOutcomes(verse);
    } else {
      AnswersMiss(c, logs, blob, byVerse, fates, n - 1, verse);
      hide OutcomesFor;
      AnsweredOwn(c, logs, blob, byVerse[n - 1], fates);
      var own := OwnAnswer(c, logs, blob, byVerse[n - 1], fates);
      OutcomesForAppend(Answers(c, logs, blob, byVerse, fates, n - 1), own, verse);
      OutcomesForOne(own, byVerse[n - 1].0, verse);
    }
  }

  /** A Verse's outcomes are exactly those of its own group. */
  lemma {:induction false} AnswersHit(c: Codec, logs: Logs, blob: Blob, byVerse: Groups, fates: VerseKey -> Fate,
          n: nat, g: nat)
    requires g < n <= |byVerse| && OneRunEach(byVerse) && AllEncodable(blob, byVerse)
    ensures OutcomesFor(Answers(c, logs, blob, byVerse, fates, n), byVerse[g].0) ==
      OwnAnswer(c, logs, blob, byVerse[g], fates)
  {
    hide OutcomesFor, OwnAnswer;
    if g == n - 1 {
      AnswersMiss(c, logs, blob, byVerse, fates, n - 1, byVerse[g].0);
    } else {
      AnswersHit(c, logs, blob, byVerse, fates, n - 1, g);
    }
    AnsweredOwn(c, logs, blob, byVerse[n - 1], fates);
    var own := OwnAnswer(c, logs, blob, byVerse[n - 1], fates);
    OutcomesForAppend(Answers(c, logs, blob, byVerse, fates, n - 1), own, byVerse[g].0);
    OutcomesForOne(own, byVerse[n - 1].0, byVerse[g].0);
  }

  function OwnOf(logs: Logs, verse: VerseKey): Option<VerseLog> {
    if verse in logs then Some(logs[verse]) else None
  }

  function GroupOf(byVerse: Groups, verse: VerseKey): Option<seq<Placement>> {
    var at := FindGroup(byVerse, verse);
    if at < |byVerse| then Some(byVerse[at].1) else None
  }

  // The logs with no Verse's log but this one.
  function Only(verse: VerseKey, own: Option<VerseLog>): Logs {
    if own.Some? then map[verse := own.value] else map[]
  }

  // What a commit answers one Verse, from its own log, its own part of the object and `fate`.
  ghost function VerseAnswer(c: Codec, own: Option<VerseLog>, blob: Blob, verse: VerseKey,
          group: Option<seq<Placement>>, fate: Fate): seq<PlacementOutcome>
  {
    if group.None? then [] else OwnAnswer(c, Only(verse, own), blob, (verse, group.value), _ => fate)
  }

  // What it leaves in the Verse's log.
  ghost function VerseAfter(c: Codec, own: VerseLog, blob: Blob, verse: VerseKey, group: Option<seq<Placement>>,
          fate: Fate): VerseLog
  {
    if group.None? then own else OwnLog(c, Only(verse, Some(own)), blob, (verse, group.value), _ => fate)
  }

  lemma {:induction false} OnlyOwnLogMatters(c: Codec, logs: Logs, blob: Blob, verse: VerseKey, group: seq<Placement>,
          fate: Fate)
    ensures OwnAnswer(c, Only(verse, OwnOf(logs, verse)), blob, (verse, group), _ => fate) ==
      OwnAnswer(c, logs, blob, (verse, group), _ => fate)
    ensures verse in logs ==>
      OwnLog(c, Only(verse, OwnOf(logs, verse)), blob, (verse, group), _ => fate) ==
          OwnLog(c, logs, blob, (verse, group), _ => fate)
  {
    CommitGroupLocal(c, Only(verse, OwnOf(logs, verse)), logs, blob, verse, group, fate);
    hide CommitGroup;
  }

  /** A Verse's outcomes and its log after the commit are a function of that Verse's own
      log, its own group of placements and what happened to its own append, whatever other
      logs, groups and appends there are. */
  lemma {:induction false} CommitForVerse(c: Codec, logs: Logs, blob: Blob, byVerse: Groups, fates: VerseKey -> Fate,
          verse: VerseKey)
    requires OneRunEach(byVerse) && AllEncodable(blob, byVerse)
    ensures var (after, r) := CommitGroups(c, logs, blob, byVerse, fates, |byVerse|);
      && r.Ok? && OutcomesFor(r.value, verse) ==
           VerseAnswer(c, OwnOf(logs, verse), blob, verse, GroupOf(byVerse, verse), fates(verse))
      && (verse in logs <==> verse in after)
      && (verse in logs ==>
           after[verse] == VerseAfter(c, logs[verse], blob, verse, GroupOf(byVerse, verse), fates(verse)))
  {
    GroupsAreIndependent(c, logs, blob, byVerse, fates, |byVerse|);
    var at := FindGroup(byVerse, verse);
    if at < |byVerse| {
      AnswersHit(c, logs, blob, byVerse, fates, |byVerse|, at);
      OnlyOwnLogMatters(c, logs, blob, verse, byVerse[at].1, fates(verse));
    } else {
      AnswersMiss(c, logs, blob, byVerse, fates, |byVerse|, verse);
    }
    hide CommitGroups, CommitGroup, Answers, OutcomesFor, AllEncodable, Only;
  }

  /** Refusing some Verses leaves the outcomes and the log of every other Verse
      as they would have been without the refusals. */
  lemma {:induction false} RefusalIsIsolated(c: Codec, logs: Logs, blob: Blob, byVerse: Groups, fates: VerseKey -> Fate,
          other: VerseKey -> Fate, verse: VerseKey)
    requires OneRunEach(byVerse) && AllEncodable(blob, byVerse) && fates(verse) == other(verse)
    ensures var (a, r) := CommitGroups(c, logs, blob, byVerse, fates, |byVerse|);
            var (b, s) := CommitGroups(c, logs, blob, byVerse, other, |byVerse|);
            r.Ok? && s.Ok? && OutcomesFor(r.value, verse) == OutcomesFor(s.value, verse) &&
            (verse in logs ==> verse in a && verse in b && a[verse] == b[verse])
  {
    CommitForVerse(c, logs, blob, byVerse, fates, verse);
    CommitForVerse(c, logs, blob, byVerse, other, verse);
    hide CommitGroups, VerseAnswer, VerseAfter, OutcomesFor;
  }
}
