/** A commit that fails as a whole: what it has appended by then, and when. */
module CommitFailure {
  import opened BlobModel
  import opened BlobStore
  import opened Grouping
  import opened CommitPlan
  import opened CommitVerses
  import opened CommitTheorems
  import opened CommitAnswers
  import opened CommitRuns

  // Group `g` of the commit is appended to its Verse's log.
  ghost predicate GroupWrites(c: Codec, logs: Logs, blob: Blob, byVerse: Groups, fates: VerseKey -> Fate, g: nat)
    requires g < |byVerse|
  {
    Writes(c, logs, blob, byVerse[g].0, byVerse[g].1, fates(byVerse[g].0))
  }

  // The entries a Verse has once its group `g` has been through.
  ghost function Left(c: Codec, logs: Logs, blob: Blob, byVerse: Groups, fates: VerseKey -> Fate,
          g: nat): seq<LogPayload>
    requires g < |byVerse| && byVerse[g].0 in logs
  {
    logs[byVerse[g].0].entries + (if GroupWrites(c, logs, blob, byVerse, fates, g) then [PayloadFor(blob, byVerse[g].1)]
        else [])
  }

  // After `n` groups: each of their Verses has its own entry or none, every other log is as it was.
  ghost predicate WrittenBy(c: Codec, logs: Logs, blob: Blob, byVerse: Groups, fates: VerseKey -> Fate, n: nat,
          after: Logs)
    requires n <= |byVerse|
  {
    && after.Keys == logs.Keys
    && (forall v :: v in logs && (forall g :: 0 <= g < n ==> byVerse[g].0 != v) ==> after[v] == logs[v])
    && (forall g :: 0 <= g < n && byVerse[g].0 in logs ==>
         after[byVerse[g].0].entries == Left(c, logs, blob, byVerse, fates, g))
  }

  lemma {:induction false} WrittenByOne(c: Codec, logs: Logs, blob: Blob, byVerse: Groups, fates: VerseKey -> Fate,
          n: nat, before: Logs)
    requires n < |byVerse| && OneRunEach(byVerse) && Encodable(blob, byVerse[n].1)
    requires WrittenBy(c, logs, blob, byVerse, fates, n, before)
    ensures var (after, r) := CommitGroup(c, before, blob, byVerse[n].0, byVerse[n].1, fates(byVerse[n].0));
      r.Ok? && WrittenBy(c, logs, blob, byVerse, fates, n + 1, after)
  {
    var (verse, group) := byVerse[n];
    GroupAnswered(c, before, blob, verse, group, fates(verse));
    GroupEntries(c, before, blob, verse, group, fates(verse));
    var after := CommitGroup(c, before, blob, verse, group, fates(verse)).0;
    hide CommitGroup, Encodable, PayloadFor, Appendable;
    if verse in logs {
      assert before[verse] == logs[verse];
      assert Entries(after)[verse] == after[verse].entries;
    }
  }

  lemma {:induction false} GroupsWrote(c: Codec, logs: Logs, blob: Blob, byVerse: Groups, fates: VerseKey -> Fate,
          n: nat)
    requires n <= |byVerse| && OneRunEach(byVerse) && forall g :: 0 <= g < n ==> Encodable(blob, byVerse[g].1)
    ensures CommitGroups(c, logs, blob, byVerse, fates, n).1.Ok?
    ensures WrittenBy(c, logs, blob, byVerse, fates, n, CommitGroups(c, logs, blob, byVerse, fates, n).0)
  {
    hide CommitGroup, Encodable, OneRunEach;
    if n == 0 { return; }
    hide WrittenBy;
    GroupsWrote(c, logs, blob, byVerse, fates, n - 1);
    WrittenByOne(c, logs, blob, byVerse, fates, n - 1, CommitGroups(c, logs, blob, byVerse, fates, n - 1).0);
  }

  lemma {:induction false} WrittenChanges(c: Codec, logs: Logs, blob: Blob, byVerse: Groups, fates: VerseKey -> Fate,
          n: nat, after: Logs)
    requires n <= |byVerse| && WrittenBy(c, logs, blob, byVerse, fates, n, after)
    ensures Entries(after) != Entries(logs) <==> exists g :: 0 <= g < n && GroupWrites(c, logs, blob, byVerse, fates, g)
  {
    if g :| 0 <= g < n && GroupWrites(c, logs, blob, byVerse, fates, g) {
      var verse := byVerse[g].0;
      assert |Entries(after)[verse]| == |Entries(logs)[verse]| + 1;
    } else {
      forall v | v in logs ensures after[v].entries == logs[v].entries {
        if g :| 0 <= g < n && byVerse[g].0 == v {
          assert Left(c, logs, blob, byVerse, fates, g) == logs[v].entries + [];
        }
      }
    }
  }

  // Group `g` is the first that cannot be encoded.
  ghost predicate FirstUnencodable(blob: Blob, byVerse: Groups, g: nat) {
    g < |byVerse| && !Encodable(blob, byVerse[g].1) && forall h :: 0 <= h < g ==> Encodable(blob, byVerse[h].1)
  }

  /** The first group that cannot be encoded ends the commit: it fails, the Verses before
      have what was appended to them, and the Verses from there on have nothing. */
  lemma {:induction false} GroupsStopAt(c: Codec, logs: Logs, blob: Blob, byVerse: Groups, fates: VerseKey -> Fate,
          g: nat)
    requires OneRunEach(byVerse) && FirstUnencodable(blob, byVerse, g)
    ensures CommitGroups(c, logs, blob, byVerse, fates, |byVerse|).1.Err?
    ensures WrittenBy(c, logs, blob, byVerse, fates, g, CommitGroups(c, logs, blob, byVerse, fates, |byVerse|).0)
  {
    hide CommitGroup, Encodable, OneRunEach, WrittenBy;
    GroupsWrote(c, logs, blob, byVerse, fates, g);
    GroupOk(c, CommitGroups(c, logs, blob, byVerse, fates, g).0, blob, byVerse[g].0, byVerse[g].1, fates(byVerse[g].0));
    GroupsFailureSticks(c, logs, blob, byVerse, fates, g + 1, |byVerse|);
  }

  lemma {:induction false} SomeUnencodable(blob: Blob, byVerse: Groups, n: nat) returns (g: nat)
    requires n <= |byVerse| && exists h :: 0 <= h < n && !Encodable(blob, byVerse[h].1)
    ensures FirstUnencodable(blob, byVerse, g)
  {
    hide Encodable;
    if h :| 0 <= h < n - 1 && !Encodable(blob, byVerse[h].1) {
      g := SomeUnencodable(blob, byVerse, n - 1);
    } else {
      g := n - 1;
    }
  }

  // The plan could be laid out and its object was stored.
  ghost predicate Stored(c: Codec, objects: Objects, plan: CutPlan, sealers: Sealers, env: nat -> Attempt) {
    && PlanLayout(c, plan, sealers).Ok?
    && (var layout := PlanLayout(c, plan, sealers).value;
        var digest := c.digest(layout.bytes);
        PutOutcome(c, objects, BlobKey(plan.blobPrefix, digest), layout.bytes, digest, env, 0).1.Ok?)
  }

  ghost function BlobOf(c: Codec, plan: CutPlan, layout: Layout): Blob {
    Blob(BlobKey(plan.blobPrefix, c.digest(layout.bytes)), c.digest(layout.bytes))
  }

  /** The object was stored, and an append took effect in some group before the first one
      that cannot be encoded. */
  ghost predicate AppendsFirst(c: Codec, objects: Objects, logs: Logs, plan: CutPlan, sealers: Sealers,
          env: nat -> Attempt, fates: VerseKey -> Fate)
  {
    && Stored(c, objects, plan, sealers, env)
    && (var layout := PlanLayout(c, plan, sealers).value;
        var byVerse := GroupBy(Keyed(layout.placements));
        exists g: nat, h: nat :: FirstUnencodable(BlobOf(c, plan, layout), byVerse, g) && h < g &&
            GroupWrites(c, logs, BlobOf(c, plan, layout), byVerse, fates, h))
  }

  lemma {:induction false} FirstIsUnique(blob: Blob, byVerse: Groups, g: nat, h: nat)
    requires FirstUnencodable(blob, byVerse, g) && FirstUnencodable(blob, byVerse, h)
    ensures g == h
  {
  }

  /** A failed commit has changed some log exactly when an append took effect before the
      first group that cannot be encoded. In particular it has changed none when it failed
      before its object was stored, or when the very first group is that group. */
  lemma {:induction false} FailedCommitAppendsExactly(c: Codec, objects: Objects, logs: Logs, plan: CutPlan,
          sealers: Sealers, env: nat -> Attempt, fates: VerseKey -> Fate)
    requires Commit(c, objects, logs, plan, sealers, env, fates).result.Err?
    ensures Entries(Commit(c, objects, logs, plan, sealers, env, fates).logs) != Entries(logs) <==>
      AppendsFirst(c, objects, logs, plan, sealers, env, fates)
  {
    hide PlanLayout, PutOutcome, GroupBy, Keyed, CommitGroups, Encodable, OneRunEach;
    var done := Commit(c, objects, logs, plan, sealers, env, fates);
    if !Stored(c, objects, plan, sealers, env) {
      assert done.logs == logs;
      return;
    }
    var layout := PlanLayout(c, plan, sealers).value;
    var blob, byVerse := BlobOf(c, plan, layout), GroupBy(Keyed(layout.placements));
    assert CommitGroups(c, logs, blob, byVerse, fates, |byVerse|) == (done.logs, done.result);
    hide Commit;
    GroupOfVerse(c, plan, sealers, layout, byVerse, "");
    if forall h :: 0 <= h < |byVerse| ==> Encodable(blob, byVerse[h].1) {
      GroupsWrote(c, logs, blob, byVerse, fates, |byVerse|);
    }
    var g := SomeUnencodable(blob, byVerse, |byVerse|);
    GroupsStopAt(c, logs, blob, byVerse, fates, g);
    WrittenChanges(c, logs, blob, byVerse, fates, g, done.logs);
    forall k | FirstUnencodable(blob, byVerse, k) ensures k == g { FirstIsUnique(blob, byVerse, g, k); }
  }

  // Refusals, for the whole commit. ---------------------------------------------------------------

  /** When a commit answers, refusing other Verses changes nothing for a Verse: the commit
      still answers, with the same outcomes for it and the same log. */
  lemma {:induction false} CommitRefusalIsIsolated(c: Codec, objects: Objects, logs: Logs, plan: CutPlan,
          sealers: Sealers, env: nat -> Attempt, fates: VerseKey -> Fate, other: VerseKey -> Fate, verse: VerseKey)
    requires Commit(c, objects, logs, plan, sealers, env, fates).result.Ok? && fates(verse) == other(verse)
    ensures var a, b := Commit(c, objects, logs, plan, sealers, env, fates),
      Commit(c, objects, logs, plan, sealers, env, other);
      && b.result.Ok? && a.objects == b.objects
      && OutcomesFor(a.result.value, verse) == OutcomesFor(b.result.value, verse)
      && (verse in logs ==> verse in a.logs && verse in b.logs && a.logs[verse] == b.logs[verse])
  {
    hide PlanLayout, PutOutcome, GroupBy, Keyed, CommitGroups, OutcomesFor, OneRunEach, AllEncodable;
    var a, b := Commit(c, objects, logs, plan, sealers, env, fates),
        Commit(c, objects, logs, plan, sealers, env, other);
    var layout := PlanLayout(c, plan, sealers).value;
    var blob, byVerse := BlobOf(c, plan, layout), GroupBy(Keyed(layout.placements));
    assert CommitGroups(c, logs, blob, byVerse, fates, |byVerse|) == (a.logs, a.result);
    assert CommitGroups(c, logs, blob, byVerse, other, |byVerse|) == (b.logs, b.result);
    hide Commit;
    GroupOfVerse(c, plan, sealers, layout, byVerse, verse);
    OkEncodes(c, logs, blob, byVerse, fates);
    RefusalIsIsolated(c, logs, blob, byVerse, fates, other, verse);
  }

  lemma {:induction false} OkEncodes(c: Codec, logs: Logs, blob: Blob, byVerse: Groups, fates: VerseKey -> Fate)
    requires CommitGroups(c, logs, blob, byVerse, fates, |byVerse|).1.Ok?
    ensures AllEncodable(blob, byVerse)
  {
    OkMeansEncodable(c, logs, blob, byVerse, fates, |byVerse|);
  }

  /** Sealing is not isolated: an envelope whose Verse has no sealer, or whose sealer fails
      or answers with other bytes, ends the commit for every Verse before anything is stored. */
  lemma {:induction false} SealingRefusalAborts(c: Codec, objects: Objects, logs: Logs, plan: CutPlan, sealers: Sealers,
          env: nat -> Attempt, fates: VerseKey -> Fate, i: nat)
    requires i < |plan.envelopes| && SealOne(c, sealers, i, plan.envelopes[i]).Err?
    ensures var done := Commit(c, objects, logs, plan, sealers, env, fates);
      done.result.Err? && done.objects == objects && done.logs == logs
  {
    assert SealAll(c, sealers, plan.envelopes, i + 1).Err?;
    SealFailureSticks(c, sealers, plan.envelopes, i + 1, |plan.envelopes|);
  }
}
