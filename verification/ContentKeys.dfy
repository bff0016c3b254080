/** Objects are named by their content: what that means for the keys two writers choose, and
    why no PUT ever finds other bytes under its key. */
module ContentKeys {
  import opened Prelude
  import opened BlobModel
  import opened BlobStore
  import opened Grouping
  import opened CommitPlan
  import opened CommitVerses
  import opened BlobScan
  import opened BlobRewrite
  import Hex

  // The key ends in a slash and the digest in hexadecimal.
  predicate Tagged(key: Key, digest: Digest) {
    var n := |Hex.HexText(digest)|;
    |key| > n && key[|key| - n - 1] == '/' && key[|key| - n..] == Hex.HexText(digest)
  }

  // What comes before the slash.
  function Stem(key: Key, digest: Digest): string
    requires Tagged(key, digest)
  {
    key[..|key| - |Hex.HexText(digest)| - 1]
  }

  lemma {:induction false} TagIs(prefix: string, digest: Digest)
    ensures Tagged(prefix + "/" + Hex.HexText(digest), digest)
    ensures Stem(prefix + "/" + Hex.HexText(digest), digest) == prefix
  {
    hide Hex.HexText;
  }

  lemma {:induction false} NoSlashInTag(key: Key, digest: Digest, i: nat)
    requires Tagged(key, digest) && |key| - |Hex.HexText(digest)| <= i < |key|
    ensures key[i] != '/'
  {
    Hex.HexTextShape(digest);
    hide Hex.HexText;
    var n := |Hex.HexText(digest)|;
    assert key[|key| - n..][i - (|key| - n)] == key[i];
  }

  lemma {:induction false} ShorterTag(key: Key, a: Digest, b: Digest)
    requires Tagged(key, a) && Tagged(key, b)
    ensures |Hex.HexText(a)| >= |Hex.HexText(b)|
  {
    hide Hex.HexText;
    if |Hex.HexText(a)| < |Hex.HexText(b)| { NoSlashInTag(key, b, |key| - |Hex.HexText(a)| - 1); }
  }

  // A key carries one digest: hexadecimal digits are not slashes.
  lemma {:induction false} OneTag(key: Key, a: Digest, b: Digest)
    requires Tagged(key, a) && Tagged(key, b)
    ensures a == b
  {
    ShorterTag(key, a, b);
    ShorterTag(key, b, a);
    Hex.HexTextInjective(a, b);
  }

  // Two commits. ------------------------------------------------------------------------------

  /** A commit, with everything it meets but the store. */
  datatype CommitCall = CommitCall(
    logs: map<VerseKey, VerseLog>, plan: CutPlan, sealers: Sealers, env: nat -> Attempt, fates: VerseKey -> Fate)

  function Committed(c: Codec, objects: Objects, call: CommitCall): After {
    Commit(c, objects, call.logs, call.plan, call.sealers, call.env, call.fates)
  }

  ghost predicate Creates(before: Objects, after: Objects, key: Key) {
    key !in before && key in after
  }

  ghost predicate Keeps(before: Objects, after: Objects) {
    forall k :: k in before ==> k in after && after[k] == before[k]
  }

  lemma {:induction false} CommitCreates(c: Codec, objects: Objects, call: CommitCall)
    requires CollisionFree(c)
    ensures var after := Committed(c, objects, call).objects;
      && Keeps(objects, after)
      && (forall k :: Creates(objects, after, k) ==>
            && PlanLayout(c, call.plan, call.sealers).Ok?
            && after[k] == PlanLayout(c, call.plan, call.sealers).value.bytes
            && Tagged(k, c.digest(after[k])) && Stem(k, c.digest(after[k])) == call.plan.blobPrefix)
  {
    hide PlanLayout, CommitGroups, PutOutcome, Keyed, CollisionFree, Tagged, Stem;
    if PlanLayout(c, call.plan, call.sealers).Ok? {
      var bytes := PlanLayout(c, call.plan, call.sealers).value.bytes;
      TagIs(call.plan.blobPrefix, c.digest(bytes));
      PutOutcomeSafe(c, objects, BlobKey(call.plan.blobPrefix, c.digest(bytes)), bytes, call.env, 0);
    }
  }

  /** Two commits, whatever stores they meet, create objects under one key exactly when they
      have one prefix and create the same bytes. */
  lemma {:induction false} CommitKeysExactly(c: Codec, objects: Objects, call: CommitCall, key: Key,
          objects': Objects, call': CommitCall, key': Key)
    requires CollisionFree(c)
    requires Creates(objects, Committed(c, objects, call).objects, key)
    requires Creates(objects', Committed(c, objects', call').objects, key')
    ensures var a, b := Committed(c, objects, call).objects[key], Committed(c, objects', call').objects[key'];
      key == key' <==> call.plan.blobPrefix == call'.plan.blobPrefix && a == b
  {
    hide Committed, Tagged, Stem;
    CommitCreates(c, objects, call);
    CommitCreates(c, objects', call');
    var a, b := Committed(c, objects, call).objects[key], Committed(c, objects', call').objects[key'];
    if key == key' { OneTag(key, c.digest(a), c.digest(b)); }
    if call.plan.blobPrefix == call'.plan.blobPrefix && a == b { SameStem(key, key', c.digest(a)); }
  }

  lemma {:induction false} SameStem(a: Key, b: Key, digest: Digest)
    requires Tagged(a, digest) && Tagged(b, digest) && Stem(a, digest) == Stem(b, digest)
    ensures a == b
  {
    hide Hex.HexText;
    var n := |Hex.HexText(digest)|;
    assert a == a[..|a| - n - 1] + [a[|a| - n - 1]] + a[|a| - n..];
    assert b == b[..|b| - n - 1] + [b[|b| - n - 1]] + b[|b| - n..];
  }

  // Two rewrites. -------------------------------------------------------------------------------

  /** A rewrite pass, with everything it meets but the store. */
  datatype PassCall = PassCall(
    log: VerseLog, ps: seq<StagingPointer>, key: Option<Key>, superseded: set<ChunkId>, env: nat -> Attempt,
    fates: nat -> Fate)

  function Passed(c: Codec, cfg: RewriteConfig, objects: Objects, call: PassCall): PassResult {
    RewritePass(c, cfg, objects, call.log, call.ps, call.key, call.superseded, call.env, call.fates)
  }

  // Text is given by its code units.
  predicate CodeUnits(s: string) {
    forall i :: 0 <= i < |s| ==> s[i] as int < 256
  }

  lemma {:induction false} TextBytesInjective(a: string, b: string)
    requires CodeUnits(a) && CodeUnits(b) && TextBytes(a) == TextBytes(b)
    ensures a == b
  {
    assert |a| == |TextBytes(a)| == |b|;
    forall i | 0 <= i < |a| ensures a[i] == b[i] { assert TextBytes(a)[i] == TextBytes(b)[i]; }
  }

  // A rewritten object's key before its last slash names the Verse.
  function VerseStem(cfg: RewriteConfig, verse: VerseKey): string {
    cfg.rewrittenPrefix + "/" + Hex.HexText(TextBytes(verse))
  }

  lemma {:induction false} StemsApart(cfg: RewriteConfig, a: VerseKey, b: VerseKey)
    requires CodeUnits(a) && CodeUnits(b) && VerseStem(cfg, a) == VerseStem(cfg, b)
    ensures a == b
  {
    var n := |cfg.rewrittenPrefix| + 1;
    assert VerseStem(cfg, a)[n..] == Hex.HexText(TextBytes(a)) && VerseStem(cfg, b)[n..] == Hex.HexText(TextBytes(b));
    Hex.HexTextInjective(TextBytes(a), TextBytes(b));
    TextBytesInjective(a, b);
  }

  lemma {:induction false} PassCreates(c: Codec, cfg: RewriteConfig, objects: Objects, call: PassCall)
    requires CollisionFree(c)
    ensures var after := Passed(c, cfg, objects, call).objects;
      && Keeps(objects, after)
      && (forall k :: Creates(objects, after, k) ==>
            && call.ps != [] && Tagged(k, c.digest(after[k]))
            && Stem(k, c.digest(after[k])) == VerseStem(cfg, call.ps[0].verseKey))
  {
    hide Build, Load, PutOutcome, SupersedeAll, CollisionFree, Tagged, Stem;
    if call.ps != [] && Build(c, objects, call.ps, |call.ps|).Ok? {
      var bytes := Build(c, objects, call.ps, |call.ps|).value.bytes;
      TagIs(VerseStem(cfg, call.ps[0].verseKey), c.digest(bytes));
      PutOutcomeSafe(c, objects, RewrittenObjectKey(cfg, call.ps[0].verseKey, c.digest(bytes)), bytes, call.env, 0);
    }
  }

  /** Two passes create objects under one key exactly when they rewrite one Verse into the
      same bytes. */
  lemma {:induction false} PassKeysExactly(c: Codec, cfg: RewriteConfig, objects: Objects, call: PassCall, key: Key,
          objects': Objects, call': PassCall, key': Key)
    requires CollisionFree(c)
    requires Creates(objects, Passed(c, cfg, objects, call).objects, key)
    requires Creates(objects', Passed(c, cfg, objects', call').objects, key')
    requires forall p :: p in call.ps + call'.ps ==> CodeUnits(p.verseKey)
    ensures call.ps != [] && call'.ps != []
    ensures var a, b := Passed(c, cfg, objects, call).objects[key], Passed(c, cfg, objects', call').objects[key'];
      key == key' <==> call.ps[0].verseKey == call'.ps[0].verseKey && a == b
  {
    hide Passed, Tagged, Stem, VerseStem, CodeUnits;
    PassCreates(c, cfg, objects, call);
    PassCreates(c, cfg, objects', call');
    var a, b := Passed(c, cfg, objects, call).objects[key], Passed(c, cfg, objects', call').objects[key'];
    assert call.ps[0] in call.ps + call'.ps && call'.ps[0] in call.ps + call'.ps;
    if key == key' {
      OneTag(key, c.digest(a), c.digest(b));
      StemsApart(cfg, call.ps[0].verseKey, call'.ps[0].verseKey);
    }
    if call.ps[0].verseKey == call'.ps[0].verseKey && a == b { SameStem(key, key', c.digest(a)); }
  }

  // Stores made by them. --------------------------------------------------------------------------

  datatype Work = CommitWork(commit: CommitCall) | PassWork(cfg: RewriteConfig, pass: PassCall) | Remove(key: Key)

  function Worked(c: Codec, objects: Objects, work: Work): Objects {
    match work
    case CommitWork(call) => Committed(c, objects, call).objects
    case PassWork(cfg, call) => Passed(c, cfg, objects, call).objects
    case Remove(key) => objects - {key}
  }

  /** The store after commits and passes of any configuration, and removals, in any order. */
  function StoreOf(c: Codec, works: seq<Work>): Objects {
    if works == [] then map[] else Worked(c, StoreOf(c, works[..|works| - 1]), works[|works| - 1])
  }

  ghost predicate AllTagged(c: Codec, objects: Objects) {
    forall k :: k in objects ==> Tagged(k, c.digest(objects[k]))
  }

  lemma {:induction false} StoreIsTagged(c: Codec, works: seq<Work>)
    requires CollisionFree(c)
    ensures AllTagged(c, StoreOf(c, works))
  {
    if works != [] {
      var front, last := works[..|works| - 1], works[|works| - 1];
      StoreIsTagged(c, front);
      hide Committed, Passed, Tagged, Stem;
      match last {
        case CommitWork(call) => CommitCreates(c, StoreOf(c, front), call);
        case PassWork(cfg, call) => PassCreates(c, cfg, StoreOf(c, front), call);
        case Remove(_) =>
      }
    }
  }

  lemma {:induction false} PutNeverDisagrees(c: Codec, objects: Objects, prefix: string, bytes: Bytes,
          env: nat -> Attempt)
    requires CollisionFree(c) && AllTagged(c, objects)
    ensures var key := prefix + "/" + Hex.HexText(c.digest(bytes));
      var (after, r) := PutOutcome(c, objects, key, bytes, c.digest(bytes), env, 0);
      && (r.Err? ==> r.error == ObjectStoreError)
      && (env(0).putApplied && env(0).getAnswered ==> r.Ok?)
      && (r.Ok? ==> key in after && after[key] == bytes)
  {
    hide Hex.HexText, Tagged, Stem;
    var key := prefix + "/" + Hex.HexText(c.digest(bytes));
    TagIs(prefix, c.digest(bytes));
    if key in objects { OneTag(key, c.digest(objects[key]), c.digest(bytes)); }
    PutOutcomeOk(c, objects, key, bytes, env);
    PutOutcomeSafe(c, objects, key, bytes, env, 0);
  }

  ghost predicate Holds(objects: Objects, bytes: Bytes) {
    exists k :: k in objects && objects[k] == bytes
  }

  // What the appends of a commit can fail it with.
  lemma {:induction false} GroupsErrors(c: Codec, logs: map<VerseKey, VerseLog>, blob: Blob,
          byVerse: seq<(VerseKey, seq<Placement>)>, fates: VerseKey -> Fate, n: nat)
    requires n <= |byVerse|
    ensures var r := CommitGroups(c, logs, blob, byVerse, fates, n).1;
      r.Err? ==> r.error.DataRefInvalid? || r.error.OffsetOverflow?
  {
    hide AppendDataRefs, Refusals, RefsOf;
    if n > 0 {
      GroupsErrors(c, logs, blob, byVerse, fates, n - 1);
      var (verse, group) := byVerse[n - 1];
      var before := CommitGroups(c, logs, blob, byVerse, fates, n - 1).0;
      if verse in before {
        var reply := AppendDataRefs(c, before[verse], blob, group, fates(verse)).1;
        if reply.Ok? { SplitErrors(verse, reply.value, group, |group|); }
      }
    }
  }

  lemma {:induction false} SplitErrors(verse: VerseKey, ack: Ack, group: seq<Placement>, n: nat)
    requires n <= |group|
    ensures SplitAck(verse, ack, group, n).Err? ==> SplitAck(verse, ack, group, n).error == OffsetOverflow
  {
    if n > 0 { SplitErrors(verse, ack, group, n - 1); }
  }

  /** From a store so made, a commit that can be laid out never finds other bytes under its
      key: it never answers with a digest mismatch, and once its first PUT is applied and its
      GET answered, the store holds its bytes and only encoding its pointers can fail it. */
  lemma {:induction false} CommitNeverMismatches(c: Codec, works: seq<Work>, call: CommitCall)
    requires CollisionFree(c) && PlanLayout(c, call.plan, call.sealers).Ok?
    ensures var done := Committed(c, StoreOf(c, works), call);
      && !(done.result.Err? && done.result.error.StoredDigestMismatch?)
      && (call.env(0).putApplied && call.env(0).getAnswered ==>
            && Holds(done.objects, PlanLayout(c, call.plan, call.sealers).value.bytes)
            && (done.result.Err? ==> done.result.error.DataRefInvalid? || done.result.error.OffsetOverflow?))
  {
    hide PlanLayout, CommitGroups, PutOutcome, Keyed, CollisionFree, StoreOf, AllTagged;
    StoreIsTagged(c, works);
    var objects, layout := StoreOf(c, works), PlanLayout(c, call.plan, call.sealers).value;
    PutNeverDisagrees(c, objects, call.plan.blobPrefix, layout.bytes, call.env);
    var digest := c.digest(layout.bytes);
    var blob, byVerse := Blob(BlobKey(call.plan.blobPrefix, digest), digest), GroupBy(Keyed(layout.placements));
    GroupsErrors(c, call.logs, blob, byVerse, call.fates, |byVerse|);
  }

  lemma {:induction false} BuildErrors(c: Codec, objects: Objects, ps: seq<StagingPointer>, n: nat)
    requires n <= |ps|
    ensures Build(c, objects, ps, n) != Err(BlobDigestDisagrees)
  {
    if n > 0 { BuildErrors(c, objects, ps, n - 1); }
  }

  lemma {:induction false} LoadErrors(c: Codec, bytes: Bytes, ps: seq<StagingPointer>, n: nat)
    requires n <= |ps|
    ensures Load(c, bytes, ps, n) != Err(BlobDigestDisagrees)
  {
    if n > 0 { LoadErrors(c, bytes, ps, n - 1); }
  }

  /** Nor does a pass, whatever progress it was handed. */
  lemma {:induction false} PassNeverMismatches(c: Codec, works: seq<Work>, cfg: RewriteConfig, call: PassCall)
    requires CollisionFree(c)
    ensures Passed(c, cfg, StoreOf(c, works), call).result != Err(BlobDigestDisagrees)
  {
    hide Build, Load, PutOutcome, SupersedeAll, CollisionFree, StoreOf, AllTagged;
    StoreIsTagged(c, works);
    var objects, ps := StoreOf(c, works), call.ps;
    BuildErrors(c, objects, ps, |ps|);
    if call.key.Some? && call.key.value in objects { LoadErrors(c, objects[call.key.value], ps, |ps|); }
    if ps != [] && Build(c, objects, ps, |ps|).Ok? {
      var bytes := Build(c, objects, ps, |ps|).value.bytes;
      PutNeverDisagrees(c, objects, VerseStem(cfg, ps[0].verseKey), bytes, call.env);
    }
  }
}
