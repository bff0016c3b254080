/** At which record limits a consumer can be stopped and resumed without loss. */
module ConsumeBoundary {
  import opened Prelude
  import opened BlobModel
  import opened BlobReader
  import opened Consume
  import opened ConsumeTheorems
  import opened ConsumeResume
  import opened ConsumeStops

  // The last entry read was read while there was still room.
  ghost predicate HadRoom(from: nat, limit: nat, read: seq<seq<ResolvedChunk>>) {
    read != [] ==> |AllLines(from, read[..|read| - 1])| < limit
  }

  lemma {:induction false} RoomAtLast(c: Codec, origin: nat, log: seq<LogPayload>, options: Options, t: Tail,
                                      chunks: seq<seq<ResolvedChunk>>, read: seq<seq<ResolvedChunk>>)
    requires CollisionFree(c) && options.untilRecords.Some? && !Full(options.untilRecords, |t.lines|)
    requires Continuous(c, origin, log, options, t, chunks) && MeansEach(c, origin, log, options.from, read)
    requires |read| == |chunks| + 1
    ensures HadRoom(options.from, options.untilRecords.value, read)
  {
    hide AllLines, CollisionFree, Means;
    var front := read[..|chunks|];
    assert MeansEach(c, origin, log, options.from, front) by {
      forall j | 0 <= j < |front| ensures MeansAt(c, log, options.from - origin + j, front[j]) {
        assert front[j] == read[j];
      }
    }
    SameMeanings(c, origin, log, options.from, chunks, front);
    CapNotFull(options.untilRecords, AllLines(options.from, chunks));
  }

  lemma {:induction false} PassHadRoom(c: Codec, origin: nat, log: seq<LogPayload>, pass: Pass, options: Options,
          t: Tail,
                                       chunks: seq<seq<ResolvedChunk>>, read: seq<seq<ResolvedChunk>>)
    requires CollisionFree(c) && options.untilRecords.Some? && Chain(pass.view, origin) &&
      ConsumeTheorems.Entries(pass.view) <= log
    requires Continuous(c, origin, log, options, t, chunks) && MeansEach(c, origin, log, options.from, read)
    requires |read| > |chunks|
    requires options.from + |read| == ReadUpTo(c, pass, options.untilRecords, t, EndOf(pass.view)).tail.cursor
    ensures HadRoom(options.from, options.untilRecords.value, read)
    decreases EndOf(pass.view) - t.cursor
  {
    hide EntryLines, Cap, ReadAt, Chain, Flat, Means, ResolvePayload, EndOf, CollisionFree, HadRoom, AllLines;
    var end, entries := EndOf(pass.view), ConsumeTheorems.Entries(pass.view);
    CursorPastOrigin(c, origin, log, options, t, chunks);
    if t.cursor < end && !Full(options.untilRecords, |t.lines|) {
      PassEnd(pass.view, origin);
      ReadAtIs(pass.view, origin, |pass.view|, t.cursor);
      var payload := entries[t.cursor - origin];
      var resolved := ResolvePayload(c, pass.objects, payload);
      if resolved.Ok? {
        if |read| == |chunks| + 1 {
          RoomAtLast(c, origin, log, options, t, chunks, read);
        } else {
          Witness(c, pass.objects, payload, resolved.value);
          ContinuousStep(c, origin, log, options, t, chunks, resolved.value);
          var lines := Cap(options.untilRecords, |t.lines|, EntryLines(t.cursor, resolved.value, |resolved.value|));
          var next := Tail(t.cursor + 1, t.lines + lines, t.scanned + 1);
          hide Continuous, MeansEach;
          PassHadRoom(c, origin, log, pass, options, next, chunks + [resolved.value], read);
        }
      }
    }
  }

  // What is printed of the first entries is a part of what is printed of all.
  lemma {:induction false} LinesGrow(from: nat, chunks: seq<seq<ResolvedChunk>>, n: nat)
    requires n <= |chunks|
    ensures |AllLines(from, chunks[..n])| <= |AllLines(from, chunks)|
  {
    assert chunks == chunks[..n] + chunks[n..];
    AllLinesConcat(from, chunks[..n], chunks[n..]);
    hide AllLines;
  }

  /** The limit falls on the end of an entry, or is not reached. */
  ghost predicate AtBoundary(from: nat, limit: nat, all: seq<seq<ResolvedChunk>>) {
    |AllLines(from, all)| < limit || exists n :: 0 <= n <= |all| && |AllLines(from, all[..n])| == limit
  }

  lemma {:induction false} BoundaryExactly(from: nat, limit: nat, all: seq<seq<ResolvedChunk>>, m: nat)
    requires m <= |all| && HadRoom(from, limit, all[..m]) && (m == |all| || |AllLines(from, all[..m])| >= limit)
    ensures |AllLines(from, all[..m])| <= limit <==> AtBoundary(from, limit, all)
  {
    hide AllLines;
    assert all[..|all|] == all;
    LinesGrow(from, all, m);
    if n :| 0 <= n <= |all| && |AllLines(from, all[..n])| == limit {
      if n < m {
        LinesGrow(from, all[..m - 1], n);
        assert all[..m - 1][..n] == all[..n] && all[..m][..m - 1] == all[..m - 1];
      } else {
        LinesGrow(from, all[..n], m);
        assert all[..n][..m] == all[..m];
      }
    }
  }

  // All the entries from `from` to the end of the log, and what they resolve to.
  ghost predicate MeansRest(c: Codec, origin: nat, log: seq<LogPayload>, from: nat, all: seq<seq<ResolvedChunk>>) {
    MeansEach(c, origin, log, from, all) && from + |all| >= origin + |log|
  }

  // What a one-shot run reads: the first entries from its start, all of them or up to the limit.
  lemma {:induction false} OneShotRead(c: Codec, origin: nat, pass: Pass, from: nat, limit: nat,
          all: seq<seq<ResolvedChunk>>)
    returns (read: seq<seq<ResolvedChunk>>)
    requires CollisionFree(c) && from >= origin && Chain(pass.view, origin)
    requires MeansRest(c, origin, ConsumeTheorems.Entries(pass.view), from, all)
    requires Run(c, OneShot(from, Some(limit)), [pass]).failure.None?
    ensures Run(c, OneShot(from, Some(limit)), [pass]).tail.cursor == from + |read|
    ensures read <= all && HadRoom(from, limit, read) && (read == all || |AllLines(from, read)| >= limit)
  {
    hide EntryLines, Cap, ReadAt, Chain, Flat, Means, ResolvePayload, EndOf, CollisionFree, AllLines, ReadUpTo, Ids,
        Noticed;
    var options, log := OneShot(from, Some(limit)), ConsumeTheorems.Entries(pass.view);
    var t := Start(options);
    if Full(Some(limit), 0) {
      read := [];
      return;
    }
    assert Continuous(c, origin, log, options, t, []) by { StartsEmpty(c, origin, log, options); }
    read := PassIsContinuous(c, origin, pass, options, t, []);
    EndOrEmpty(pass.view, origin);
    ReadIsPart(c, origin, log, from, read, all);
    if read != [] { PassHadRoom(c, origin, log, pass, options, t, [], read); }
    CapLength(limit, AllLines(from, read));
  }

  lemma {:induction false} StartsEmpty(c: Codec, origin: nat, log: seq<LogPayload>, options: Options)
    requires options.from >= origin
    ensures Continuous(c, origin, log, options, Start(options), [])
  {
  }

  lemma {:induction false} CapLength(limit: nat, lines: seq<Line>)
    ensures |Cap(Some(limit), 0, lines)| >= limit ==> |lines| >= limit
  {
  }

  lemma {:induction false} ReadIsPart(c: Codec, origin: nat, log: seq<LogPayload>, from: nat,
          read: seq<seq<ResolvedChunk>>, all: seq<seq<ResolvedChunk>>)
    requires CollisionFree(c) && MeansEach(c, origin, log, from, read) && MeansRest(c, origin, log, from, all)
    ensures read <= all
    ensures from + |read| >= origin + |log| ==> read == all
  {
    hide Means, CollisionFree;
    if read != [] { assert MeansAt(c, log, from - origin + (|read| - 1), read[|read| - 1]); }
    if all != [] { assert MeansAt(c, log, from - origin + (|all| - 1), all[|all| - 1]); }
    var front := all[..|read|];
    forall j | 0 <= j < |front| ensures MeansAt(c, log, from - origin + j, front[j]) { assert front[j] == all[j]; }
    SameMeanings(c, origin, log, from, read, front);
  }

  /** A one-shot consumer with a limit, then one from its final cursor without, print together
      what one without a limit prints exactly when the limit is not reached or falls on the
      end of an entry: a condition on the log, the start and the limit alone. */
  lemma {:induction false} ResumeAtBoundary(c: Codec, origin: nat, log: seq<LogPayload>, pass: Pass, from: nat,
          limit: nat,
                                            all: seq<seq<ResolvedChunk>>, later: seq<Pass>, whole: seq<Pass>)
    requires CollisionFree(c) && from >= origin && Chain(pass.view, origin) && History(later, origin) &&
      History(whole, origin)
    requires ConsumeTheorems.Entries(pass.view) <= log && FinalEntries(later) <= log && FinalEntries(whole) <= log
    requires MeansRest(c, origin, ConsumeTheorems.Entries(pass.view), from, all)
    requires Run(c, OneShot(from, Some(limit)), [pass]).failure.None?
    requires var first := Run(c, OneShot(from, Some(limit)), [pass]).tail;
      Run(c, OneShot(from, None), whole).tail.cursor == Run(c, OneShot(first.cursor, None), later).tail.cursor
    ensures var first := Run(c, OneShot(from, Some(limit)), [pass]).tail;
      var rest := Run(c, OneShot(first.cursor, None), later).tail;
      first.lines + rest.lines == Run(c, OneShot(from, None), whole).tail.lines <==> AtBoundary(from, limit, all)
  {
    hide MeansEach, AllLines, CollisionFree, Run, AtBoundary, HadRoom, Flat, Chain;
    var read := OneShotRead(c, origin, pass, from, limit, all);
    assert all[..|read|] == read && History([pass], origin);
    var other := ResumeExactly(c, origin, log, OneShot(from, Some(limit)), [pass], later, whole);
    MeansEarlier(c, origin, ConsumeTheorems.Entries(pass.view), log, from, all, |read|);
    SameMeanings(c, origin, log, from, other, all[..|read|]);
    BoundaryExactly(from, limit, all, |read|);
  }

  lemma {:induction false} MeansEarlier(c: Codec, origin: nat, early: seq<LogPayload>, log: seq<LogPayload>, from: nat,
                                        all: seq<seq<ResolvedChunk>>, m: nat)
    requires MeansEach(c, origin, early, from, all) && early <= log && m <= |all|
    ensures MeansEach(c, origin, log, from, all[..m])
  {
    hide Means;
    forall j | 0 <= j < m ensures MeansAt(c, log, from - origin + j, all[..m][j]) {
      assert MeansAt(c, early, from - origin + j, all[j]);
    }
  }
}
