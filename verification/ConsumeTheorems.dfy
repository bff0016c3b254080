/** Continuity of consuming across generation changes. */
module ConsumeTheorems {
  import opened Prelude
  import opened BlobModel
  import opened BlobReader
  import opened Consume

  // The virtual log. ---------------------------------------------------------------------------

  // The `i`-th generation begins where the one before it ends, or at `origin`.
  ghost predicate Linked(view: View, origin: nat, i: nat)
    requires i < |view|
  {
    view[i].start == if i == 0 then origin else view[i - 1].start + |view[i - 1].entries|
  }

  // Each generation starts at its predecessor's start plus sealed tail, all below 2^64.
  ghost predicate Chain(view: View, origin: nat) {
    && (forall i {:trigger Linked(view, origin, i)} :: 0 <= i < |view| ==> Linked(view, origin, i))
    && (view != [] ==> view[|view| - 1].start + |view[|view| - 1].entries| < U64_LIMIT)
  }

  // All entries of the first `n` generations, in order.
  function Flat(view: View, n: nat): seq<LogPayload>
    requires n <= |view|
  {
    if n == 0 then [] else Flat(view, n - 1) + view[n - 1].entries
  }

  function Entries(view: View): seq<LogPayload> { Flat(view, |view|) }

  lemma {:induction false} FlatLength(view: View, origin: nat, n: nat)
    requires Chain(view, origin) && 0 < n <= |view|
    ensures view[n - 1].start + |view[n - 1].entries| == origin + |Flat(view, n)|
  {
    assert Linked(view, origin, n - 1);
    if n > 1 { FlatLength(view, origin, n - 1); }
  }

  lemma {:induction false} EndIs(view: View, origin: nat)
    requires Chain(view, origin) && view != []
    ensures EndOf(view) == origin + |Entries(view)|
  {
    FlatLength(view, origin, |view|);
  }

  /** Reading a position through the generations gives the entry of the flattened log. */
  lemma {:induction false} ReadAtIs(view: View, origin: nat, n: nat, position: nat)
    requires Chain(view, origin) && n <= |view|
    requires position >= origin && position - origin < |Flat(view, n)|
    ensures ReadAt(view, n, position) == Some(Flat(view, n)[position - origin])
  {
    FlatLength(view, origin, n);
    assert Linked(view, origin, n - 1);
    if n > 1 { FlatLength(view, origin, n - 1); }
    if position < view[n - 1].start { ReadAtIs(view, origin, n - 1, position); }
  }

  /** Generations are only appended: a later view has the same generations, the
      superseded ones frozen and the last one only longer, and perhaps more. */
  ghost predicate Extends(early: View, late: View) {
    && |early| <= |late|
    && (forall i :: 0 <= i < |early| ==>
         late[i].id == early[i].id && late[i].start == early[i].start && early[i].entries <= late[i].entries)
    && (forall i :: 0 <= i < |early| - 1 ==> late[i].entries == early[i].entries)
  }

  lemma {:induction false} FlatSame(early: View, late: View, n: nat)
    requires Extends(early, late) && n < |early|
    ensures Flat(late, n) == Flat(early, n)
  {
    if n > 0 { FlatSame(early, late, n - 1); }
  }

  lemma {:induction false} FlatGrows(view: View, k: nat, n: nat)
    requires k <= n <= |view|
    ensures Flat(view, k) <= Flat(view, n)
  {
    if k < n { FlatGrows(view, k, n - 1); }
  }

  lemma {:induction false} EntriesGrow(early: View, late: View)
    requires Extends(early, late)
    ensures Entries(early) <= Entries(late)
  {
    if early != [] {
      var n := |early| - 1;
      FlatSame(early, late, n);
      FlatGrows(late, n + 1, |late|);
      assert Flat(early, n + 1) <= Flat(late, n + 1);
    }
  }

  ghost predicate History(passes: seq<Pass>, origin: nat) {
    && (forall i :: 0 <= i < |passes| ==> Chain(passes[i].view, origin))
    && (forall i, j :: 0 <= i <= j < |passes| ==> Extends(passes[i].view, passes[j].view))
  }

  // What entries mean. ---------------------------------------------------------------------------

  // Some store resolves the entry to these chunks.
  ghost predicate Means(c: Codec, p: LogPayload, chunks: seq<ResolvedChunk>) {
    exists objects :: ResolvePayload(c, objects, p) == Ok(chunks)
  }

  lemma {:induction false} ResolveOneStable(c: Codec, a: Objects, b: Objects, r: DataRef)
    requires CollisionFree(c) && ResolveOne(c, a, r).Ok? && ResolveOne(c, b, r).Ok?
    ensures ResolveOne(c, a, r) == ResolveOne(c, b, r)
  {
    assert Slice(a, r) == Slice(b, r);
  }

  /** Content digests fix what an entry resolves to, whatever happens to the store. */
  lemma {:induction false} MeaningIsUnique(c: Codec, p: LogPayload, a: seq<ResolvedChunk>, b: seq<ResolvedChunk>)
    requires CollisionFree(c) && Means(c, p, a) && Means(c, p, b)
    ensures a == b
  {
    var one :| ResolvePayload(c, one, p) == Ok(a);
    var two :| ResolvePayload(c, two, p) == Ok(b);
    if p.DataRefEntry? || p.ReferenceBatch? {
      var refs := PayloadRefs(p);
      ResolveAllIsEach(c, one, refs, |refs|);
      ResolveAllIsEach(c, two, refs, |refs|);
      forall i | 0 <= i < |refs| ensures a[i] == b[i] { ResolveOneStable(c, one, two, refs[i]); }
    }
  }

  // All lines of consecutive entries, the first at position `from`.
  function AllLines(from: nat, chunks: seq<seq<ResolvedChunk>>): seq<Line> {
    if chunks == [] then [] else
      var n := |chunks| - 1;
      AllLines(from, chunks[..n]) + EntryLines(from + n, chunks[n], |chunks[n]|)
  }

  ghost predicate MeansAt(c: Codec, entries: seq<LogPayload>, k: int, chunks: seq<ResolvedChunk>) {
    0 <= k < |entries| && Means(c, entries[k], chunks)
  }

  // `chunks` are what the entries from `from` on resolve to.
  ghost predicate MeansEach(c: Codec, origin: nat, entries: seq<LogPayload>, from: nat,
          chunks: seq<seq<ResolvedChunk>>)
  {
    from >= origin && forall j :: 0 <= j < |chunks| ==> MeansAt(c, entries, from - origin + j, chunks[j])
  }

  /** Every entry from `from` to the cursor was read once, in order, and what was printed
      is everything they hold up to the limit. */
  ghost predicate Continuous(c: Codec, origin: nat, entries: seq<LogPayload>, options: Options, t: Tail,
          chunks: seq<seq<ResolvedChunk>>)
  {
    && t.cursor == options.from + |chunks|
    && MeansEach(c, origin, entries, options.from, chunks)
    && t.lines == Cap(options.untilRecords, 0, AllLines(options.from, chunks))
  }

  lemma {:induction false} ContinuousLater(c: Codec, origin: nat, early: seq<LogPayload>, late: seq<LogPayload>,
          options: Options, t: Tail, chunks: seq<seq<ResolvedChunk>>)
    requires Continuous(c, origin, early, options, t, chunks) && early <= late
    ensures Continuous(c, origin, late, options, t, chunks)
  {
    hide Means, Cap, AllLines;
    forall j | 0 <= j < |chunks| ensures MeansAt(c, late, options.from - origin + j, chunks[j]) {
      assert MeansAt(c, early, options.from - origin + j, chunks[j]);
    }
  }

  lemma {:induction false} AllLinesSnoc(from: nat, chunks: seq<seq<ResolvedChunk>>, more: seq<ResolvedChunk>)
    ensures AllLines(from, chunks + [more]) == AllLines(from, chunks) + EntryLines(from + |chunks|, more, |more|)
  {
    assert (chunks + [more])[..|chunks|] == chunks;
  }

  lemma {:induction false} CapNotFull(limit: Option<nat>, lines: seq<Line>)
    requires !Full(limit, |Cap(limit, 0, lines)|)
    ensures Cap(limit, 0, lines) == lines
  {
  }

  // Reading one more entry, the limit not yet met.
  lemma {:induction false} ContinuousStep(c: Codec, origin: nat, entries: seq<LogPayload>, options: Options, t: Tail,
          chunks: seq<seq<ResolvedChunk>>, more: seq<ResolvedChunk>)
    requires Continuous(c, origin, entries, options, t, chunks) && !Full(options.untilRecords, |t.lines|)
    requires t.cursor - origin < |entries| && Means(c, entries[t.cursor - origin], more)
    ensures Continuous(c, origin, entries, options,
              Tail(t.cursor + 1, t.lines + Cap(options.untilRecords, |t.lines|, EntryLines(t.cursor, more, |more|)),
                  t.scanned + 1), chunks + [more])
  {
    hide Means, AllLines, EntryLines, Cap;
    var before, lines := AllLines(options.from, chunks), EntryLines(t.cursor, more, |more|);
    AllLinesSnoc(options.from, chunks, more);
    CapNotFull(options.untilRecords, before);
    CapConcat(options.untilRecords, 0, before, lines);
  }

  lemma {:induction false} CursorPastOrigin(c: Codec, origin: nat, entries: seq<LogPayload>, options: Options, t: Tail,
          chunks: seq<seq<ResolvedChunk>>)
    requires Continuous(c, origin, entries, options, t, chunks)
    ensures t.cursor >= origin
  {
  }

  lemma {:induction false} ContinuousScanned(c: Codec, origin: nat, entries: seq<LogPayload>, options: Options, t: Tail,
          chunks: seq<seq<ResolvedChunk>>)
    requires Continuous(c, origin, entries, options, t, chunks)
    ensures Continuous(c, origin, entries, options, t.(scanned := t.scanned + 1), chunks)
  {
  }

  lemma {:induction false} Witness(c: Codec, objects: Objects, p: LogPayload, chunks: seq<ResolvedChunk>)
    requires ResolvePayload(c, objects, p) == Ok(chunks)
    ensures Means(c, p, chunks)
  {
  }

  lemma {:induction false} PassEnd(view: View, origin: nat)
    requires Chain(view, origin) && EndOf(view) > 0
    ensures view != [] && EndOf(view) == origin + |Entries(view)|
  {
    EndIs(view, origin);
  }

  // What a pass answers, and the tail it leaves.
  ghost predicate PassAnswers(c: Codec, origin: nat, entries: seq<LogPayload>, options: Options, scanned: nat, end: nat,
          read: Read, chunks: seq<seq<ResolvedChunk>>)
  {
    && Continuous(c, origin, entries, options, read.tail, chunks)
    && match read.failure
       case None => read.tail.scanned == scanned + |chunks| &&
           (read.tail.cursor >= end || Full(options.untilRecords, |read.tail.lines|))
       case Some(e) => e.Unresolvable? && e.entry == read.tail.cursor
  }

  /** One pass over a chained view reads on without gap or repeat up to its end, the
      limit, or an entry that does not resolve; a position is never missing. */
  lemma {:induction false} PassIsContinuous(c: Codec, origin: nat, pass: Pass, options: Options, t: Tail,
          chunks: seq<seq<ResolvedChunk>>)
    returns (more: seq<seq<ResolvedChunk>>)
    requires Chain(pass.view, origin)
    requires Continuous(c, origin, Entries(pass.view), options, t, chunks) && t.scanned >= |chunks|
    ensures PassAnswers(c, origin, Entries(pass.view), options, t.scanned - |chunks|, EndOf(pass.view),
                        ReadUpTo(c, pass, options.untilRecords, t, EndOf(pass.view)), more)
    decreases EndOf(pass.view) - t.cursor
  {
    hide EntryLines, Cap, ReadAt, Chain, Flat, Means, ResolvePayload, EndOf, Continuous;
    more := chunks;
    var end, entries := EndOf(pass.view), Entries(pass.view);
    CursorPastOrigin(c, origin, entries, options, t, chunks);
    if t.cursor >= end || Full(options.untilRecords, |t.lines|) { return; }
    PassEnd(pass.view, origin);
    ReadAtIs(pass.view, origin, |pass.view|, t.cursor);
    var payload := entries[t.cursor - origin];
    var resolved := ResolvePayload(c, pass.objects, payload);
    if resolved.Err? { ContinuousScanned(c, origin, entries, options, t, chunks); return; }
    Witness(c, pass.objects, payload, resolved.value);
    ContinuousStep(c, origin, entries, options, t, chunks, resolved.value);
    var lines := Cap(options.untilRecords, |t.lines|, EntryLines(t.cursor, resolved.value, |resolved.value|));
    var t1 := Tail(t.cursor + 1, t.lines + lines, t.scanned + 1);
    hide PassAnswers;
    more := PassIsContinuous(c, origin, pass, options, t1, chunks + [resolved.value]);
  }

  function FinalEntries(passes: seq<Pass>): seq<LogPayload> {
    if passes == [] then [] else Entries(passes[|passes| - 1].view)
  }

  ghost predicate Answers(c: Codec, origin: nat, passes: seq<Pass>, options: Options, done: Consumed,
          chunks: seq<seq<ResolvedChunk>>)
  {
    && Continuous(c, origin, FinalEntries(passes), options, done.tail, chunks)
    && match done.failure
       case None => done.tail.scanned == |chunks|
       case Some(e) => e.Unresolvable? && e.entry == done.tail.cursor
  }

  lemma {:induction false} FollowIsContinuous(c: Codec, origin: nat, options: Options, passes: seq<Pass>, i: nat,
          t: Tail, w: Watch, chunks: seq<seq<ResolvedChunk>>)
    returns (more: seq<seq<ResolvedChunk>>)
    requires History(passes, origin) && i <= |passes| && t.scanned == |chunks|
    requires Continuous(c, origin, if i == 0 then [] else Entries(passes[i - 1].view), options, t, chunks)
    ensures Answers(c, origin, passes, options, Follow(c, options, passes, i, t, w), more)
    decreases |passes| - i
  {
    hide Continuous, ReadUpTo, Flat, EndOf, Ids, Noticed, Chain;
    more := chunks;
    var before := if i == 0 then [] else Entries(passes[i - 1].view);
    if i == |passes| { return; }
    var pass := passes[i];
    var final := FinalEntries(passes);
    EntriesGrow(pass.view, passes[|passes| - 1].view);
    if i > 0 { EntriesGrow(passes[i - 1].view, pass.view); }
    hide Entries, Extends;
    ContinuousLater(c, origin, before, Entries(pass.view), options, t, chunks);
    if Full(options.untilRecords, |t.lines|) {
      ContinuousLater(c, origin, Entries(pass.view), final, options, t, chunks);
      return;
    }
    more := PassIsContinuous(c, origin, pass, options, t, chunks);
    var read := ReadUpTo(c, pass, options.untilRecords, t, EndOf(pass.view));
    if read.failure.Some? || options.noFollow {
      ContinuousLater(c, origin, Entries(pass.view), final, options, read.tail, more);
    } else {
      more := FollowIsContinuous(c, origin, options, passes, i + 1, read.tail, Noticed(w, Ids(pass.view)), more);
    }
  }

  /** Over any history in which generations are only appended, the lines printed are those
      of the flattened entries from `from` up to the final cursor, each entry once and in
      order, cut at the limit; the only way to fail is an entry that does not resolve. */
  lemma {:induction false} ConsumeIsContinuous(c: Codec, origin: nat, options: Options, passes: seq<Pass>)
    returns (chunks: seq<seq<ResolvedChunk>>)
    requires History(passes, origin) && options.from >= origin
    ensures Answers(c, origin, passes, options, Follow(c, options, passes, 0, Start(options), Watch(None, false)),
      chunks)
  {
    chunks := FollowIsContinuous(c, origin, options, passes, 0, Start(options), Watch(None, false), []);
  }

  // A start before the log's first position reads nothing.
  lemma {:induction false} ReadBelowOrigin(view: View, origin: nat, n: nat, position: nat)
    requires Chain(view, origin) && n <= |view| && position < origin
    ensures ReadAt(view, n, position) == None
  {
    if n > 0 {
      FlatLength(view, origin, n);
      assert Linked(view, origin, n - 1);
      if n > 1 { FlatLength(view, origin, n - 1); }
      ReadBelowOrigin(view, origin, n - 1, position);
    }
  }

  // Resuming. ----------------------------------------------------------------------------------

  lemma {:induction false} AllLinesConcat(from: nat, a: seq<seq<ResolvedChunk>>, b: seq<seq<ResolvedChunk>>)
    ensures AllLines(from, a + b) == AllLines(from, a) + AllLines(from + |a|, b)
    decreases |b|
  {
    if b == [] {
      assert a + b == a;
    } else {
      var n := |b| - 1;
      AllLinesConcat(from, a, b[..n]);
      assert a + b == (a + b[..n]) + [b[n]] && b == b[..n] + [b[n]];
      AllLinesSnoc(from, a + b[..n], b[n]);
      AllLinesSnoc(from + |a|, b[..n], b[n]);
      hide AllLines, EntryLines;
      ConcatAssoc(AllLines(from, a), AllLines(from + |a|, b[..n]), EntryLines(from + |a| + n, b[n], |b[n]|));
    }
  }

  // Membership changes. ---------------------------------------------------------------------------

  // How many passes are made.
  function PassesMade(c: Codec, options: Options, passes: seq<Pass>, i: nat, t: Tail): nat
    requires i <= |passes|
    decreases |passes| - i
  {
    if i == |passes| || Full(options.untilRecords, |t.lines|) then i else
      var read := ReadUpTo(c, passes[i], options.untilRecords, t, EndOf(passes[i].view));
      if read.failure.Some? || options.noFollow then i + 1 else PassesMade(c, options, passes, i + 1, read.tail)
  }

  // After `n` passes: some view had several generations, or a generation appeared meanwhile.
  ghost predicate Changed(passes: seq<Pass>, n: nat)
    requires n <= |passes|
  {
    n > 0 && (|passes[n - 1].view| > 1 || |passes[0].view| < |passes[n - 1].view|)
  }

  ghost predicate Watching(passes: seq<Pass>, n: nat, w: Watch)
    requires n <= |passes|
  {
    w == Watch(if n == 0 then None else Some(Ids(passes[n - 1].view)), Changed(passes, n))
  }

  lemma {:induction false} NoticedIs(passes: seq<Pass>, origin: nat, i: nat, w: Watch)
    requires History(passes, origin) && i < |passes| && Watching(passes, i, w)
    ensures Watching(passes, i + 1, Noticed(w, Ids(passes[i].view)))
  {
    if i > 0 {
      assert Extends(passes[0].view, passes[i - 1].view) && Extends(passes[i - 1].view, passes[i].view);
      var early, late := passes[i - 1].view, passes[i].view;
      if |early| == |late| { assert Ids(early) == Ids(late); }
    }
  }

  /** A membership change is reported exactly when the last view observed had more than
      one generation, or more than the first. */
  lemma {:induction false} MembershipChangeExactly(c: Codec, origin: nat, options: Options, passes: seq<Pass>, i: nat,
          t: Tail, w: Watch)
    requires History(passes, origin) && i <= |passes| && Watching(passes, i, w)
    ensures i <= PassesMade(c, options, passes, i, t) <= |passes|
    ensures Follow(c, options, passes, i, t, w).watch.changed <==> Changed(passes, PassesMade(c, options, passes, i, t))
    decreases |passes| - i
  {
    hide ReadUpTo, Ids, Noticed, History, EndOf;
    if i == |passes| || Full(options.untilRecords, |t.lines|) { return; }
    NoticedIs(passes, origin, i, w);
    var read := ReadUpTo(c, passes[i], options.untilRecords, t, EndOf(passes[i].view));
    if read.failure.None? && !options.noFollow {
      MembershipChangeExactly(c, origin, options, passes, i + 1, read.tail, Noticed(w, Ids(passes[i].view)));
    }
  }

  // Progress. -------------------------------------------------------------------------------------

  lemma {:induction false} ReadReachesEnd(c: Codec, pass: Pass, limit: Option<nat>, t: Tail, end: nat)
    ensures var read := ReadUpTo(c, pass, limit, t, end);
      read.failure.None? ==> read.tail.cursor >= end || Full(limit, |read.tail.lines|)
    decreases end - t.cursor
  {
    hide Cap, EntryLines, ReadAt, ResolvePayload;
    if t.cursor < end && !Full(limit, |t.lines|) && ReadAt(pass.view, |pass.view|, t.cursor).Some? {
      var chunks := ResolvePayload(c, pass.objects, ReadAt(pass.view, |pass.view|, t.cursor).value);
      if chunks.Ok? {
        var lines := Cap(limit, |t.lines|, EntryLines(t.cursor, chunks.value, |chunks.value|));
        ReadReachesEnd(c, pass, limit, Tail(t.cursor + 1, t.lines + lines, t.scanned + 1), end);
      }
    }
  }

  /** A run that does not fail stops at the limit or at the end it last observed. */
  lemma {:induction false} ConsumeReachesEnd(c: Codec, options: Options, passes: seq<Pass>, i: nat, t: Tail, w: Watch)
    requires i <= |passes| && (i > 0 ==> t.cursor >= EndOf(passes[i - 1].view) || Full(options.untilRecords, |t.lines|))
    ensures var done, made := Follow(c, options, passes, i, t, w), PassesMade(c, options, passes, i, t);
      && i <= made <= |passes|
      && (done.failure.None? && made > 0 ==>
            done.tail.cursor >= EndOf(passes[made - 1].view) || Full(options.untilRecords, |done.tail.lines|))
    decreases |passes| - i
  {
    hide ReadUpTo, Ids, Noticed, EndOf;
    if i == |passes| || Full(options.untilRecords, |t.lines|) { return; }
    var end := EndOf(passes[i].view);
    ReadReachesEnd(c, passes[i], options.untilRecords, t, end);
    var read := ReadUpTo(c, passes[i], options.untilRecords, t, end);
    if read.failure.None? && !options.noFollow {
      ConsumeReachesEnd(c, options, passes, i + 1, read.tail, Noticed(w, Ids(passes[i].view)));
    }
  }
}
