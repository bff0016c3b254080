/** `commit_cut_plan`: seal, group, place, PUT, then append under each Verse's fence. */
module CommitPlan {
  import opened Prelude
  import opened BlobModel
  import opened BlobStore
  import opened Grouping

  type Submission = Bytes

  datatype Envelope = Envelope(
    verseKey: VerseKey, chunkId: ChunkId, baseOffset: nat, journalId: Bytes, cohortId: Bytes,
    records: seq<Record>, submissions: seq<Submission>)

  datatype CutReason = Size | Linger | SourceDrained
  datatype CutPlan = CutPlan(reason: CutReason, envelopes: seq<Envelope>, blobPrefix: string)

  /** The Verses that can seal, and what the i-th sealing call of a commit answers. */
  datatype Sealers = Sealers(verses: set<VerseKey>, seal: (nat, Envelope) -> Result<SealedChunk, WriterError>)

  datatype Placement = Placement(verseKey: VerseKey, sealed: SealedChunk, offset: nat, length: nat, recordCount: nat)

  datatype PlacementOutcome = PlacementOutcome(verseKey: VerseKey, chunkId: ChunkId, result: Result<Ack, WriterError>)

  // Sealing and grouping. ----------------------------------------------------

  function SealOne(c: Codec, sealers: Sealers, i: nat, e: Envelope): (r: Result<SealedChunk, WriterError>)
    ensures r.Ok? ==> r.value.chunkId == e.chunkId && c.digest(r.value.bytes) == r.value.digest
  {
    if e.verseKey !in sealers.verses then Err(NoSealer(e.verseKey))
    else match sealers.seal(i, e)
      case Err(error) => Err(error)
      case Ok(s) => if s.chunkId != e.chunkId || c.digest(s.bytes) != s.digest then Err(SealMismatch) else Ok(s)
  }

  function SealAll(c: Codec, sealers: Sealers, es: seq<Envelope>, n: nat)
    : Result<seq<(VerseKey, SealedChunk)>, WriterError>
    requires n <= |es|
  {
    if n == 0 then Ok([]) else
      match SealAll(c, sealers, es, n - 1)
      case Err(error) => Err(error)
      case Ok(front) =>
        match SealOne(c, sealers, n - 1, es[n - 1])
        case Err(error) => Err(error)
        case Ok(s) => Ok(front + [(es[n - 1].verseKey, s)])
  }

  lemma {:induction false} SealFailureSticks(c: Codec, sealers: Sealers, es: seq<Envelope>, k: nat, n: nat)
    requires k <= n <= |es| && SealAll(c, sealers, es, k).Err?
    ensures SealAll(c, sealers, es, n) == SealAll(c, sealers, es, k)
  {
    if k < n { SealFailureSticks(c, sealers, es, k, n - 1); }
  }

  // Sealed chunk i answers envelope i.
  lemma {:induction false} SealAllAt(c: Codec, sealers: Sealers, es: seq<Envelope>, n: nat, i: nat)
    requires i < n <= |es| && SealAll(c, sealers, es, n).Ok?
    ensures |SealAll(c, sealers, es, n).value| == n
    ensures SealAll(c, sealers, es, n).value[i].0 == es[i].verseKey
    ensures SealOne(c, sealers, i, es[i]) == Ok(SealAll(c, sealers, es, n).value[i].1)
  {
    if n > 1 { SealAllAt(c, sealers, es, n - 1, if i == n - 1 then i - 1 else i); }
  }

  method SealAndGroup(c: Codec, sealers: Sealers, es: seq<Envelope>)
    returns (r: Result<seq<(VerseKey, seq<SealedChunk>)>, WriterError>)
    ensures r == match SealAll(c, sealers, es, |es|) case Err(e) => Err(e) case Ok(sealed) => Ok(GroupBy(sealed))
  {
    var groups: seq<(VerseKey, seq<SealedChunk>)> := [];
    ghost var sealed := [];
    for i := 0 to |es|
      invariant SealAll(c, sealers, es, i) == Ok(sealed) && groups == GroupBy(sealed)
    {
      var one := SealOne(c, sealers, i, es[i]);
      if one.Err? {
        SealFailureSticks(c, sealers, es, i + 1, |es|);
        return Err(one.error);
      }
      GroupBySnoc(sealed, es[i].verseKey, one.value);
      var at := FindGroup(groups, es[i].verseKey);
      if at < |groups| {
        groups := groups[at := (es[i].verseKey, groups[at].1 + [one.value])];
      } else {
        groups := groups + [(es[i].verseKey, [one.value])];
      }
      sealed := sealed + [(es[i].verseKey, one.value)];
    }
    r := Ok(groups);
  }

  // Placing. -----------------------------------------------------------------

  function PlaceOne(c: Codec, offset: nat, verse: VerseKey, s: SealedChunk): (r: Result<Placement, WriterError>)
    ensures r.Ok? ==>
      r.value.verseKey == verse && r.value.sealed == s && r.value.offset == offset && r.value.length == |s.bytes|
  {
    match c.index(s.bytes)
    case None => Err(ChunkInvalid)
    case Some(index) =>
      if |index.frames| != 1 then Err(NotOneFrame)
      else if offset >= U64_LIMIT || |s.bytes| >= U64_LIMIT then Err(OffsetOverflow)
      else Ok(Placement(verse, s, offset, |s.bytes|, index.frames[0].recordCount))
  }

  datatype Layout = Layout(bytes: Bytes, placements: seq<Placement>)

  // The object and its placements after the first `n` sealed chunks.
  function PlaceAll(c: Codec, items: seq<(VerseKey, SealedChunk)>, n: nat): Result<Layout, WriterError>
    requires n <= |items|
  {
    if n == 0 then Ok(Layout([], [])) else
      match PlaceAll(c, items, n - 1)
      case Err(e) => Err(e)
      case Ok(front) =>
        match PlaceOne(c, |front.bytes|, items[n - 1].0, items[n - 1].1)
        case Err(e) => Err(e)
        case Ok(p) => Ok(Layout(front.bytes + items[n - 1].1.bytes, front.placements + [p]))
  }

  lemma {:induction false} PlaceFailureSticks(c: Codec, items: seq<(VerseKey, SealedChunk)>, k: nat, n: nat)
    requires k <= n <= |items| && PlaceAll(c, items, k).Err?
    ensures PlaceAll(c, items, n) == PlaceAll(c, items, k)
  {
    if k < n { PlaceFailureSticks(c, items, k, n - 1); }
  }

  lemma {:induction false} PlacePrefix(c: Codec, items: seq<(VerseKey, SealedChunk)>,
          more: seq<(VerseKey, SealedChunk)>, n: nat)
    requires n <= |items|
    ensures PlaceAll(c, items + more, n) == PlaceAll(c, items, n)
  {
    if n > 0 { PlacePrefix(c, items, more, n - 1); }
  }

  /** The placements tile the object: they start at 0, each begins where the one
      before ended, the last ends at the end, and each range holds its chunk's bytes. */
  ghost predicate Tiles(bytes: Bytes, ps: seq<Placement>) {
    (ps == [] ==> bytes == []) &&
    (ps != [] ==> ps[0].offset == 0 && ps[|ps| - 1].offset + ps[|ps| - 1].length == |bytes|) &&
    (forall i :: 0 < i < |ps| ==> Abuts(ps, i)) &&
    (forall i :: 0 <= i < |ps| ==> HoldsBytes(bytes, ps[i]))
  }

  ghost predicate Abuts(ps: seq<Placement>, i: nat)
    requires 0 < i < |ps|
  {
    ps[i].offset == ps[i - 1].offset + ps[i - 1].length
  }

  ghost predicate HoldsBytes(bytes: Bytes, p: Placement) {
    p.length == |p.sealed.bytes| && p.offset + p.length <= |bytes| &&
        bytes[p.offset..p.offset + p.length] == p.sealed.bytes
  }

  lemma {:induction false} PlaceAllTiles(c: Codec, items: seq<(VerseKey, SealedChunk)>, n: nat)
    requires n <= |items| && PlaceAll(c, items, n).Ok?
    ensures var l := PlaceAll(c, items, n).value;
            |l.placements| == n && Tiles(l.bytes, l.placements) &&
            forall i :: 0 <= i < n ==> l.placements[i].verseKey == items[i].0 && l.placements[i].sealed == items[i].1
  {
    if n > 0 {
      PlaceAllTiles(c, items, n - 1);
      var front, l := PlaceAll(c, items, n - 1).value, PlaceAll(c, items, n).value;
      forall i | 0 <= i < n ensures HoldsBytes(l.bytes, l.placements[i]) {
        if i < n - 1 {
          assert HoldsBytes(front.bytes, front.placements[i]);
          var p := front.placements[i];
          assert l.bytes[p.offset..p.offset + p.length] == front.bytes[p.offset..p.offset + p.length];
        }
      }
      forall i | 0 < i < n ensures Abuts(l.placements, i) {
        if i < n - 1 { assert Abuts(front.placements, i); }
      }
    }
  }

  function LayoutOf(c: Codec, items: seq<(VerseKey, SealedChunk)>): Result<Layout, WriterError> {
    PlaceAll(c, items, |items|)
  }

  lemma {:induction false} LayoutSnoc(c: Codec, items: seq<(VerseKey, SealedChunk)>, verse: VerseKey, s: SealedChunk,
          front: Layout)
    requires LayoutOf(c, items) == Ok(front)
    ensures LayoutOf(c, items + [(verse, s)]) ==
            match PlaceOne(c, |front.bytes|, verse, s)
            case Err(e) => Err(e)
            case Ok(p) => Ok(Layout(front.bytes + s.bytes, front.placements + [p]))
  {
    PlacePrefix(c, items, [(verse, s)], |items|);
  }

  method Place(c: Codec, groups: seq<(VerseKey, seq<SealedChunk>)>) returns (r: Result<Layout, WriterError>)
    ensures r == LayoutOf(c, Ungroup(groups))
  {
    var bytes: Bytes, placements: seq<Placement> := [], [];
    assert Ungroup(groups[..0]) == [];
    assert LayoutOf(c, []) == Ok(Layout([], []));
    hide LayoutOf, PlaceOne;
    for g := 0 to |groups|
      invariant LayoutOf(c, Ungroup(groups[..g])) == Ok(Layout(bytes, placements))
    {
      var (verse, chunks) := groups[g];
      ghost var before := Ungroup(groups[..g]);
      assert before + Tag(verse, chunks[..0]) == before;
      for k := 0 to |chunks|
        invariant LayoutOf(c, before + Tag(verse, chunks[..k])) == Ok(Layout(bytes, placements))
      {
        assert chunks[..k + 1][..k] == chunks[..k];
        assert before + Tag(verse, chunks[..k + 1]) == (before + Tag(verse, chunks[..k])) + [(verse, chunks[k])];
        LayoutSnoc(c, before + Tag(verse, chunks[..k]), verse, chunks[k], Layout(bytes, placements));
        var one := PlaceOne(c, |bytes|, verse, chunks[k]);
        if one.Err? {
          PlaceStops(c, groups, g, k);
          return Err(one.error);
        }
        bytes := bytes + chunks[k].bytes;
        placements := placements + [one.value];
      }
      assert chunks[..|chunks|] == chunks;
      assert groups[..g + 1][..g] == groups[..g];
    }
    assert groups[..|groups|] == groups;
    r := Ok(Layout(bytes, placements));
  }

  // A chunk that cannot be placed decides the outcome of the whole list.
  lemma {:induction false} PlaceStops(c: Codec, groups: seq<(VerseKey, seq<SealedChunk>)>, g: nat, k: nat)
    requires g < |groups| && k < |groups[g].1|
    requires LayoutOf(c, Ungroup(groups[..g]) + Tag(groups[g].0, groups[g].1[..k + 1])).Err?
    ensures LayoutOf(c, Ungroup(groups)) == LayoutOf(c, Ungroup(groups[..g]) + Tag(groups[g].0, groups[g].1[..k + 1]))
  {
    var upTo := Ungroup(groups[..g]) + Tag(groups[g].0, groups[g].1[..k + 1]);
    UngroupPrefix(groups, g, k + 1);
    var all := Ungroup(groups);
    assert upTo + all[|upTo|..] == all;
    PlacePrefix(c, upTo, all[|upTo|..], |upTo|);
    PlaceFailureSticks(c, all, |upTo|, |all|);
  }

  lemma {:induction false} TagPrefix<K, V>(k: K, vs: seq<V>, n: nat)
    requires n <= |vs|
    ensures IsPrefix(Tag(k, vs[..n]), Tag(k, vs))
  {
    if n == |vs| {
      assert vs[..n] == vs;
    } else {
      TagPrefix(k, vs[..|vs| - 1], n);
      assert vs[..|vs| - 1][..n] == vs[..n];
    }
  }

  lemma {:induction false} UngroupPrefix<K, V>(groups: seq<(K, seq<V>)>, g: nat, k: nat)
    requires g < |groups| && k <= |groups[g].1|
    ensures IsPrefix(Ungroup(groups[..g]) + Tag(groups[g].0, groups[g].1[..k]), Ungroup(groups))
  {
    var n := |groups| - 1;
    if g == n {
      TagPrefix(groups[n].0, groups[n].1, k);
    } else {
      UngroupPrefix(groups[..n], g, k);
      assert groups[..n][..g] == groups[..g];
    }
  }
}
