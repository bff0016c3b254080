/** `scan_log_deduped`: one record set per ChunkId, and the closed form it computes. */
module BlobScan {
  import opened Prelude
  import opened BlobModel
  import opened BlobReader

  datatype RewriteError =
    | Codec(dataRefError: DataRefError)
    | Read(readError: ReadError)
    | ChunkMalformed
    | ObjectStoreFailed
    | BlobDigestDisagrees
    | AppendFailed
    | Invariant

  /** One candidate for a ChunkId: an inline chunk or a pointer. */
  datatype Entry = Inline(chunk: Chunk) | Ref(dataRef: DataRef)
  {
    function Id(): ChunkId {
      match this case Inline(chunk) => chunk.chunkId case Ref(r) => r.chunkId
    }

    predicate Rewritten(cfg: RewriteConfig) {
      Ref? && IsRewrittenBlobKey(cfg, dataRef.blobKey)
    }
  }

  /** Among two pointers for one ChunkId, prefer the rewritten one. */
  function PreferDataRef(cfg: RewriteConfig, current: DataRef, candidate: DataRef): DataRef {
    if IsRewrittenBlobKey(cfg, candidate.blobKey) &&
        !IsRewrittenBlobKey(cfg, current.blobKey) then candidate else current
  }

  function RefEntries(refs: seq<DataRef>): seq<Entry> {
    if refs == [] then [] else RefEntries(refs[..|refs| - 1]) + [Ref(refs[|refs| - 1])]
  }

  function PayloadEntries(c: Codec, p: LogPayload): Result<seq<Entry>, RewriteError> {
    match p
    case Undecodable(e) => Err(RewriteError.Codec(e))
    case InlineChunk(bytes) => if c.decode(bytes).None? then Err(ChunkMalformed)
        else Ok([Inline(c.decode(bytes).value)])
    case DataRefEntry(r) => Ok([Ref(r)])
    case ReferenceBatch(refs) => Ok(RefEntries(refs))
  }

  // Every candidate of a log in order, or the error of its first unreadable entry.
  function Candidates(c: Codec, log: seq<LogPayload>): Result<seq<Entry>, RewriteError> {
    if log == [] then Ok([]) else
      match Candidates(c, log[..|log| - 1])
      case Err(e) => Err(e)
      case Ok(front) =>
        match PayloadEntries(c, log[|log| - 1])
        case Err(e) => Err(e)
        case Ok(back) => Ok(front + back)
  }

  lemma {:induction false} CandidatesAppend(c: Codec, log: seq<LogPayload>, more: seq<LogPayload>)
    ensures Candidates(c, log).Err? ==> Candidates(c, log + more) == Candidates(c, log)
    ensures Candidates(c, log).Ok? && Candidates(c, more).Ok? ==>
              Candidates(c, log + more) == Ok(Candidates(c, log).value + Candidates(c, more).value)
    ensures Candidates(c, log).Ok? && Candidates(c, more).Err? ==> Candidates(c, log + more) == Candidates(c, more)
  {
    if more == [] {
      assert log + more == log;
      assert Candidates(c, log).Ok? ==> Candidates(c, log).value + [] == Candidates(c, log).value;
    } else {
      var n := |more| - 1;
      CandidatesAppend(c, log, more[..n]);
      assert (log + more)[..|log + more| - 1] == log + more[..n];
      if Candidates(c, log).Ok? && Candidates(c, more).Ok? {
        var front, mid, back := Candidates(c, log).value, Candidates(c, more[..n]).value,
            PayloadEntries(c, more[n]).value;
        assert (front + mid) + back == front + (mid + back);
      }
    }
  }

  // The closed form. ---------------------------------------------------------

  // ChunkIds in the order of their first appearance.
  function DistinctIds(items: seq<Entry>): seq<ChunkId> {
    if items == [] then [] else
      var front := DistinctIds(items[..|items| - 1]);
      var id := items[|items| - 1].Id();
      if id in front then front else front + [id]
  }

  function FirstRewritten(cfg: RewriteConfig, items: seq<Entry>, id: ChunkId): Option<DataRef> {
    if items == [] then None else
      var front, last := FirstRewritten(cfg, items[..|items| - 1], id), items[|items| - 1];
      if front.None? && last.Rewritten(cfg) && last.Id() == id then Some(last.dataRef) else front
  }

  function LastInline(items: seq<Entry>, id: ChunkId): Option<Chunk> {
    if items == [] then None else
      var last := items[|items| - 1];
      if last.Inline? && last.Id() == id then Some(last.chunk) else LastInline(items[..|items| - 1], id)
  }

  function FirstRef(items: seq<Entry>, id: ChunkId): Option<DataRef> {
    if items == [] then None else
      var front, last := FirstRef(items[..|items| - 1], id), items[|items| - 1];
      if front.None? && last.Ref? && last.Id() == id then Some(last.dataRef) else front
  }

  /** The entry a reader must use for `id`: the first rewritten pointer if there
      is one, else the last inline chunk, else the first pointer. */
  function Choose(cfg: RewriteConfig, items: seq<Entry>, id: ChunkId): Option<Entry> {
    if FirstRewritten(cfg, items, id).Some? then Some(Ref(FirstRewritten(cfg, items, id).value))
    else if LastInline(items, id).Some? then Some(Inline(LastInline(items, id).value))
    else if FirstRef(items, id).Some? then Some(Ref(FirstRef(items, id).value))
    else None
  }

  function ResolveEntry(c: Codec, objects: Objects, e: Entry): Result<ResolvedChunk, RewriteError> {
    match e
    case Inline(chunk) => Ok(ResolvedChunk(chunk, None))
    case Ref(r) =>
      if r.Fault().Some? then Err(RewriteError.Codec(r.Fault().value))
      else match ResolveOne(c, objects, r)
        case Err(error) => Err(Read(error))
        case Ok(one) => Ok(one)
  }

  // The chosen entries of the first `n` ids, resolved in order.
  function ResolveChosen(c: Codec, cfg: RewriteConfig, objects: Objects, items: seq<Entry>, ids: seq<ChunkId>, n: nat)
    : Result<seq<ResolvedChunk>, RewriteError>
    requires n <= |ids|
  {
    if n == 0 then Ok([]) else
      match ResolveChosen(c, cfg, objects, items, ids, n - 1)
      case Err(e) => Err(e)
      case Ok(front) =>
        match Choose(cfg, items, ids[n - 1])
        case None => Err(Invariant)
        case Some(e) =>
          match ResolveEntry(c, objects, e)
          case Err(error) => Err(error)
          case Ok(one) => Ok(front + [one])
  }

  /** What a deduplicating scan must return. */
  function Scan(c: Codec, cfg: RewriteConfig, objects: Objects, log: seq<LogPayload>)
    : Result<seq<ResolvedChunk>, RewriteError>
  {
    match Candidates(c, log)
    case Err(e) => Err(e)
    case Ok(items) => ResolveChosen(c, cfg, objects, items, DistinctIds(items), |DistinctIds(items)|)
  }

  // The closed form says what its names say. ---------------------------------

  ghost predicate Mentions(items: seq<Entry>, id: ChunkId) {
    exists i :: 0 <= i < |items| && items[i].Id() == id
  }

  lemma {:induction false} DistinctIdsFacts(items: seq<Entry>)
    ensures Distinct(DistinctIds(items))
    ensures forall id :: id in DistinctIds(items) <==> Mentions(items, id)
  {
    if items != [] {
      var n := |items| - 1;
      DistinctIdsFacts(items[..n]);
      forall id ensures Mentions(items, id) <==> Mentions(items[..n], id) || items[n].Id() == id {
        assert items == items[..n] + [items[n]];
      }
    }
  }

  /** The chosen rewritten pointer is the earliest one of its id. */
  lemma {:induction false} FirstRewrittenIs(cfg: RewriteConfig, items: seq<Entry>, id: ChunkId)
    ensures FirstRewritten(cfg, items, id).None? <==>
            forall i :: 0 <= i < |items| ==> !(items[i].Rewritten(cfg) && items[i].Id() == id)
    ensures FirstRewritten(cfg, items, id).Some? ==>
            exists i :: 0 <= i < |items| && items[i].Rewritten(cfg) &&
                items[i] == Ref(FirstRewritten(cfg, items, id).value) &&
              items[i].Id() == id && forall j :: 0 <= j < i ==> !(items[j].Rewritten(cfg) && items[j].Id() == id)
  {
    if items != [] {
      var n := |items| - 1;
      FirstRewrittenIs(cfg, items[..n], id);
      assert items == items[..n] + [items[n]];
    }
  }

  lemma {:induction false} LastInlineIs(items: seq<Entry>, id: ChunkId)
    ensures LastInline(items, id).None? <==> forall i :: 0 <= i < |items| ==> !(items[i].Inline? && items[i].Id() == id)
    ensures LastInline(items, id).Some? ==>
            exists i :: 0 <= i < |items| && items[i] == Inline(LastInline(items, id).value) && items[i].Id() == id &&
              forall j :: i < j < |items| ==> !(items[j].Inline? && items[j].Id() == id)
  {
    if items != [] {
      var n := |items| - 1;
      LastInlineIs(items[..n], id);
      assert items == items[..n] + [items[n]];
    }
  }

  lemma {:induction false} FirstRefIs(items: seq<Entry>, id: ChunkId)
    ensures FirstRef(items, id).None? <==> forall i :: 0 <= i < |items| ==> !(items[i].Ref? && items[i].Id() == id)
    ensures FirstRef(items, id).Some? ==>
            exists i :: 0 <= i < |items| && items[i] == Ref(FirstRef(items, id).value) && items[i].Id() == id &&
              forall j :: 0 <= j < i ==> !(items[j].Ref? && items[j].Id() == id)
  {
    if items != [] {
      var n := |items| - 1;
      FirstRefIs(items[..n], id);
      assert items == items[..n] + [items[n]];
    }
  }

  lemma {:induction false} ChooseMentioned(cfg: RewriteConfig, items: seq<Entry>, id: ChunkId)
    ensures Choose(cfg, items, id).Some? <==> Mentions(items, id)
    ensures Choose(cfg, items, id).Some? ==>
      Choose(cfg, items, id).value in items && Choose(cfg, items, id).value.Id() == id
  {
    FirstRewrittenIs(cfg, items, id);
    LastInlineIs(items, id);
    FirstRefIs(items, id);
  }

  /** Once a rewritten pointer is chosen, nothing appended later displaces it. */
  lemma {:induction false} RewrittenSticks(cfg: RewriteConfig, items: seq<Entry>, more: seq<Entry>, id: ChunkId)
    requires FirstRewritten(cfg, items, id).Some?
    ensures FirstRewritten(cfg, items + more, id) == FirstRewritten(cfg, items, id)
    ensures Choose(cfg, items + more, id) == Choose(cfg, items, id)
  {
    if more == [] {
      assert items + more == items;
    } else {
      var n := |more| - 1;
      RewrittenSticks(cfg, items, more[..n], id);
      assert (items + more)[..|items + more| - 1] == items + more[..n];
    }
  }

  /** Ids already listed keep their place; new ones go behind them. */
  lemma {:induction false} DistinctIdsGrow(items: seq<Entry>, more: seq<Entry>)
    ensures IsPrefix(DistinctIds(items), DistinctIds(items + more))
    ensures (forall i :: 0 <= i < |more| ==> more[i].Id() in DistinctIds(items)) ==>
      DistinctIds(items + more) == DistinctIds(items)
  {
    if more == [] {
      assert items + more == items;
    } else {
      var n := |more| - 1;
      DistinctIdsGrow(items, more[..n]);
      assert (items + more)[..|items + more| - 1] == items + more[..n];
    }
  }

  // The fold refines the closed form. ----------------------------------------

  // What the scan's map holds after the candidates so far.
  ghost predicate Holds(cfg: RewriteConfig, items: seq<Entry>, best: map<ChunkId, Entry>, order: seq<ChunkId>) {
    order == DistinctIds(items) && (forall id :: id in best <==> id in order) &&
    forall id :: id in best ==> Choose(cfg, items, id) == Some(best[id])
  }

  // One more candidate, in terms of the entry held before it.
  function Step(cfg: RewriteConfig, held: Option<Entry>, e: Entry): Entry {
    match held
    case None => e
    case Some(Ref(existing)) =>
      if e.Ref? then Ref(PreferDataRef(cfg, existing, e.dataRef))
      else if IsRewrittenBlobKey(cfg, existing.blobKey) then held.value else e
    case Some(Inline(_)) => if e.Inline? || e.Rewritten(cfg) then e else held.value
  }

  lemma {:induction false} FirstRefOfRewritten(cfg: RewriteConfig, items: seq<Entry>, id: ChunkId)
    requires FirstRewritten(cfg, items, id).None? && FirstRef(items, id).Some?
    ensures !IsRewrittenBlobKey(cfg, FirstRef(items, id).value.blobKey)
  {
    if items != [] {
      var n := |items| - 1;
      if FirstRef(items[..n], id).Some? { FirstRefOfRewritten(cfg, items[..n], id); }
    }
  }

  lemma {:induction false} FirstRewrittenKey(cfg: RewriteConfig, items: seq<Entry>, id: ChunkId)
    requires FirstRewritten(cfg, items, id).Some?
    ensures IsRewrittenBlobKey(cfg, FirstRewritten(cfg, items, id).value.blobKey)
    ensures FirstRewritten(cfg, items, id).value.chunkId == id
  {
    var n := |items| - 1;
    if FirstRewritten(cfg, items[..n], id).Some? { FirstRewrittenKey(cfg, items[..n], id); }
  }

  lemma {:induction false} ChooseStep(cfg: RewriteConfig, items: seq<Entry>, e: Entry, id: ChunkId)
    ensures id == e.Id() ==> Choose(cfg, items + [e], id) == Some(Step(cfg, Choose(cfg, items, id), e))
    ensures id != e.Id() ==> Choose(cfg, items + [e], id) == Choose(cfg, items, id)
  {
    assert (items + [e])[..|items|] == items;
    if FirstRewritten(cfg, items, id).Some? {
      FirstRewrittenKey(cfg, items, id);
    } else if FirstRef(items, id).Some? {
      FirstRefOfRewritten(cfg, items, id);
    }
  }

  lemma {:induction false} HoldsStep(cfg: RewriteConfig, items: seq<Entry>, best: map<ChunkId, Entry>,
          order: seq<ChunkId>, e: Entry)
    requires Holds(cfg, items, best, order)
    ensures var held := if e.Id() in best then Some(best[e.Id()]) else None;
            Holds(cfg, items + [e], best[e.Id() := Step(cfg, held, e)], if held.None? then order + [e.Id()] else order)
  {
    assert (items + [e])[..|items|] == items;
    forall id ensures id == e.Id() || Choose(cfg, items + [e], id) == Choose(cfg, items, id) {
      ChooseStep(cfg, items, e, id);
    }
    ChooseStep(cfg, items, e, e.Id());
    if e.Id() !in best {
      DistinctIdsFacts(items);
      ChooseMentioned(cfg, items, e.Id());
    }
  }

  lemma {:induction false} ChosenFailureSticks(c: Codec, cfg: RewriteConfig, objects: Objects, items: seq<Entry>,
          ids: seq<ChunkId>, k: nat, n: nat)
    requires k <= n <= |ids| && ResolveChosen(c, cfg, objects, items, ids, k).Err?
    ensures ResolveChosen(c, cfg, objects, items, ids, n) == ResolveChosen(c, cfg, objects, items, ids, k)
  {
    if k < n { ChosenFailureSticks(c, cfg, objects, items, ids, k, n - 1); }
  }

  lemma {:induction false} CandidatesFailureSticks(c: Codec, log: seq<LogPayload>, k: nat)
    requires k <= |log| && Candidates(c, log[..k]).Err?
    ensures Candidates(c, log) == Candidates(c, log[..k])
  {
    CandidatesAppend(c, log[..k], log[k..]);
    assert log[..k] + log[k..] == log;
  }

  /** The scan's handling of one pointer. */
  method OfferRef(cfg: RewriteConfig, r: DataRef, best0: map<ChunkId, Entry>, order0: seq<ChunkId>,
          ghost items: seq<Entry>)
    returns (best: map<ChunkId, Entry>, order: seq<ChunkId>)
    requires Holds(cfg, items, best0, order0)
    ensures Holds(cfg, items + [Ref(r)], best, order)
  {
    best, order := best0, order0;
    HoldsStep(cfg, items, best, order, Ref(r));
    if r.chunkId !in best {
      order := order + [r.chunkId];
      best := best[r.chunkId := Ref(r)];
    } else {
      assert best[r.chunkId := best[r.chunkId]] == best;
      match best[r.chunkId] {
        case Ref(existing) =>
          var chosen := PreferDataRef(cfg, existing, r);
          if chosen.blobKey != existing.blobKey || chosen.offset != existing.offset {
            best := best[r.chunkId := Ref(chosen)];
          }
        case Inline(_) =>
          if IsRewrittenBlobKey(cfg, r.blobKey) {
            best := best[r.chunkId := Ref(r)];
          }
      }
    }
  }

  /** The scan's loop over one entry's pointers. */
  method OfferRefs(cfg: RewriteConfig, refs: seq<DataRef>, best0: map<ChunkId, Entry>, order0: seq<ChunkId>,
          ghost items: seq<Entry>)
    returns (best: map<ChunkId, Entry>, order: seq<ChunkId>)
    requires Holds(cfg, items, best0, order0)
    ensures Holds(cfg, items + RefEntries(refs), best, order)
  {
    hide Holds;
    best, order := best0, order0;
    assert items + RefEntries(refs[..0]) == items;
    for i := 0 to |refs|
      invariant Holds(cfg, items + RefEntries(refs[..i]), best, order)
    {
      best, order := OfferRef(cfg, refs[i], best, order, items + RefEntries(refs[..i]));
      assert refs[..i + 1][..i] == refs[..i];
      assert items + RefEntries(refs[..i + 1]) == (items + RefEntries(refs[..i])) + [Ref(refs[i])];
    }
    assert refs[..|refs|] == refs;
  }

  /** The scan's handling of an inline chunk. */
  method OfferInline(cfg: RewriteConfig, chunk: Chunk, best0: map<ChunkId, Entry>, order0: seq<ChunkId>,
          ghost items: seq<Entry>)
    returns (best: map<ChunkId, Entry>, order: seq<ChunkId>)
    requires Holds(cfg, items, best0, order0)
    ensures Holds(cfg, items + [Inline(chunk)], best, order)
  {
    best, order := best0, order0;
    HoldsStep(cfg, items, best, order, Inline(chunk));
    if chunk.chunkId !in best {
      order := order + [chunk.chunkId];
      best := best[chunk.chunkId := Inline(chunk)];
    } else if best[chunk.chunkId].Ref? && IsRewrittenBlobKey(cfg, best[chunk.chunkId].dataRef.blobKey) {
      assert best[chunk.chunkId := best[chunk.chunkId]] == best;
    } else {
      best := best[chunk.chunkId := Inline(chunk)];
    }
  }

  /** `scan_log_deduped`: the fold over `best` and `order` computes the closed form. */
  method ScanLogDeduped(c: Codec, cfg: RewriteConfig, objects: Objects, log: seq<LogPayload>)
    returns (out: Result<seq<ResolvedChunk>, RewriteError>)
    ensures out == Scan(c, cfg, objects, log)
  {
    var best: map<ChunkId, Entry> := map[];
    var order: seq<ChunkId> := [];
    ghost var items: seq<Entry> := [];
    for i := 0 to |log|
      invariant Candidates(c, log[..i]) == Ok(items)
      invariant Holds(cfg, items, best, order)
    {
      assert log[..i + 1][..i] == log[..i];
      match log[i] {
        case Undecodable(e) =>
          CandidatesFailureSticks(c, log, i + 1);
          return Err(RewriteError.Codec(e));
        case InlineChunk(bytes) =>
          var decoded := c.decode(bytes);
          if decoded.None? {
            CandidatesFailureSticks(c, log, i + 1);
            return Err(ChunkMalformed);
          }
          best, order := OfferInline(cfg, decoded.value, best, order, items);
          items := items + [Inline(decoded.value)];
        case DataRefEntry(r) =>
          best, order := OfferRefs(cfg, [r], best, order, items);
          assert RefEntries([r]) == [Ref(r)] by { assert [r][..0] == []; }
          items := items + [Ref(r)];
        case ReferenceBatch(refs) =>
          best, order := OfferRefs(cfg, refs, best, order, items);
          items := items + RefEntries(refs);
      }
    }
    assert log[..|log|] == log;
    out := ResolveBest(c, cfg, objects, items, best, order);
  }

  /** The scan's second loop: resolve each chosen entry, in order. */
  method ResolveBest(c: Codec, cfg: RewriteConfig, objects: Objects, ghost items: seq<Entry>,
          best0: map<ChunkId, Entry>, order: seq<ChunkId>)
    returns (out: Result<seq<ResolvedChunk>, RewriteError>)
    requires Holds(cfg, items, best0, order)
    ensures out == ResolveChosen(c, cfg, objects, items, order, |order|)
  {
    DistinctIdsFacts(items);
    hide Choose, ResolveEntry, DistinctIds;
    var best, done := best0, [];
    for i := 0 to |order|
      invariant ResolveChosen(c, cfg, objects, items, order, i) == Ok(done)
      invariant forall j :: i <= j < |order| ==> order[j] in best && best[order[j]] == best0[order[j]]
    {
      var entry := best[order[i]];
      best := best - {order[i]};
      var one := ResolveEntry(c, objects, entry);
      if one.Err? {
        ChosenFailureSticks(c, cfg, objects, items, order, i + 1, |order|);
        return Err(one.error);
      }
      done := done + [one.value];
    }
    out := Ok(done);
  }
}
