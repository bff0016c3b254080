/** What a deduplicated scan gives for each chunk, told from positions in the log alone. */
module ScanPositions {
  import opened Prelude
  import opened BlobModel
  import opened BlobReader
  import opened BlobScan
  import opened ScanTheorems

  // A pointer of the chunk stands at `k` among the log's pointers; a rewritten one does.
  predicate PointerAt(refs: seq<DataRef>, k: int, id: ChunkId) {
    0 <= k < |refs| && refs[k].chunkId == id
  }

  predicate RewrittenAt(cfg: RewriteConfig, refs: seq<DataRef>, k: int, id: ChunkId) {
    PointerAt(refs, k, id) && IsRewrittenBlobKey(cfg, refs[k].blobKey)
  }

  // Entry `n` of the log is the chunk itself.
  predicate InlineAt(c: Codec, log: seq<LogPayload>, n: int, id: ChunkId) {
    0 <= n < |log| && log[n].InlineChunk? && c.decode(log[n].bytes).Some? && c.decode(log[n].bytes).value.chunkId == id
  }

  ghost predicate FirstRewrittenAt(cfg: RewriteConfig, refs: seq<DataRef>, k: int, id: ChunkId) {
    RewrittenAt(cfg, refs, k, id) && forall j :: 0 <= j < k ==> !RewrittenAt(cfg, refs, j, id)
  }

  ghost predicate FirstPointerAt(refs: seq<DataRef>, k: int, id: ChunkId) {
    PointerAt(refs, k, id) && forall j :: 0 <= j < k ==> !PointerAt(refs, j, id)
  }

  ghost predicate LastInlineAt(c: Codec, log: seq<LogPayload>, n: int, id: ChunkId) {
    InlineAt(c, log, n, id) && forall m :: n < m < |log| ==> !InlineAt(c, log, m, id)
  }

  // Pointers among candidates. ------------------------------------------------------------------

  function Pointers(items: seq<Entry>): seq<DataRef> {
    if items == [] then [] else
      var last := items[|items| - 1];
      Pointers(items[..|items| - 1]) + (if last.Ref? then [last.dataRef] else [])
  }

  lemma {:induction false} PointersConcat(a: seq<Entry>, b: seq<Entry>)
    ensures Pointers(a + b) == Pointers(a) + Pointers(b)
    decreases |b|
  {
    if b == [] {
      assert a + b == a;
    } else {
      PointersConcat(a, b[..|b| - 1]);
      assert (a + b)[..|a + b| - 1] == a + b[..|b| - 1];
    }
  }

  lemma {:induction false} PointersOfRefs(refs: seq<DataRef>)
    ensures Pointers(RefEntries(refs)) == refs
  {
    if refs != [] {
      var n := |refs| - 1;
      PointersOfRefs(refs[..n]);
      assert RefEntries(refs)[..|RefEntries(refs)| - 1] == RefEntries(refs[..n]);
      assert refs == refs[..n] + [refs[n]];
    }
  }

  // The pointers among a log's candidates are the log's pointers.
  lemma {:induction false} CandidatePointers(c: Codec, log: seq<LogPayload>)
    requires Candidates(c, log).Ok?
    ensures Pointers(Candidates(c, log).value) == LogRefs(log)
  {
    if log != [] {
      var n := |log| - 1;
      CandidatePointers(c, log[..n]);
      var back := PayloadEntries(c, log[n]).value;
      PointersConcat(Candidates(c, log[..n]).value, back);
      PointersOfRefs(PayloadRefs(log[n]));
      if log[n].DataRefEntry? { assert back[..0] == []; }
      if log[n].InlineChunk? { assert back[..0] == []; }
    }
  }

  lemma {:induction false} FirstRewrittenByPosition(cfg: RewriteConfig, items: seq<Entry>, id: ChunkId, k: nat)
    requires FirstRewrittenAt(cfg, Pointers(items), k, id)
    ensures FirstRewritten(cfg, items, id) == Some(Pointers(items)[k])
  {
    var n := |items| - 1;
    var front, refs := items[..n], Pointers(items);
    if k < |Pointers(front)| {
      assert forall j :: 0 <= j <= k ==> Pointers(front)[j] == refs[j];
      forall j | 0 <= j < k ensures !RewrittenAt(cfg, Pointers(front), j, id) { assert !RewrittenAt(cfg, refs, j, id); }
      FirstRewrittenByPosition(cfg, front, id, k);
    } else {
      forall j | 0 <= j < |Pointers(front)| ensures !RewrittenAt(cfg, Pointers(front), j, id) {
        assert Pointers(front)[j] == refs[j] && !RewrittenAt(cfg, refs, j, id);
      }
      NoRewritten(cfg, front, id);
    }
  }

  lemma {:induction false} NoRewritten(cfg: RewriteConfig, items: seq<Entry>, id: ChunkId)
    requires forall j :: 0 <= j < |Pointers(items)| ==> !RewrittenAt(cfg, Pointers(items), j, id)
    ensures FirstRewritten(cfg, items, id) == None
  {
    if items != [] {
      var n := |items| - 1;
      var front, refs := items[..n], Pointers(items);
      forall j | 0 <= j < |Pointers(front)| ensures !RewrittenAt(cfg, Pointers(front), j, id) {
        assert Pointers(front)[j] == refs[j] && !RewrittenAt(cfg, refs, j, id);
      }
      NoRewritten(cfg, front, id);
      if items[n].Ref? { assert !RewrittenAt(cfg, refs, |refs| - 1, id); }
    }
  }

  lemma {:induction false} FirstPointerByPosition(items: seq<Entry>, id: ChunkId, k: nat)
    requires FirstPointerAt(Pointers(items), k, id)
    ensures FirstRef(items, id) == Some(Pointers(items)[k])
  {
    var n := |items| - 1;
    var front, refs := items[..n], Pointers(items);
    if k < |Pointers(front)| {
      assert forall j :: 0 <= j <= k ==> Pointers(front)[j] == refs[j];
      forall j | 0 <= j < k ensures !PointerAt(Pointers(front), j, id) { assert !PointerAt(refs, j, id); }
      FirstPointerByPosition(front, id, k);
    } else {
      forall j | 0 <= j < |Pointers(front)| ensures !PointerAt(Pointers(front), j, id) {
        assert Pointers(front)[j] == refs[j] && !PointerAt(refs, j, id);
      }
      NoPointer(front, id);
    }
  }

  lemma {:induction false} NoPointer(items: seq<Entry>, id: ChunkId)
    requires forall j :: 0 <= j < |Pointers(items)| ==> !PointerAt(Pointers(items), j, id)
    ensures FirstRef(items, id) == None
  {
    if items != [] {
      var n := |items| - 1;
      var front, refs := items[..n], Pointers(items);
      forall j | 0 <= j < |Pointers(front)| ensures !PointerAt(Pointers(front), j, id) {
        assert Pointers(front)[j] == refs[j] && !PointerAt(refs, j, id);
      }
      NoPointer(front, id);
      if items[n].Ref? { assert !PointerAt(refs, |refs| - 1, id); }
    }
  }

  // Inline chunks among candidates. ---------------------------------------------------------------

  lemma {:induction false} LastInlineOfRefs(items: seq<Entry>, refs: seq<DataRef>, id: ChunkId)
    ensures LastInline(items + RefEntries(refs), id) == LastInline(items, id)
  {
    if refs == [] {
      assert items + RefEntries(refs) == items;
    } else {
      var n := |refs| - 1;
      LastInlineOfRefs(items, refs[..n], id);
      var all := items + RefEntries(refs);
      assert all[..|all| - 1] == items + RefEntries(refs[..n]);
    }
  }

  // One more entry: the chunk itself, pointers, or nothing that can be read.
  lemma {:induction false} LastInlineSnoc(c: Codec, log: seq<LogPayload>, id: ChunkId)
    requires log != [] && Candidates(c, log).Ok?
    ensures Candidates(c, log[..|log| - 1]).Ok?
    ensures LastInline(Candidates(c, log).value, id) ==
      if InlineAt(c, log, |log| - 1, id) then Some(c.decode(log[|log| - 1].bytes).value)
      else LastInline(Candidates(c, log[..|log| - 1]).value, id)
  {
    var n := |log| - 1;
    var front, back := Candidates(c, log[..n]).value, PayloadEntries(c, log[n]).value;
    LastInlineOfRefs(front, PayloadRefs(log[n]), id);
    if log[n].DataRefEntry? { assert [DataRefEntry(log[n].dataRef)][..0] == []; OneRef(log[n].dataRef); }
    if log[n].InlineChunk? { assert (front + back)[..|front|] == front; }
  }

  lemma {:induction false} OneRef(r: DataRef)
    ensures RefEntries([r]) == [Ref(r)]
  {
    assert [r][..0] == [];
  }

  lemma {:induction false} LastInlineByPosition(c: Codec, log: seq<LogPayload>, id: ChunkId, n: nat)
    requires Candidates(c, log).Ok? && LastInlineAt(c, log, n, id)
    ensures LastInline(Candidates(c, log).value, id) == Some(c.decode(log[n].bytes).value)
  {
    LastInlineSnoc(c, log, id);
    hide LastInline, Candidates;
    var m := |log| - 1;
    if n < m {
      assert !InlineAt(c, log, m, id);
      forall j | n < j < m ensures !InlineAt(c, log[..m], j, id) { assert !InlineAt(c, log, j, id); }
      LastInlineByPosition(c, log[..m], id, n);
    }
  }

  lemma {:induction false} NoInline(c: Codec, log: seq<LogPayload>, id: ChunkId)
    requires Candidates(c, log).Ok? && forall n :: 0 <= n < |log| ==> !InlineAt(c, log, n, id)
    ensures LastInline(Candidates(c, log).value, id) == None
  {
    if log != [] {
      LastInlineSnoc(c, log, id);
      var m := |log| - 1;
      assert !InlineAt(c, log, m, id);
      forall j | 0 <= j < m ensures !InlineAt(c, log[..m], j, id) { assert !InlineAt(c, log, j, id); }
      NoInline(c, log[..m], id);
    }
  }

  // The scan. --------------------------------------------------------------------------------------

  /** What the scan gives for a chunk: the first rewritten pointer of the log; without any, the
      last copy of the chunk that stands in the log itself; without either, the first pointer. */
  ghost predicate Preferred(c: Codec, cfg: RewriteConfig, log: seq<LogPayload>, one: ResolvedChunk) {
    var id, refs := one.chunk.chunkId, LogRefs(log);
    if exists k :: RewrittenAt(cfg, refs, k, id) then
      exists k :: FirstRewrittenAt(cfg, refs, k, id) && one.dataRef == Some(refs[k])
    else if exists n :: InlineAt(c, log, n, id) then
      && one.dataRef == None
      && exists n :: LastInlineAt(c, log, n, id) && one.chunk == c.decode(log[n].bytes).value
    else
      exists k :: FirstPointerAt(refs, k, id) && one.dataRef == Some(refs[k])
  }

  lemma {:induction false} LeastRewritten(cfg: RewriteConfig, refs: seq<DataRef>, k: nat, id: ChunkId) returns (m: nat)
    requires RewrittenAt(cfg, refs, k, id)
    ensures FirstRewrittenAt(cfg, refs, m, id)
    decreases k
  {
    if j :| 0 <= j < k && RewrittenAt(cfg, refs, j, id) { m := LeastRewritten(cfg, refs, j, id); } else { m := k; }
  }

  lemma {:induction false} LeastPointer(refs: seq<DataRef>, k: nat, id: ChunkId) returns (m: nat)
    requires PointerAt(refs, k, id)
    ensures FirstPointerAt(refs, m, id)
    decreases k
  {
    if j :| 0 <= j < k && PointerAt(refs, j, id) { m := LeastPointer(refs, j, id); } else { m := k; }
  }

  lemma {:induction false} GreatestInline(c: Codec, log: seq<LogPayload>, n: nat, id: ChunkId) returns (m: nat)
    requires InlineAt(c, log, n, id)
    ensures LastInlineAt(c, log, m, id)
    decreases |log| - n
  {
    if j :| n < j < |log| && InlineAt(c, log, j, id) { m := GreatestInline(c, log, j, id); } else { m := n; }
  }

  lemma {:induction false} ResolvedFrom(c: Codec, objects: Objects, e: Entry)
    requires ResolveEntry(c, objects, e).Ok?
    ensures var one := ResolveEntry(c, objects, e).value;
      one.dataRef == (if e.Ref? then Some(e.dataRef) else None) && (e.Inline? ==> one.chunk == e.chunk)
  {
  }

  lemma {:induction false} ChosenIsPreferred(c: Codec, cfg: RewriteConfig, objects: Objects, log: seq<LogPayload>,
          one: ResolvedChunk)
    requires Candidates(c, log).Ok?
    requires var chosen := Choose(cfg, Candidates(c, log).value, one.chunk.chunkId);
      chosen.Some? && ResolveEntry(c, objects, chosen.value) == Ok(one)
    ensures Preferred(c, cfg, log, one)
  {
    hide Candidates, FirstRewritten, LastInline, FirstRef, ResolveEntry, RewrittenAt, InlineAt, PointerAt, LogRefs;
    hide FirstRewrittenAt, LastInlineAt, FirstPointerAt, Pointers;
    var id, items, refs := one.chunk.chunkId, Candidates(c, log).value, LogRefs(log);
    CandidatePointers(c, log);
    ResolvedFrom(c, objects, Choose(cfg, items, id).value);
    if k :| RewrittenAt(cfg, refs, k, id) {
      RewrittenIn(cfg, refs, k, id);
      var m := LeastRewritten(cfg, refs, k, id);
      FirstRewrittenByPosition(cfg, items, id, m);
      assert FirstRewrittenAt(cfg, refs, m, id);
    } else {
      NoRewritten(cfg, items, id);
      if n :| InlineAt(c, log, n, id) {
        InlineIn(c, log, n, id);
        var m := GreatestInline(c, log, n, id);
        LastInlineByPosition(c, log, id, m);
        assert LastInlineAt(c, log, m, id);
      } else {
        NoInline(c, log, id);
        assert FirstRef(items, id).Some?;
        SomePointer(c, cfg, log, items, id);
      }
    }
  }

  lemma {:induction false} RewrittenIn(cfg: RewriteConfig, refs: seq<DataRef>, k: int, id: ChunkId)
    requires RewrittenAt(cfg, refs, k, id)
    ensures 0 <= k < |refs|
  {
  }

  lemma {:induction false} InlineIn(c: Codec, log: seq<LogPayload>, n: int, id: ChunkId)
    requires InlineAt(c, log, n, id)
    ensures 0 <= n < |log|
  {
  }

  lemma {:induction false} SomePointer(c: Codec, cfg: RewriteConfig, log: seq<LogPayload>, items: seq<Entry>,
          id: ChunkId)
    requires Pointers(items) == LogRefs(log) && FirstRef(items, id).Some?
    ensures exists k :: FirstPointerAt(LogRefs(log), k, id) && FirstRef(items, id) == Some(LogRefs(log)[k])
  {
    hide Pointers, LogRefs, FirstRef;
    if k :| 0 <= k < |LogRefs(log)| && PointerAt(LogRefs(log), k, id) {
      var m := LeastPointer(LogRefs(log), k, id);
      FirstPointerByPosition(items, id, m);
    } else {
      NoPointer(items, id);
    }
  }

  /** Every chunk a scan shows is the preferred one of its id. */
  lemma {:induction false} ScanPrefers(c: Codec, cfg: RewriteConfig, objects: Objects, log: seq<LogPayload>, i: nat)
    requires Scan(c, cfg, objects, log).Ok? && i < |Scan(c, cfg, objects, log).value|
    ensures Preferred(c, cfg, log, Scan(c, cfg, objects, log).value[i])
  {
    ScanIs(c, cfg, objects, log);
    hide Scan, Candidates, Choose, ResolveEntry, Preferred;
    var items, one := Candidates(c, log).value, Scan(c, cfg, objects, log).value[i];
    assert ChosenResolves(c, cfg, objects, items, DistinctIds(items)[i]);
    ChosenIsPreferred(c, cfg, objects, log, one);
  }
}
