/** What deduplicated scans keep: under superseding appends, and under removal of an object. */
module ScanTheorems {
  import opened Prelude
  import opened BlobModel
  import opened BlobReader
  import opened BlobScan

  // Position by position. ------------------------------------------------------

  ghost predicate ChosenResolves(c: Codec, cfg: RewriteConfig, objects: Objects, items: seq<Entry>, id: ChunkId) {
    Choose(cfg, items, id).Some? && ResolveEntry(c, objects, Choose(cfg, items, id).value).Ok?
  }

  ghost predicate AllChosenResolve(c: Codec, cfg: RewriteConfig, objects: Objects, items: seq<Entry>) {
    forall i :: 0 <= i < |DistinctIds(items)| ==> ChosenResolves(c, cfg, objects, items, DistinctIds(items)[i])
  }

  lemma {:induction false} EntryKeepsId(c: Codec, objects: Objects, e: Entry)
    ensures ResolveEntry(c, objects, e).Ok? ==> ResolveEntry(c, objects, e).value.chunk.chunkId == e.Id()
  {
  }

  lemma {:induction false} ResolveChosenAt(c: Codec, cfg: RewriteConfig, objects: Objects, items: seq<Entry>,
          ids: seq<ChunkId>, n: nat)
    requires n <= |ids|
    ensures ResolveChosen(c, cfg, objects, items, ids, n).Ok? <==>
      forall i :: 0 <= i < n ==> ChosenResolves(c, cfg, objects, items, ids[i])
    ensures ResolveChosen(c, cfg, objects, items, ids, n).Ok? ==>
              |ResolveChosen(c, cfg, objects, items, ids, n).value| == n &&
              forall i :: 0 <= i < n ==>
                Ok(ResolveChosen(c, cfg, objects, items, ids, n).value[i]) ==
                    ResolveEntry(c, objects, Choose(cfg, items, ids[i]).value)
  {
    if n > 0 {
      hide Choose, ResolveEntry;
      ResolveChosenAt(c, cfg, objects, items, ids, n - 1);
    }
  }

  /** A scan succeeds iff every entry can be read and every chosen candidate
      resolves; it then lists exactly the chosen candidates, in order of first
      appearance, each under its own id. */
  lemma {:induction false} ScanIs(c: Codec, cfg: RewriteConfig, objects: Objects, log: seq<LogPayload>)
    ensures Scan(c, cfg, objects, log).Ok? <==>
            Candidates(c, log).Ok? && AllChosenResolve(c, cfg, objects, Candidates(c, log).value)
    ensures Scan(c, cfg, objects, log).Ok? ==>
            var items, out := Candidates(c, log).value, Scan(c, cfg, objects, log).value;
            |out| == |DistinctIds(items)| &&
            forall i :: 0 <= i < |out| ==>
              out[i].chunk.chunkId == DistinctIds(items)[i] &&
              Ok(out[i]) == ResolveEntry(c, objects, Choose(cfg, items, DistinctIds(items)[i]).value)
  {
    if Candidates(c, log).Ok? {
      var items := Candidates(c, log).value;
      var ids := DistinctIds(items);
      ResolveChosenAt(c, cfg, objects, items, ids, |ids|);
      if Scan(c, cfg, objects, log).Ok? {
        var out := Scan(c, cfg, objects, log).value;
        forall i | 0 <= i < |out| ensures out[i].chunk.chunkId == ids[i] {
          ChooseMentioned(cfg, items, ids[i]);
          EntryKeepsId(c, objects, Choose(cfg, items, ids[i]).value);
        }
      }
    }
  }

  // Why an entry cannot be read at all, if it cannot.
  function EntryFault(c: Codec, p: LogPayload): Option<RewriteError> {
    if p.Undecodable? then Some(RewriteError.Codec(p.error))
    else if p.InlineChunk? && c.decode(p.bytes).None? then Some(ChunkMalformed)
    else None
  }

  /** A scan cannot begin exactly when some entry cannot be read, and says why the first of
      them cannot. */
  lemma {:induction false} ReadsExactly(c: Codec, log: seq<LogPayload>)
    ensures Candidates(c, log).Ok? <==> forall i :: 0 <= i < |log| ==> EntryFault(c, log[i]).None?
    ensures Candidates(c, log).Err? ==>
      exists i :: 0 <= i < |log| && EntryFault(c, log[i]) == Some(Candidates(c, log).error) &&
        forall j :: 0 <= j < i ==> EntryFault(c, log[j]).None?
  {
    if log != [] {
      var n := |log| - 1;
      var front := log[..n];
      ReadsExactly(c, front);
      hide EntryFault;
      OneEntry(c, log[n]);
      if Candidates(c, front).Err? {
        var i :| 0 <= i < n && EntryFault(c, front[i]) == Some(Candidates(c, front).error) &&
            forall j :: 0 <= j < i ==> EntryFault(c, front[j]).None?;
        assert log[i] == front[i] && forall j :: 0 <= j < i ==> log[j] == front[j];
      } else {
        assert forall j :: 0 <= j < n ==> log[j] == front[j];
      }
    }
  }

  lemma {:induction false} OneEntry(c: Codec, p: LogPayload)
    ensures PayloadEntries(c, p).Err? <==> EntryFault(c, p).Some?
    ensures PayloadEntries(c, p).Err? ==> EntryFault(c, p) == Some(PayloadEntries(c, p).error)
  {
  }

  /** A pointer that breaks the format's own rules is reported as such, without a read; any
      other failure is the read's. */
  lemma {:induction false} EntryFailureSays(c: Codec, objects: Objects, r: DataRef, e: RewriteError)
    ensures ResolveEntry(c, objects, Ref(r)) == Err(e) <==>
      || (!r.Valid() && e == RewriteError.Codec(r.Fault().value))
      || (r.Valid() && ResolveOne(c, objects, r).Err? && e == Read(ResolveOne(c, objects, r).error))
  {
  }

  // What a reader is after: ids and records, whichever copy they came from.
  ghost predicate SameView(a: seq<ResolvedChunk>, b: seq<ResolvedChunk>) {
    |a| == |b| && PrefixView(a, b)
  }

  ghost predicate PrefixView(a: seq<ResolvedChunk>, b: seq<ResolvedChunk>) {
    |a| <= |b| && forall i :: 0 <= i < |a| ==> SameRecords(a[i], b[i])
  }

  ghost predicate SameRecords(a: ResolvedChunk, b: ResolvedChunk) {
    a.chunk.chunkId == b.chunk.chunkId && RecordsOf(a.chunk) == RecordsOf(b.chunk)
  }

  // Superseding appends. -------------------------------------------------------

  lemma {:induction false} ChooseAfterRefs(cfg: RewriteConfig, items: seq<Entry>, refs: seq<DataRef>, id: ChunkId)
    requires Choose(cfg, items, id).Some?
    ensures Choose(cfg, items + RefEntries(refs), id).Some?
    ensures var now := Choose(cfg, items + RefEntries(refs), id).value;
            now == Choose(cfg, items, id).value || (now.Ref? && now.dataRef in refs && now.dataRef.chunkId == id)
  {
    if refs == [] {
      assert items + RefEntries(refs) == items;
    } else {
      var n := |refs| - 1;
      ChooseAfterRefs(cfg, items, refs[..n], id);
      var before := items + RefEntries(refs[..n]);
      assert items + RefEntries(refs) == before + [Ref(refs[n])];
      ChooseStep(cfg, before, Ref(refs[n]), id);
      hide Choose;
      var was := Choose(cfg, before, id).value;
      assert Step(cfg, Some(was), Ref(refs[n])) == was || Step(cfg, Some(was), Ref(refs[n])) == Ref(refs[n]);
    }
  }

  // One log entry per superseding pointer, as the rewrite appends them.
  function SupersedingEntries(refs: seq<DataRef>): seq<LogPayload> {
    if refs == [] then [] else SupersedingEntries(refs[..|refs| - 1]) + [DataRefEntry(refs[|refs| - 1])]
  }

  lemma {:induction false} SupersedingCandidates(c: Codec, refs: seq<DataRef>)
    ensures Candidates(c, SupersedingEntries(refs)) == Ok(RefEntries(refs))
  {
    if refs != [] {
      SupersedingCandidates(c, refs[..|refs| - 1]);
      var log := SupersedingEntries(refs);
      assert log[..|log| - 1] == SupersedingEntries(refs[..|refs| - 1]);
    }
  }

  // A pointer whose chunk the reader already has, with the same records.
  ghost predicate Repeats(c: Codec, objects: Objects, out: seq<ResolvedChunk>, r: DataRef) {
    ResolveOne(c, objects, r).Ok? &&
    exists i :: 0 <= i < |out| && SameRecords(out[i], ResolveOne(c, objects, r).value)
  }

  lemma {:induction false} RepeatsAt(c: Codec, cfg: RewriteConfig, objects: Objects, log: seq<LogPayload>, r: DataRef,
          k: nat)
    requires Scan(c, cfg, objects, log).Ok? && Repeats(c, objects, Scan(c, cfg, objects, log).value, r)
    requires k < |Scan(c, cfg, objects, log).value| && Scan(c, cfg, objects, log).value[k].chunk.chunkId == r.chunkId
    ensures ResolveEntry(c, objects, Ref(r)).Ok?
    ensures SameRecords(Scan(c, cfg, objects, log).value[k], ResolveEntry(c, objects, Ref(r)).value)
  {
    var out := Scan(c, cfg, objects, log).value;
    ScanIs(c, cfg, objects, log);
    var ids := DistinctIds(Candidates(c, log).value);
    DistinctIdsFacts(Candidates(c, log).value);
    var i :| 0 <= i < |out| && SameRecords(out[i], ResolveOne(c, objects, r).value);
    assert ids[i] == ids[k];
  }

  lemma {:induction false} RepeatsMentioned(c: Codec, cfg: RewriteConfig, objects: Objects, log: seq<LogPayload>,
          r: DataRef)
    requires Scan(c, cfg, objects, log).Ok? && Repeats(c, objects, Scan(c, cfg, objects, log).value, r)
    ensures r.chunkId in DistinctIds(Candidates(c, log).value)
  {
    ScanIs(c, cfg, objects, log);
    var out := Scan(c, cfg, objects, log).value;
    var i :| 0 <= i < |out| && SameRecords(out[i], ResolveOne(c, objects, r).value);
    assert DistinctIds(Candidates(c, log).value)[i] == r.chunkId;
  }

  lemma {:induction false} RefEntriesAt(refs: seq<DataRef>)
    ensures |RefEntries(refs)| == |refs| && forall i :: 0 <= i < |refs| ==> RefEntries(refs)[i] == Ref(refs[i])
  {
    if refs != [] { RefEntriesAt(refs[..|refs| - 1]); }
  }

  /** Appending pointers that repeat chunks the reader already has changes
      neither the records it sees nor their order. The list is arbitrary, so this
      holds after every prefix of a rewrite's appends. */
  lemma {:induction false} RewriteIsInvisible(c: Codec, cfg: RewriteConfig, objects: Objects, log: seq<LogPayload>,
          refs: seq<DataRef>)
    requires Scan(c, cfg, objects, log).Ok?
    requires forall i :: 0 <= i < |refs| ==> Repeats(c, objects, Scan(c, cfg, objects, log).value, refs[i])
    ensures Scan(c, cfg, objects, log + SupersedingEntries(refs)).Ok?
    ensures SameView(Scan(c, cfg, objects, log).value, Scan(c, cfg, objects, log + SupersedingEntries(refs)).value)
  {
    var items, out := Candidates(c, log).value, Scan(c, cfg, objects, log).value;
    var later := items + RefEntries(refs);
    ScanIs(c, cfg, objects, log);
    SupersedingCandidates(c, refs);
    CandidatesAppend(c, log, SupersedingEntries(refs));
    RefEntriesAt(refs);
    forall i | 0 <= i < |refs| ensures RefEntries(refs)[i].Id() in DistinctIds(items) {
      RepeatsMentioned(c, cfg, objects, log, refs[i]);
    }
    DistinctIdsGrow(items, RefEntries(refs));
    ScanIs(c, cfg, objects, log + SupersedingEntries(refs));
    forall k | 0 <= k < |out|
      ensures ChosenResolves(c, cfg, objects, later, DistinctIds(items)[k])
      ensures SameRecords(out[k], ResolveEntry(c, objects, Choose(cfg, later, DistinctIds(items)[k]).value).value)
    {
      StillSeen(c, cfg, objects, log, refs, k);
    }
  }

  lemma {:induction false} StillSeen(c: Codec, cfg: RewriteConfig, objects: Objects, log: seq<LogPayload>,
          refs: seq<DataRef>, k: nat)
    requires Scan(c, cfg, objects, log).Ok? && k < |Scan(c, cfg, objects, log).value|
    requires forall i :: 0 <= i < |refs| ==> Repeats(c, objects, Scan(c, cfg, objects, log).value, refs[i])
    ensures Candidates(c, log).Ok? && k < |DistinctIds(Candidates(c, log).value)|
    ensures var items := Candidates(c, log).value; var id := DistinctIds(items)[k];
            ChosenResolves(c, cfg, objects, items + RefEntries(refs), id) &&
            SameRecords(Scan(c, cfg, objects, log).value[k],
                ResolveEntry(c, objects, Choose(cfg, items + RefEntries(refs), id).value).value)
  {
    ScanIs(c, cfg, objects, log);
    var items := Candidates(c, log).value;
    var id := DistinctIds(items)[k];
    assert ChosenResolves(c, cfg, objects, items, id);
    ChooseAfterRefs(cfg, items, refs, id);
    var now := Choose(cfg, items + RefEntries(refs), id).value;
    hide Choose, Scan, DistinctIds;
    if now != Choose(cfg, items, id).value {
      RepeatsAt(c, cfg, objects, log, now.dataRef, k);
    }
  }
}
