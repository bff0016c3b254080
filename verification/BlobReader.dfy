/** Resolving log payloads into chunks: one pointer at a time, and coalesced. */
module BlobReader {
  import opened Prelude
  import opened BlobModel

  datatype ReadError =
    | Payload(error: DataRefError)
    | ChunkUndecodable
    | ObjectStoreGet
    | ShortRead(got: nat, expected: nat)
    | ChunkIdMismatch

  datatype ResolvedChunk = ResolvedChunk(chunk: Chunk, dataRef: Option<DataRef>)

  // Both digests of a pointer match the bytes the store holds.
  predicate Backed(c: Codec, objects: Objects, r: DataRef) {
    r.Valid() && r.blobKey in objects &&
    c.digest(objects[r.blobKey]) == r.blobDigest &&
    r.End() <= |objects[r.blobKey]| &&
    c.digest(objects[r.blobKey][r.offset..r.End()]) == r.chunkDigest
  }

  function Slice(objects: Objects, r: DataRef): Bytes
    requires r.blobKey in objects && r.End() <= |objects[r.blobKey]|
  {
    objects[r.blobKey][r.offset..r.End()]
  }

  /** Fetches and verifies the whole object before cutting out the range. */
  function FetchDataRef(c: Codec, objects: Objects, r: DataRef): (out: Result<Bytes, ReadError>)
    ensures out.Ok? <==> Backed(c, objects, r)
    ensures out.Ok? ==> out.value == Slice(objects, r) && |out.value| == r.length
  {
    if r.Fault().Some? then Err(Payload(r.Fault().value))
    else if r.blobKey !in objects then Err(ObjectStoreGet)
    else
      var blob := objects[r.blobKey];
      if c.digest(blob) != r.blobDigest then Err(Payload(BlobDigestMismatch))
      else if r.End() > |blob| then Err(ShortRead(Max0(|blob| - r.offset), r.length))
      else if c.digest(blob[r.offset..r.End()]) != r.chunkDigest then Err(Payload(ChunkDigestMismatch))
      else Ok(blob[r.offset..r.End()])
  }

  // What a pointer resolves to is the chunk it names, nothing else.
  predicate Resolves(c: Codec, objects: Objects, r: DataRef, chunk: Chunk) {
    Backed(c, objects, r) && c.decode(Slice(objects, r)) == Some(chunk) && chunk.chunkId == r.chunkId
  }

  function ResolveOne(c: Codec, objects: Objects, r: DataRef): (out: Result<ResolvedChunk, ReadError>)
    ensures out.Ok? ==> out.value.dataRef == Some(r) && Resolves(c, objects, r, out.value.chunk)
    ensures forall chunk :: Resolves(c, objects, r, chunk) ==> out == Ok(ResolvedChunk(chunk, Some(r)))
  {
    match FetchDataRef(c, objects, r)
    case Err(e) => Err(e)
    case Ok(bytes) =>
      match c.decode(bytes)
      case None => Err(ChunkUndecodable)
      case Some(chunk) =>
        if chunk.chunkId != r.chunkId then Err(ChunkIdMismatch) else Ok(ResolvedChunk(chunk, Some(r)))
  }

  /** What each failure of a pointer is evidence of: a missing object, an object that is not
      the one pointed into, one too short, a slice that is not the chunk pointed at, bytes
      that are no chunk, or a chunk of another id. */
  lemma {:induction false} FailureSays(c: Codec, objects: Objects, r: DataRef)
    requires r.Valid() && ResolveOne(c, objects, r).Err?
    ensures var e := ResolveOne(c, objects, r).error;
      && (e == ObjectStoreGet <==> r.blobKey !in objects)
      && (r.blobKey in objects ==>
            var blob := objects[r.blobKey];
            && (e == Payload(BlobDigestMismatch) <==> c.digest(blob) != r.blobDigest)
            && (e.ShortRead? <==> c.digest(blob) == r.blobDigest && r.End() > |blob|)
            && (e == Payload(ChunkDigestMismatch) <==>
                  c.digest(blob) == r.blobDigest && r.End() <= |blob| && c.digest(Slice(objects, r)) != r.chunkDigest)
            && (e == ChunkUndecodable <==> Backed(c, objects, r) && c.decode(Slice(objects, r)).None?)
            && (e == ChunkIdMismatch <==> Backed(c, objects, r) && c.decode(Slice(objects, r)).Some?))
  {
  }

  // The first `n` pointers resolved one at a time, left to right, stopping at the first failure.
  function ResolveAll(c: Codec, objects: Objects, refs: seq<DataRef>, n: nat): Result<seq<ResolvedChunk>, ReadError>
    requires n <= |refs|
  {
    if n == 0 then Ok([]) else
      match ResolveAll(c, objects, refs, n - 1)
      case Err(e) => Err(e)
      case Ok(front) =>
        match ResolveOne(c, objects, refs[n - 1])
        case Err(e) => Err(e)
        case Ok(one) => Ok(front + [one])
  }

  lemma {:induction false} FailureSticks(c: Codec, objects: Objects, refs: seq<DataRef>, k: nat, n: nat)
    requires k <= n <= |refs| && ResolveAll(c, objects, refs, k).Err?
    ensures ResolveAll(c, objects, refs, n) == ResolveAll(c, objects, refs, k)
  {
    if k < n { FailureSticks(c, objects, refs, k, n - 1); }
  }

  // Resolving a list succeeds exactly when every pointer resolves alone, and gives those results.
  lemma {:induction false} ResolveAllIsEach(c: Codec, objects: Objects, refs: seq<DataRef>, n: nat)
    requires n <= |refs|
    ensures ResolveAll(c, objects, refs, n).Ok? <==> forall i :: 0 <= i < n ==> ResolveOne(c, objects, refs[i]).Ok?
    ensures ResolveAll(c, objects, refs, n).Ok? ==>
              |ResolveAll(c, objects, refs, n).value| == n &&
              forall i :: 0 <= i < n ==> ResolveOne(c, objects, refs[i]) == Ok(ResolveAll(c, objects, refs, n).value[i])
  {
    if n > 0 { ResolveAllIsEach(c, objects, refs, n - 1); }
  }

  lemma {:induction false} ResolveSingle(c: Codec, objects: Objects, r: DataRef)
    ensures ResolveAll(c, objects, [r], 1) == if ResolveOne(c, objects, r).Err?
      then Err(ResolveOne(c, objects, r).error) else Ok([ResolveOne(c, objects, r).value])
  {
    assert ResolveAll(c, objects, [r], 0) == Ok([]);
    if ResolveOne(c, objects, r).Ok? {
      assert [] + [ResolveOne(c, objects, r).value] == [ResolveOne(c, objects, r).value];
    }
  }

  // What a log entry resolves to.
  function ResolvePayload(c: Codec, objects: Objects, p: LogPayload): Result<seq<ResolvedChunk>, ReadError> {
    match p
    case Undecodable(e) => Err(Payload(e))
    case InlineChunk(bytes) =>
      if c.decode(bytes).None? then Err(ChunkUndecodable) else Ok([ResolvedChunk(c.decode(bytes).value, None)])
    case _ => ResolveAll(c, objects, PayloadRefs(p), |PayloadRefs(p)|)
  }

  /** One log entry resolved into the chunks it names; a ReferenceBatch is the
      list of its members resolved one at a time. */
  method ResolveLogPayload(c: Codec, objects: Objects, p: LogPayload)
    returns (out: Result<seq<ResolvedChunk>, ReadError>)
    ensures out == ResolvePayload(c, objects, p)
  {
    match p {
      case Undecodable(e) => out := Err(Payload(e));
      case InlineChunk(bytes) =>
        match c.decode(bytes) {
          case None => out := Err(ChunkUndecodable);
          case Some(chunk) => out := Ok([ResolvedChunk(chunk, None)]);
        }
      case DataRefEntry(r) =>
        var one := ResolveOne(c, objects, r);
        ResolveSingle(c, objects, r);
        out := if one.Err? then Err(one.error) else Ok([one.value]);
      case ReferenceBatch(refs) =>
        var done := [];
        for i := 0 to |refs|
          invariant ResolveAll(c, objects, refs, i) == Ok(done)
        {
          var one := ResolveOne(c, objects, refs[i]);
          if one.Err? {
            FailureSticks(c, objects, refs, i + 1, |refs|);
            return Err(one.error);
          }
          done := done + [one.value];
        }
        out := Ok(done);
    }
  }

  datatype CoalescedGet = CoalescedGet(blobKey: Key, start: nat, end: nat, count: nat)

  // `b` continues the byte range of `a` in the same object.
  predicate Joins(a: DataRef, b: DataRef) {
    b.blobKey == a.blobKey && b.offset == a.End()
  }

  // Pointer `i` continues its predecessor.
  predicate Joined(refs: seq<DataRef>, i: nat) {
    0 < i < |refs| && Joins(refs[i - 1], refs[i])
  }

  // One GET reads exactly the bytes of the pointers lo, lo + 1, .., which are contiguous in one object.
  ghost predicate CoversRun(get: CoalescedGet, refs: seq<DataRef>, lo: nat) {
    1 <= get.count && lo + get.count <= |refs| &&
    get.start == refs[lo].offset && get.end == refs[lo + get.count - 1].End() &&
    (forall i :: lo <= i < lo + get.count ==> refs[i].blobKey == get.blobKey) &&
    (forall i :: lo < i < lo + get.count ==> Joined(refs, i))
  }

  // The first `k` GETs serve exactly the first `n` pointers, in order, each GET a contiguous run.
  ghost predicate Serves(gets: seq<CoalescedGet>, k: nat, refs: seq<DataRef>, n: nat)
    requires k <= |gets|
  {
    if k == 0 then n == 0 else
      gets[k - 1].count <= n <= |refs| &&
      CoversRun(gets[k - 1], refs, n - gets[k - 1].count) && Serves(gets, k - 1, refs, n - gets[k - 1].count)
  }

  // An order-preserving cover of the pointers by contiguous GETs.
  ghost predicate IsCover(gets: seq<CoalescedGet>, refs: seq<DataRef>) {
    Serves(gets, |gets|, refs, |refs|)
  }

  ghost predicate BreakAt(refs: seq<DataRef>, i: nat) {
    0 < i < |refs| && !Joined(refs, i)
  }

  // No two neighbouring GETs among the first `k` could have been one.
  ghost predicate Unmergeable(gets: seq<CoalescedGet>, k: nat, refs: seq<DataRef>, n: nat)
    requires k <= |gets|
  {
    k > 1 ==> gets[k - 1].count <= n && BreakAt(refs, n - gets[k - 1].count) &&
              Unmergeable(gets, k - 1, refs, n - gets[k - 1].count)
  }

  ghost predicate IsPlan(gets: seq<CoalescedGet>, refs: seq<DataRef>) {
    IsCover(gets, refs) && Unmergeable(gets, |gets|, refs, |refs|)
  }

  // The validation error of the first malformed pointer, if there is one.
  function FirstFault(refs: seq<DataRef>): Option<DataRefError> {
    if refs == [] then None
    else if refs[0].Fault().Some? then refs[0].Fault()
    else FirstFault(refs[1..])
  }

  lemma {:induction false} FirstFaultAt(refs: seq<DataRef>, i: nat)
    requires i < |refs| && (forall j :: 0 <= j < i ==> refs[j].Valid()) && refs[i].Fault().Some?
    ensures FirstFault(refs) == refs[i].Fault()
  {
    if i > 0 { FirstFaultAt(refs[1..], i - 1); }
  }

  lemma {:induction false} NoFault(refs: seq<DataRef>)
    ensures FirstFault(refs).None? <==> forall j :: 0 <= j < |refs| ==> refs[j].Valid()
  {
    if refs != [] {
      NoFault(refs[1..]);
      assert forall j :: 1 <= j < |refs| ==> refs[j] == refs[1..][j - 1];
    }
  }

  lemma {:induction false} PlanSnoc(gets: seq<CoalescedGet>, get: CoalescedGet, refs: seq<DataRef>, n: nat)
    requires Serves(gets, |gets|, refs, n) && Unmergeable(gets, |gets|, refs, n)
    requires CoversRun(get, refs, n) && (gets != [] ==> BreakAt(refs, n))
    ensures Serves(gets + [get], |gets| + 1, refs, n + get.count)
    ensures Unmergeable(gets + [get], |gets| + 1, refs, n + get.count)
  {
    ServesSame(gets, get, |gets|, refs, n);
  }

  lemma {:induction false} ServesSame(gets: seq<CoalescedGet>, get: CoalescedGet, k: nat, refs: seq<DataRef>, n: nat)
    requires k <= |gets| && Serves(gets, k, refs, n) && Unmergeable(gets, k, refs, n)
    ensures Serves(gets + [get], k, refs, n) && Unmergeable(gets + [get], k, refs, n)
  {
    if k > 0 { ServesSame(gets, get, k - 1, refs, n - gets[k - 1].count); }
  }

  lemma {:induction false} RunGrows(get: CoalescedGet, refs: seq<DataRef>, lo: nat)
    requires CoversRun(get, refs, lo) && lo + get.count < |refs|
    ensures refs[lo + get.count].blobKey == get.blobKey && refs[lo + get.count].offset == get.end ==>
              CoversRun(get.(end := refs[lo + get.count].End(), count := get.count + 1), refs, lo)
    ensures !(refs[lo + get.count].blobKey == get.blobKey && refs[lo + get.count].offset == get.end) ==>
              BreakAt(refs, lo + get.count)
  {
  }

  ghost predicate ValidTo(refs: seq<DataRef>, n: nat) {
    n <= |refs| && forall j :: 0 <= j < n ==> refs[j].Fault().None?
  }

  // The longest contiguous run from `index`: the planner's inner loop.
  method GrowRun(refs: seq<DataRef>, index: nat) returns (r: Result<CoalescedGet, DataRefError>)
    requires index < |refs| && ValidTo(refs, index)
    ensures r.Err? ==> FirstFault(refs) == Some(r.error)
    ensures r.Ok? ==> CoversRun(r.value, refs, index) && ValidTo(refs, index + r.value.count)
    ensures r.Ok? ==> index + r.value.count < |refs| ==> BreakAt(refs, index + r.value.count)
  {
    var first := refs[index];
    if first.Fault().Some? {
      FirstFaultAt(refs, index);
      return Err(first.Fault().value);
    }
    var end := first.End();
    var count := 1;
    while index + count < |refs|
      invariant 1 <= count && index + count <= |refs| && ValidTo(refs, index + count)
      invariant CoversRun(CoalescedGet(first.blobKey, first.offset, end, count), refs, index)
    {
      var next := refs[index + count];
      if next.Fault().Some? {
        FirstFaultAt(refs, index + count);
        return Err(next.Fault().value);
      }
      RunGrows(CoalescedGet(first.blobKey, first.offset, end, count), refs, index);
      if next.blobKey != first.blobKey || next.offset != end {
        break;
      }
      end := next.End();
      count := count + 1;
    }
    r := Ok(CoalescedGet(first.blobKey, first.offset, end, count));
  }

  /** The planner validates every pointer and reports the first malformed one;
      otherwise its GETs are a cover no two neighbours of which could be merged. */
  method PlanCoalescedGets(refs: seq<DataRef>) returns (r: Result<seq<CoalescedGet>, DataRefError>)
    ensures r.Err? <==> FirstFault(refs).Some?
    ensures r.Err? ==> FirstFault(refs) == Some(r.error)
    ensures r.Ok? ==> IsPlan(r.value, refs)
  {
    var plan := [];
    var index := 0;
    while index < |refs|
      invariant 0 <= index <= |refs| && ValidTo(refs, index)
      invariant Serves(plan, |plan|, refs, index) && Unmergeable(plan, |plan|, refs, index)
      invariant plan != [] && index < |refs| ==> BreakAt(refs, index)
    {
      var run := GrowRun(refs, index);
      if run.Err? {
        return Err(run.error);
      }
      PlanSnoc(plan, run.value, refs, index);
      plan := plan + [run.value];
      index := index + run.value.count;
    }
    NoFault(refs);
    r := Ok(plan);
  }

  // Breaks at positions below `n`.
  ghost function Breaks(refs: seq<DataRef>, n: nat): nat {
    if n == 0 then 0 else Breaks(refs, n - 1) + (if BreakAt(refs, n - 1) then 1 else 0)
  }

  lemma {:induction false} RunBreaks(get: CoalescedGet, refs: seq<DataRef>, lo: nat, n: nat)
    requires CoversRun(get, refs, lo) && 1 <= n <= get.count
    ensures Breaks(refs, lo + n) == Breaks(refs, lo) + (if BreakAt(refs, lo) then 1 else 0)
  {
    if n > 1 {
      RunBreaks(get, refs, lo, n - 1);
      assert Joined(refs, lo + n - 1);
    }
  }

  lemma {:induction false} CoverSize(gets: seq<CoalescedGet>, k: nat, refs: seq<DataRef>, n: nat)
    requires 0 < k <= |gets| && Serves(gets, k, refs, n)
    ensures k >= 1 + Breaks(refs, n)
    ensures Unmergeable(gets, k, refs, n) ==> k == 1 + Breaks(refs, n)
  {
    var get := gets[k - 1];
    if k > 1 { CoverSize(gets, k - 1, refs, n - get.count); }
    RunBreaks(get, refs, n - get.count, get.count);
  }

  /** No order-preserving cover by contiguous GETs uses fewer GETs. */
  lemma {:induction false} PlanIsMinimal(gets: seq<CoalescedGet>, other: seq<CoalescedGet>, refs: seq<DataRef>)
    requires IsPlan(gets, refs) && IsCover(other, refs)
    ensures |gets| <= |other|
  {
    if gets != [] {
      CoverSize(gets, |gets|, refs, |refs|);
      CoverSize(other, |other|, refs, |refs|);
    }
  }

  lemma {:induction false} ServesUnique(gets: seq<CoalescedGet>, k: nat, refs: seq<DataRef>, m: nat, n: nat)
    requires k <= |gets| && Serves(gets, k, refs, m) && Serves(gets, k, refs, n)
    ensures m == n
  {
    if k > 0 { ServesUnique(gets, k - 1, refs, m - gets[k - 1].count, n - gets[k - 1].count); }
  }

  // After `g` GETs serve `lo` pointers, the next GET serves the run starting there.
  lemma {:induction false} NextRun(gets: seq<CoalescedGet>, k: nat, refs: seq<DataRef>, n: nat, g: nat, lo: nat)
    requires g < k <= |gets| && Serves(gets, k, refs, n) && Serves(gets, g, refs, lo)
    ensures CoversRun(gets[g], refs, lo) && Serves(gets, g + 1, refs, lo + gets[g].count)
  {
    if k == g + 1 {
      ServesUnique(gets, g, refs, n - gets[g].count, lo);
    } else {
      NextRun(gets, k - 1, refs, n - gets[k - 1].count, g, lo);
    }
  }

  lemma {:induction false} InRun(c: Codec, objects: Objects, refs: seq<DataRef>, get: CoalescedGet, lo: nat, i: nat)
    requires CoversRun(get, refs, lo) && ValidTo(refs, |refs|) && lo <= i < lo + get.count
    ensures lo + get.count <= |refs|
    ensures get.blobKey in objects ==>
      ResolveInBlob(c, objects[get.blobKey], refs[i]) == ResolveOne(c, objects, refs[i])
    ensures get.blobKey !in objects ==> ResolveOne(c, objects, refs[i]) == Err(ObjectStoreGet)
  {
    assert refs[i].blobKey == get.blobKey;
  }

  // The pointers one GET serves, resolved out of the object it returned.
  method ResolveRun(c: Codec, objects: Objects, refs: seq<DataRef>, get: CoalescedGet, lo: nat,
          before: seq<ResolvedChunk>)
    returns (out: Result<seq<ResolvedChunk>, ReadError>)
    requires CoversRun(get, refs, lo) && ValidTo(refs, |refs|)
    requires ResolveAll(c, objects, refs, lo) == Ok(before)
    ensures out.Err? ==> ResolveAll(c, objects, refs, |refs|) == out
    ensures out.Ok? ==> ResolveAll(c, objects, refs, lo + get.count) == out
  {
    InRun(c, objects, refs, get, lo, lo);
    hide CoversRun, ValidTo, ResolveOne, ResolveInBlob;
    if get.blobKey !in objects {
      FailureSticks(c, objects, refs, lo + 1, |refs|);
      return Err(ObjectStoreGet);
    }
    var blob := objects[get.blobKey];
    var done, cursor := before, lo;
    for k := 0 to get.count
      invariant cursor == lo + k
      invariant ResolveAll(c, objects, refs, cursor) == Ok(done)
    {
      InRun(c, objects, refs, get, lo, cursor);
      var one := ResolveInBlob(c, blob, refs[cursor]);
      if one.Err? {
        FailureSticks(c, objects, refs, cursor + 1, |refs|);
        return Err(one.error);
      }
      done := done + [one.value];
      cursor := cursor + 1;
    }
    out := Ok(done);
  }

  /** Coalesced reading is the one-at-a-time reading, errors included, except
      that every pointer is validated before the first GET. */
  method ResolveDataRefsCoalesced(c: Codec, objects: Objects, refs: seq<DataRef>)
    returns (out: Result<seq<ResolvedChunk>, ReadError>)
    ensures out == CoalescedRead(c, objects, refs)
  {
    hide CoversRun, FirstFault, ResolveOne;
    var planned := PlanCoalescedGets(refs);
    if planned.Err? {
      return Err(Payload(planned.error));
    }
    NoFault(refs);
    var plan := planned.value;
    var done := [];
    var cursor: nat := 0;
    for g := 0 to |plan|
      invariant cursor <= |refs| && Serves(plan, g, refs, cursor)
      invariant ResolveAll(c, objects, refs, cursor) == Ok(done)
    {
      NextRun(plan, |plan|, refs, |refs|, g, cursor);
      var run := ResolveRun(c, objects, refs, plan[g], cursor, done);
      if run.Err? {
        return run;
      }
      done := run.value;
      cursor := cursor + plan[g].count;
    }
    ServesUnique(plan, |plan|, refs, cursor, |refs|);
    out := Ok(done);
  }

  /** What a coalesced read returns, as a function of the store and the list. */
  function CoalescedRead(c: Codec, objects: Objects, refs: seq<DataRef>): Result<seq<ResolvedChunk>, ReadError> {
    match FirstFault(refs)
    case Some(e) => Err(Payload(e))
    case None => ResolveAll(c, objects, refs, |refs|)
  }

  /** It succeeds iff every pointer resolves alone, and then with the same list. */
  lemma {:induction false} CoalescedAgrees(c: Codec, objects: Objects, refs: seq<DataRef>)
    ensures CoalescedRead(c, objects, refs).Ok? <==>
            forall i :: 0 <= i < |refs| ==> ResolveOne(c, objects, refs[i]).Ok?
    ensures CoalescedRead(c, objects, refs).Ok? ==>
              |CoalescedRead(c, objects, refs).value| == |refs| &&
              forall i :: 0 <= i < |refs| ==>
                ResolveOne(c, objects, refs[i]) == Ok(CoalescedRead(c, objects, refs).value[i])
  {
    NoFault(refs);
    ResolveAllIsEach(c, objects, refs, |refs|);
    if FirstFault(refs).Some? {
      var j :| 0 <= j < |refs| && refs[j].Fault().Some?;
      assert ResolveOne(c, objects, refs[j]).Err?;
    }
  }

  // The per-pointer checks made on an object that is already in hand.
  function ResolveInBlob(c: Codec, blob: Bytes, r: DataRef): Result<ResolvedChunk, ReadError> {
    if c.digest(blob) != r.blobDigest then Err(Payload(BlobDigestMismatch))
    else if r.Fault().Some? then Err(Payload(r.Fault().value))
    else if r.End() > |blob| then Err(ShortRead(Max0(|blob| - r.offset), r.length))
    else if c.digest(blob[r.offset..r.End()]) != r.chunkDigest then Err(Payload(ChunkDigestMismatch))
    else match c.decode(blob[r.offset..r.End()])
      case None => Err(ChunkUndecodable)
      case Some(chunk) =>
        if chunk.chunkId != r.chunkId then Err(ChunkIdMismatch) else Ok(ResolvedChunk(chunk, Some(r)))
  }
}
