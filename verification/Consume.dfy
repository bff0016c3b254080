/** The tailing consumer: observe the contiguous end, read up to it, print records. */
module Consume {
  import opened Prelude
  import opened BlobModel
  import opened BlobReader

  // One generation of the virtual log, with the entries of its contiguous durable tail.
  datatype Generation = Generation(id: string, start: nat, entries: seq<LogPayload>)
  type View = seq<Generation>

  // What one pass of the consumer observes: the membership and the object store.
  datatype Pass = Pass(view: View, objects: Objects)

  datatype Line = Line(entry: nat, offset: nat, payload: Record)

  datatype Options = Options(from: nat, untilRecords: Option<nat>, seconds: nat, noFollow: bool)

  datatype ConsumeError = ZeroSeconds | ReadFailed(entry: nat) | Unresolvable(entry: nat, error: ReadError)

  datatype Summary = Summary(entriesScanned: nat, recordsPrinted: nat, finalCursor: nat, membershipChange: bool)

  function SatAdd(a: nat, b: nat): nat {
    if a + b < U64_LIMIT then a + b else U64_LIMIT - 1
  }

  // Observing. -------------------------------------------------------------------------------

  function EndOf(view: View): nat {
    if view == [] then 0 else SatAdd(view[|view| - 1].start, |view[|view| - 1].entries|)
  }

  function Ids(view: View): (ids: seq<string>)
    ensures |ids| == |view| && forall i :: 0 <= i < |view| ==> ids[i] == view[i].id
  {
    if view == [] then [] else Ids(view[..|view| - 1]) + [view[|view| - 1].id]
  }

  /** Where the virtual log ends for now, and the generations it is made of. */
  method ObserveContiguousEnd(view: View) returns (end: nat, generations: seq<string>)
    ensures end == EndOf(view) && generations == Ids(view)
  {
    end, generations := 0, [];
    for i := 0 to |view|
      invariant end == EndOf(view[..i]) && generations == Ids(view[..i])
    {
      end := SatAdd(view[i].start, |view[i].entries|);
      generations := generations + [view[i].id];
      assert view[..i + 1][..i] == view[..i];
    }
    assert view[..|view|] == view;
  }

  // The entry at a position: it belongs to the last generation, among the first `n`, that
  // starts at or before it.
  function ReadAt(view: View, n: nat, position: nat): Option<LogPayload>
    requires n <= |view|
  {
    if n == 0 then None
    else if position < view[n - 1].start then ReadAt(view, n - 1, position)
    else if position - view[n - 1].start < |view[n - 1].entries|
        then Some(view[n - 1].entries[position - view[n - 1].start])
    else None
  }

  // Printing. --------------------------------------------------------------------------------

  predicate Full(limit: Option<nat>, printed: nat) {
    limit.Some? && printed >= limit.value
  }

  // The part of `lines` the limit lets through, when `printed` lines came before.
  function Cap(limit: Option<nat>, printed: nat, lines: seq<Line>): seq<Line> {
    if limit.None? || printed + |lines| <= limit.value then lines else lines[..Max0(limit.value - printed)]
  }

  // The first `n` records of a frame, `before` records of the entry preceding them.
  function FrameLines(entry: nat, before: nat, frame: Frame, n: nat): (lines: seq<Line>)
    requires n <= |frame.records|
    ensures |lines| == n
  {
    if n == 0 then [] else
      FrameLines(entry, before, frame, n - 1) +
      [Line(entry,
            if frame.baseOffset + (n - 1) < U64_LIMIT then frame.baseOffset + (n - 1) else before + (n - 1),
            frame.records[n - 1])]
  }

  function FramesLines(entry: nat, before: nat, frames: seq<Frame>, n: nat): seq<Line>
    requires n <= |frames|
  {
    if n == 0 then [] else
      var front := FramesLines(entry, before, frames, n - 1);
      front + FrameLines(entry, before + |front|, frames[n - 1], |frames[n - 1].records|)
  }

  // Every record of an entry's chunks, in order.
  function EntryLines(entry: nat, chunks: seq<ResolvedChunk>, n: nat): seq<Line>
    requires n <= |chunks|
  {
    if n == 0 then [] else
      var front := EntryLines(entry, chunks, n - 1);
      front + FramesLines(entry, |front|, chunks[n - 1].chunk.frames, |chunks[n - 1].chunk.frames|)
  }

  lemma {:induction false} CapConcat(limit: Option<nat>, printed: nat, a: seq<Line>, b: seq<Line>)
    ensures Cap(limit, printed, a + b) == Cap(limit, printed, a) + Cap(limit, printed + |a|, b)
  {
  }

  // One frame, stopping at the limit; `stop` says the limit was met before a record.
  method PrintFrame(entry: nat, frame: Frame, limit: Option<nat>, printed: nat, before: nat)
    returns (lines: seq<Line>, stop: bool)
    ensures lines == Cap(limit, printed, FrameLines(entry, before, frame, |frame.records|))
    ensures stop ==> Full(limit, printed + |lines|)
    ensures !stop ==> lines == FrameLines(entry, before, frame, |frame.records|)
  {
    lines, stop := [], false;
    for i := 0 to |frame.records|
      invariant lines == FrameLines(entry, before, frame, i)
      invariant limit.None? || i == 0 || printed + i <= limit.value
    {
      if Full(limit, printed + |lines|) {
        FrameLinesPrefix(entry, before, frame, i, |frame.records|);
        return lines, true;
      }
      var offset := if frame.baseOffset + i < U64_LIMIT then frame.baseOffset + i else before + |lines|;
      lines := lines + [Line(entry, offset, frame.records[i])];
    }
  }

  lemma {:induction false} FrameLinesPrefix(entry: nat, before: nat, frame: Frame, k: nat, n: nat)
    requires k <= n <= |frame.records|
    ensures FrameLines(entry, before, frame, n)[..k] == FrameLines(entry, before, frame, k)
  {
    if k < n {
      FrameLinesPrefix(entry, before, frame, k, n - 1);
      assert FrameLines(entry, before, frame, n)[..k] == FrameLines(entry, before, frame, n - 1)[..k];
    }
  }

  lemma {:induction false} FramesLinesFrom(entry: nat, before: nat, frames: seq<Frame>, k: nat, n: nat)
    requires k <= n <= |frames|
    ensures FramesLines(entry, before, frames, k) <= FramesLines(entry, before, frames, n)
  {
    if k < n { FramesLinesFrom(entry, before, frames, k, n - 1); }
  }

  lemma {:induction false} EntryLinesFrom(entry: nat, chunks: seq<ResolvedChunk>, k: nat, n: nat)
    requires k <= n <= |chunks|
    ensures EntryLines(entry, chunks, k) <= EntryLines(entry, chunks, n)
  {
    if k < n { EntryLinesFrom(entry, chunks, k, n - 1); }
  }

  lemma {:induction false} CapOfExtension(limit: Option<nat>, printed: nat, a: seq<Line>, whole: seq<Line>)
    requires a <= whole && Full(limit, printed + |Cap(limit, printed, a)|)
    ensures Cap(limit, printed, whole) == Cap(limit, printed, a)
  {
  }

  method PrintFrames(entry: nat, frames: seq<Frame>, limit: Option<nat>, printed: nat, before: nat)
    returns (lines: seq<Line>, stop: bool)
    ensures lines == Cap(limit, printed, FramesLines(entry, before, frames, |frames|))
    ensures stop ==> Full(limit, printed + |lines|)
    ensures !stop ==> lines == FramesLines(entry, before, frames, |frames|)
  {
    lines, stop := [], false;
    hide FrameLines;
    for i := 0 to |frames|
      invariant lines == FramesLines(entry, before, frames, i) == Cap(limit, printed, lines)
    {
      var more, full := PrintFrame(entry, frames[i], limit, printed + |lines|, before + |lines|);
      CapConcat(limit, printed, lines, FrameLines(entry, before + |lines|, frames[i], |frames[i].records|));
      lines := lines + more;
      if full {
        FramesLinesFrom(entry, before, frames, i + 1, |frames|);
        CapOfExtension(limit, printed, FramesLines(entry, before, frames, i + 1),
            FramesLines(entry, before, frames, |frames|));
        return lines, true;
      }
    }
  }

  /** Prints an entry's records until the limit is met. */
  method PrintEntry(entry: nat, chunks: seq<ResolvedChunk>, limit: Option<nat>, printed: nat) returns (lines: seq<Line>)
    ensures lines == Cap(limit, printed, EntryLines(entry, chunks, |chunks|))
  {
    lines := [];
    hide FramesLines;
    for i := 0 to |chunks|
      invariant lines == EntryLines(entry, chunks, i) == Cap(limit, printed, lines)
    {
      var frames := chunks[i].chunk.frames;
      var more, full := PrintFrames(entry, frames, limit, printed + |lines|, |lines|);
      CapConcat(limit, printed, lines, FramesLines(entry, |lines|, frames, |frames|));
      lines := lines + more;
      if full {
        EntryLinesFrom(entry, chunks, i + 1, |chunks|);
        CapOfExtension(limit, printed, EntryLines(entry, chunks, i + 1), EntryLines(entry, chunks, |chunks|));
        return lines;
      }
    }
  }

  // The loops. ---------------------------------------------------------------------------------

  // Where the consumer stands, and why it stopped if it failed.
  datatype Tail = Tail(cursor: nat, lines: seq<Line>, scanned: nat)
  datatype Read = Read(tail: Tail, failure: Option<ConsumeError>)

  function ReadUpTo(c: Codec, pass: Pass, limit: Option<nat>, t: Tail, end: nat): Read
    decreases end - t.cursor
  {
    if t.cursor >= end || Full(limit, |t.lines|) then Read(t, None) else
      match ReadAt(pass.view, |pass.view|, t.cursor)
      case None => Read(t, Some(ReadFailed(t.cursor)))
      case Some(payload) =>
        match ResolvePayload(c, pass.objects, payload)
        case Err(e) => Read(t.(scanned := t.scanned + 1), Some(Unresolvable(t.cursor, e)))
        case Ok(chunks) =>
          var lines := Cap(limit, |t.lines|, EntryLines(t.cursor, chunks, |chunks|));
          ReadUpTo(c, pass, limit, Tail(t.cursor + 1, t.lines + lines, t.scanned + 1), end)
  }

  // The membership as last seen, and whether a change was noticed.
  datatype Watch = Watch(seen: Option<seq<string>>, changed: bool)

  function Noticed(w: Watch, ids: seq<string>): Watch {
    Watch(Some(ids), w.changed || (w.seen.Some? && w.seen.value != ids) || |ids| > 1)
  }

  datatype Consumed = Consumed(tail: Tail, watch: Watch, failure: Option<ConsumeError>)

  // The passes from `i` on: those made before the deadline, or the only one without following.
  function Follow(c: Codec, options: Options, passes: seq<Pass>, i: nat, t: Tail, w: Watch): Consumed
    requires i <= |passes|
    decreases |passes| - i
  {
    if i == |passes| || Full(options.untilRecords, |t.lines|) then Consumed(t, w, None) else
      var noticed := Noticed(w, Ids(passes[i].view));
      var read := ReadUpTo(c, passes[i], options.untilRecords, t, EndOf(passes[i].view));
      if read.failure.Some? || options.noFollow then Consumed(read.tail, noticed, read.failure)
      else Follow(c, options, passes, i + 1, read.tail, noticed)
  }

  function Start(options: Options): Tail { Tail(options.from, [], 0) }

  method ReadPass(c: Codec, pass: Pass, limit: Option<nat>, start: Tail, end: nat) returns (r: Read)
    ensures r == ReadUpTo(c, pass, limit, start, end)
  {
    var cursor, lines, scanned := start.cursor, start.lines, start.scanned;
    hide EntryLines, Cap, ReadAt, ResolvePayload;
    while cursor < end
      invariant ReadUpTo(c, pass, limit, start, end) == ReadUpTo(c, pass, limit, Tail(cursor, lines, scanned), end)
      decreases end - cursor
    {
      if Full(limit, |lines|) { break; }
      var payload := ReadAt(pass.view, |pass.view|, cursor);
      if payload.None? { return Read(Tail(cursor, lines, scanned), Some(ReadFailed(cursor))); }
      scanned := scanned + 1;
      var chunks := ResolveLogPayload(c, pass.objects, payload.value);
      if chunks.Err? { return Read(Tail(cursor, lines, scanned), Some(Unresolvable(cursor, chunks.error))); }
      var more := PrintEntry(cursor, chunks.value, limit, |lines|);
      lines := lines + more;
      cursor := cursor + 1;
    }
    return Read(Tail(cursor, lines, scanned), None);
  }

  /** The record-printing loop: `lines` is what was written, on failure too. */
  method RunConsume(c: Codec, options: Options, passes: seq<Pass>)
    returns (r: Result<Summary, ConsumeError>, lines: seq<Line>)
    ensures !options.noFollow && options.seconds == 0 ==> r == Err(ZeroSeconds) && lines == []
    ensures options.noFollow || options.seconds != 0 ==>
      var done := Follow(c, options, passes, 0, Start(options), Watch(None, false));
      && lines == done.tail.lines
      && r == match done.failure
              case Some(e) => Err(e)
              case None => Ok(Summary(done.tail.scanned, |done.tail.lines|, done.tail.cursor, done.watch.changed))
  {
    lines := [];
    if !options.noFollow && options.seconds == 0 { return Err(ZeroSeconds), lines; }
    var t, w := Start(options), Watch(None, false);
    hide ReadUpTo, Ids;
    var i := 0;
    while i < |passes|
      invariant i <= |passes|
      invariant Follow(c, options, passes, 0, Start(options), Watch(None, false)) == Follow(c, options, passes, i, t, w)
    {
      if Full(options.untilRecords, |t.lines|) { break; }
      var end, generations := ObserveContiguousEnd(passes[i].view);
      var changed := w.changed || (w.seen.Some? && w.seen.value != generations);
      if |generations| > 1 { changed := true; }
      w := Watch(Some(generations), changed);
      var read := ReadPass(c, passes[i], options.untilRecords, t, end);
      t := read.tail;
      if read.failure.Some? { return Err(read.failure.value), t.lines; }
      if options.noFollow { break; }
      i := i + 1;
    }
    return Ok(Summary(t.scanned, |t.lines|, t.cursor, w.changed)), t.lines;
  }
}
