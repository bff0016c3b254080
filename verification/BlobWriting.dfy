/** `BlobWriter`: buffering envelopes of many Verses and cutting them into plans. */
module BlobWriting {
  import opened Prelude
  import opened BlobStore
  import opened CommitPlan

  datatype WriterConfig = WriterConfig(targetBlobBytes: nat, maxLinger: nat, blobPrefix: string)

  predicate IsSpace(ch: char) {
    ch == ' ' || '\t' <= ch <= '\r'
  }

  predicate Blank(s: string) {
    forall i :: 0 <= i < |s| ==> IsSpace(s[i])
  }

  predicate Configurable(cfg: WriterConfig) {
    cfg.targetBlobBytes != 0 && cfg.maxLinger != 0 && !Blank(cfg.blobPrefix)
  }

  datatype Buffered = Buffered(envelope: Envelope, at: nat)
  datatype WriterState = WriterState(buffer: seq<Buffered>, bytes: nat)

  // The encoded length of an envelope's one-frame chunk, when it has one.
  type Estimate = Envelope -> Option<nat>

  function EnvelopesOf(buffer: seq<Buffered>): seq<Envelope> {
    if buffer == [] then [] else EnvelopesOf(buffer[..|buffer| - 1]) + [buffer[|buffer| - 1].envelope]
  }

  // The saturating age of the oldest envelope has reached the linger bound.
  predicate LingerDue(cfg: WriterConfig, buffer: seq<Buffered>, now: nat) {
    buffer != [] && Max0(now - buffer[0].at) >= cfg.maxLinger
  }

  function CutOf(cfg: WriterConfig, buffer: seq<Buffered>, reason: CutReason): CutPlan {
    CutPlan(reason, EnvelopesOf(buffer), cfg.blobPrefix)
  }

  type Answer = Result<Option<CutPlan>, WriterError>

  /** One call: a push with the clock read at buffering and at the linger check,
      a linger poll, or a flush. */
  datatype Call = Push(envelope: Envelope, now: nat, later: nat) | Poll(now: nat) | Flush

  function Pushed(cfg: WriterConfig, est: Estimate, s: WriterState, e: Envelope, now: nat, later: nat)
    : (WriterState, Answer)
  {
    match est(e)
    case None => (s, Err(ChunkInvalid))
    case Some(len) =>
      if s.bytes + len >= U64_LIMIT then (s, Err(BufferOverflow)) else
        var buffer, bytes := s.buffer + [Buffered(e, now)], s.bytes + len;
        if bytes >= cfg.targetBlobBytes then (WriterState([], 0), Ok(Some(CutOf(cfg, buffer, Size))))
        else if LingerDue(cfg, buffer, later) then (WriterState([], 0), Ok(Some(CutOf(cfg, buffer, Linger))))
        else (WriterState(buffer, bytes), Ok(None))
  }

  function Called(cfg: WriterConfig, est: Estimate, s: WriterState, call: Call): (WriterState, Answer) {
    match call
    case Push(e, now, later) => Pushed(cfg, est, s, e, now, later)
    case Poll(now) =>
      if LingerDue(cfg, s.buffer, now) then (WriterState([], 0), Ok(Some(CutOf(cfg, s.buffer, Linger))))
          else (s, Ok(None))
    case Flush =>
      if s.buffer == [] then (s, Ok(None)) else (WriterState([], 0), Ok(Some(CutOf(cfg, s.buffer, SourceDrained))))
  }

  /** The writer itself, updating its buffer in place. */
  class BlobWriter {
    const config: WriterConfig
    const estimate: Estimate
    var buffer: seq<Buffered>
    var bufferedBytes: nat

    constructor (config: WriterConfig, estimate: Estimate)
      requires Configurable(config)
      ensures this.config == config && this.estimate == estimate && State() == WriterState([], 0)
    {
      this.config, this.estimate := config, estimate;
      buffer, bufferedBytes := [], 0;
    }

    ghost function State(): WriterState
      reads this
    {
      WriterState(buffer, bufferedBytes)
    }

    method PushEnvelope(e: Envelope, now: nat, later: nat) returns (r: Answer)
      modifies this
      ensures (State(), r) == Called(config, estimate, old(State()), Push(e, now, later))
    {
      var len := estimate(e);
      if len.None? {
        return Err(ChunkInvalid);
      }
      if bufferedBytes + len.value >= U64_LIMIT {
        return Err(BufferOverflow);
      }
      bufferedBytes := bufferedBytes + len.value;
      buffer := buffer + [Buffered(e, now)];
      if bufferedBytes >= config.targetBlobBytes {
        var plan := Cut(Size);
        return Ok(Some(plan));
      }
      if LingerDue(config, buffer, later) {
        var plan := Cut(Linger);
        return Ok(Some(plan));
      }
      r := Ok(None);
    }

    method PollLinger(now: nat) returns (r: Answer)
      modifies this
      ensures (State(), r) == Called(config, estimate, old(State()), Poll(now))
    {
      if buffer == [] {
        return Ok(None);
      }
      if LingerDue(config, buffer, now) {
        var plan := Cut(Linger);
        return Ok(Some(plan));
      }
      r := Ok(None);
    }

    method FlushDrained() returns (r: Answer)
      modifies this
      ensures (State(), r) == Called(config, estimate, old(State()), Flush)
    {
      if buffer == [] {
        return Ok(None);
      }
      var plan := Cut(SourceDrained);
      r := Ok(Some(plan));
    }

    // Takes the whole buffer; its own empty-buffer error cannot arise from the calls above.
    method Cut(reason: CutReason) returns (plan: CutPlan)
      requires buffer != []
      modifies this
      ensures State() == WriterState([], 0) && plan == CutOf(config, old(buffer), reason)
    {
      var taken := buffer;
      buffer, bufferedBytes := [], 0;
      var envelopes: seq<Envelope> := [];
      for i := 0 to |taken|
        invariant envelopes == EnvelopesOf(taken[..i]) && buffer == [] && bufferedBytes == 0
      {
        envelopes := envelopes + [taken[i].envelope];
        assert taken[..i + 1][..i] == taken[..i];
      }
      assert taken[..|taken|] == taken;
      plan := CutPlan(reason, envelopes, config.blobPrefix);
    }
  }

  /** `with_clock`: a writer, or the refusal of a configuration that could never cut. */
  method WithClock(config: WriterConfig, estimate: Estimate) returns (r: Result<BlobWriter, WriterError>)
    ensures Configurable(config) ==>
      && r.Ok? && fresh(r.value) && r.value.config == config && r.value.estimate == estimate
      && r.value.State() == WriterState([], 0)
    ensures !Configurable(config) ==> r == Err(Config)
  {
    if config.targetBlobBytes == 0 || config.maxLinger == 0 || Blank(config.blobPrefix) { return Err(Config); }
    var writer := new BlobWriter(config, estimate);
    r := Ok(writer);
  }

  // Runs. --------------------------------------------------------------------------

  /** What a run has accepted, what it has cut, and where the writer stands. */
  datatype Run = Run(state: WriterState, accepted: seq<Envelope>, cuts: seq<CutPlan>)

  function NextRun(cfg: WriterConfig, est: Estimate, run: Run, call: Call): Run {
    var (state, answer) := Called(cfg, est, run.state, call);
    Run(state,
        if call.Push? && answer.Ok? then run.accepted + [call.envelope] else run.accepted,
        if answer.Ok? && answer.value.Some? then run.cuts + [answer.value.value] else run.cuts)
  }

  function RunOf(cfg: WriterConfig, est: Estimate, calls: seq<Call>): Run {
    if calls == [] then Run(WriterState([], 0), [], [])
    else NextRun(cfg, est, RunOf(cfg, est, calls[..|calls| - 1]), calls[|calls| - 1])
  }

  function CutEnvelopes(cuts: seq<CutPlan>): seq<Envelope> {
    if cuts == [] then [] else CutEnvelopes(cuts[..|cuts| - 1]) + cuts[|cuts| - 1].envelopes
  }

  // Estimated bytes of the first `n` envelopes.
  function Total(est: Estimate, es: seq<Envelope>, n: nat): nat
    requires n <= |es|
  {
    if n == 0 then 0 else Total(est, es, n - 1) + (if est(es[n - 1]).Some? then est(es[n - 1]).value else 0)
  }

  lemma {:induction false} TotalPrefix(est: Estimate, es: seq<Envelope>, more: seq<Envelope>, n: nat)
    requires n <= |es|
    ensures Total(est, es + more, n) == Total(est, es, n)
  {
    if n > 0 { TotalPrefix(est, es, more, n - 1); }
  }

  lemma {:induction false} EnvelopesSnoc(buffer: seq<Buffered>, b: Buffered)
    ensures EnvelopesOf(buffer + [b]) == EnvelopesOf(buffer) + [b.envelope]
    ensures buffer != [] ==> EnvelopesOf(buffer) != []
  {
    assert (buffer + [b])[..|buffer|] == buffer;
  }

  lemma {:induction false} CutSnoc(cuts: seq<CutPlan>, cut: CutPlan)
    ensures CutEnvelopes(cuts + [cut]) == CutEnvelopes(cuts) + cut.envelopes
  {
    assert (cuts + [cut])[..|cuts|] == cuts;
  }

  /** A cut is never empty, carries the writer's prefix, reached the target
      exactly when it was made for size, and would not have without its last envelope. */
  ghost predicate WellCut(cfg: WriterConfig, est: Estimate, cut: CutPlan) {
    var es := cut.envelopes;
    es != [] && cut.blobPrefix == cfg.blobPrefix &&
    Total(est, es, |es| - 1) < cfg.targetBlobBytes &&
        (cut.reason.Size? <==> Total(est, es, |es|) >= cfg.targetBlobBytes)
  }

  ghost predicate RunInv(cfg: WriterConfig, est: Estimate, run: Run) {
    CutEnvelopes(run.cuts) + EnvelopesOf(run.state.buffer) == run.accepted &&
    run.state.bytes == Total(est, EnvelopesOf(run.state.buffer), |EnvelopesOf(run.state.buffer)|) &&
    run.state.bytes < cfg.targetBlobBytes &&
    forall i :: 0 <= i < |run.cuts| ==> WellCut(cfg, est, run.cuts[i])
  }

  lemma {:induction false} BufferCut(cfg: WriterConfig, est: Estimate, buffer: seq<Buffered>, reason: CutReason)
    requires buffer != [] && Total(est, EnvelopesOf(buffer), |EnvelopesOf(buffer)|) < cfg.targetBlobBytes &&
      !reason.Size?
    ensures WellCut(cfg, est, CutOf(cfg, buffer, reason))
  {
    assert |EnvelopesOf(buffer)| > 0;
  }

  lemma {:induction false} PushCut(cfg: WriterConfig, est: Estimate, buffer: seq<Buffered>, e: Envelope, now: nat,
          reason: CutReason)
    requires Total(est, EnvelopesOf(buffer), |EnvelopesOf(buffer)|) < cfg.targetBlobBytes && est(e).Some?
    requires reason.Size? <==>
      Total(est, EnvelopesOf(buffer), |EnvelopesOf(buffer)|) + est(e).value >= cfg.targetBlobBytes
    ensures WellCut(cfg, est, CutOf(cfg, buffer + [Buffered(e, now)], reason))
  {
    EnvelopesSnoc(buffer, Buffered(e, now));
    TotalPrefix(est, EnvelopesOf(buffer), [e], |EnvelopesOf(buffer)|);
  }

  // An envelope joins the buffer.
  lemma {:induction false} BufferStep(cfg: WriterConfig, est: Estimate, run: Run, e: Envelope, now: nat)
    requires RunInv(cfg, est, run) && est(e).Some? && run.state.bytes + est(e).value < cfg.targetBlobBytes
    ensures RunInv(cfg, est, Run(WriterState(run.state.buffer + [Buffered(e, now)], run.state.bytes + est(e).value),
      run.accepted + [e], run.cuts))
  {
    var es := EnvelopesOf(run.state.buffer);
    EnvelopesSnoc(run.state.buffer, Buffered(e, now));
    TotalPrefix(est, es, [e], |es|);
    assert Total(est, es + [e], |es| + 1) == Total(est, es, |es|) + est(e).value;
    hide WellCut, EnvelopesOf, Total;
    assert (CutEnvelopes(run.cuts) + es) + [e] == CutEnvelopes(run.cuts) + (es + [e]);
  }

  // The buffer leaves as a cut.
  lemma {:induction false} CutStep(cfg: WriterConfig, est: Estimate, accepted: seq<Envelope>, cuts: seq<CutPlan>,
          buffer: seq<Buffered>, reason: CutReason)
    requires Configurable(cfg) && CutEnvelopes(cuts) + EnvelopesOf(buffer) == accepted
    requires WellCut(cfg, est, CutOf(cfg, buffer, reason)) && forall i :: 0 <= i < |cuts| ==> WellCut(cfg, est, cuts[i])
    ensures RunInv(cfg, est, Run(WriterState([], 0), accepted, cuts + [CutOf(cfg, buffer, reason)]))
  {
    CutSnoc(cuts, CutOf(cfg, buffer, reason));
    EmptyBuffer(est, accepted);
    hide WellCut, Total, CutEnvelopes;
  }

  // An envelope joins the buffer and the whole leaves as a cut.
  lemma {:induction false} PushCutStep(cfg: WriterConfig, est: Estimate, run: Run, e: Envelope, now: nat,
          reason: CutReason)
    requires Configurable(cfg) && RunInv(cfg, est, run) && est(e).Some?
    requires reason.Size? <==> run.state.bytes + est(e).value >= cfg.targetBlobBytes
    ensures var cut := CutOf(cfg, run.state.buffer + [Buffered(e, now)], reason);
      RunInv(cfg, est, Run(WriterState([], 0), run.accepted + [e], run.cuts + [cut]))
  {
    var es := EnvelopesOf(run.state.buffer);
    PushCut(cfg, est, run.state.buffer, e, now, reason);
    EnvelopesSnoc(run.state.buffer, Buffered(e, now));
    hide WellCut, Total, EnvelopesOf, CutEnvelopes;
    assert (CutEnvelopes(run.cuts) + es) + [e] == CutEnvelopes(run.cuts) + (es + [e]);
    CutStep(cfg, est, run.accepted + [e], run.cuts, run.state.buffer + [Buffered(e, now)], reason);
  }

  lemma {:induction false} BufferCutStep(cfg: WriterConfig, est: Estimate, run: Run, reason: CutReason)
    requires Configurable(cfg) && RunInv(cfg, est, run) && run.state.buffer != [] && !reason.Size?
    ensures RunInv(cfg, est, Run(WriterState([], 0), run.accepted, run.cuts + [CutOf(cfg, run.state.buffer, reason)]))
  {
    BufferCut(cfg, est, run.state.buffer, reason);
    hide WellCut, Total, EnvelopesOf, CutEnvelopes;
    CutStep(cfg, est, run.accepted, run.cuts, run.state.buffer, reason);
  }

  lemma {:induction false} CallKeepsInv(cfg: WriterConfig, est: Estimate, run: Run, call: Call)
    requires Configurable(cfg) && RunInv(cfg, est, run)
    ensures RunInv(cfg, est, NextRun(cfg, est, run, call))
  {
    hide RunInv, CutOf;
    match call {
      case Push(e, now, later) =>
        if est(e).Some? {
          if run.state.bytes + est(e).value >= cfg.targetBlobBytes {
            PushCutStep(cfg, est, run, e, now, Size);
          } else if LingerDue(cfg, run.state.buffer + [Buffered(e, now)], later) {
            PushCutStep(cfg, est, run, e, now, Linger);
          } else {
            BufferStep(cfg, est, run, e, now);
          }
        }
      case Poll(now) =>
        if LingerDue(cfg, run.state.buffer, now) { BufferCutStep(cfg, est, run, Linger); }
      case Flush =>
        if run.state.buffer != [] { BufferCutStep(cfg, est, run, SourceDrained); }
    }
  }

  /** Conservation and bounds over every run: the cuts followed by the buffer are
      the accepted envelopes, in order; the byte count is the buffer's and stays
      below the target between calls; every cut is well cut. */
  lemma {:induction false} WriterRuns(cfg: WriterConfig, est: Estimate, calls: seq<Call>)
    requires Configurable(cfg)
    ensures RunInv(cfg, est, RunOf(cfg, est, calls))
  {
    if calls != [] {
      WriterRuns(cfg, est, calls[..|calls| - 1]);
      CallKeepsInv(cfg, est, RunOf(cfg, est, calls[..|calls| - 1]), calls[|calls| - 1]);
    } else {
      EmptyBuffer(est, []);
    }
  }

  lemma {:induction false} EmptyBuffer(est: Estimate, all: seq<Envelope>)
    ensures all + EnvelopesOf([]) == all && Total(est, EnvelopesOf([]), |EnvelopesOf([])|) == 0
  {
  }

  // The clock. ----------------------------------------------------------------------

  // Readings of a run never go back, and `at` bounds them.
  ghost predicate Monotone(calls: seq<Call>, at: nat) {
    calls == [] ||
    var last := calls[|calls| - 1];
    match last
    case Push(_, now, later) => now <= later <= at && Monotone(calls[..|calls| - 1], now)
    case Poll(now) => now <= at && Monotone(calls[..|calls| - 1], now)
    case Flush => Monotone(calls[..|calls| - 1], at)
  }

  // Envelopes sit in the order they were read in, none after `at`.
  ghost predicate Aged(buffer: seq<Buffered>, at: nat) {
    (forall i, j :: 0 <= i < j < |buffer| ==> buffer[i].at <= buffer[j].at) && forall i :: 0 <= i < |buffer| ==>
        buffer[i].at <= at
  }

  lemma {:induction false} BufferAged(cfg: WriterConfig, est: Estimate, calls: seq<Call>, at: nat)
    requires Monotone(calls, at)
    ensures Aged(RunOf(cfg, est, calls).state.buffer, at)
  {
    if calls != [] {
      var last := calls[|calls| - 1];
      BufferAged(cfg, est, calls[..|calls| - 1], if last.Flush? then at else last.now);
    }
  }

  /** With a monotone clock, a push or poll that cuts nothing leaves only
      envelopes whose age at that check was below the linger bound. */
  lemma {:induction false} NothingLingers(cfg: WriterConfig, est: Estimate, calls: seq<Call>, call: Call)
    requires Configurable(cfg) && (call.Push? || call.Poll?)
    requires var check := if call.Push? then call.later else call.now; Monotone(calls + [call], check)
    requires Called(cfg, est, RunOf(cfg, est, calls).state, call).1 == Ok(None)
    ensures var check := if call.Push? then call.later else call.now;
            forall b :: b in Called(cfg, est, RunOf(cfg, est, calls).state, call).0.buffer ==>
                b.at <= check && check - b.at < cfg.maxLinger
  {
    var check := if call.Push? then call.later else call.now;
    var after := Called(cfg, est, RunOf(cfg, est, calls).state, call).0;
    assert (calls + [call])[..|calls|] == calls;
    BufferAged(cfg, est, calls + [call], check);
    assert RunOf(cfg, est, calls + [call]).state == after;
    assert !LingerDue(cfg, after.buffer, check);
  }

  // When a call cuts. ------------------------------------------------------------------

  // The bytes of a buffer.
  function Weight(est: Estimate, buffer: seq<Buffered>): nat {
    Total(est, EnvelopesOf(buffer), |EnvelopesOf(buffer)|)
  }

  // The first envelope has waited for the linger bound at `check`.
  predicate Waited(cfg: WriterConfig, buffer: seq<Buffered>, check: nat) {
    buffer != [] && buffer[0].at + cfg.maxLinger <= check
  }

  // The call cut the buffer, for that reason, and emptied it.
  ghost predicate CutsAll(cfg: WriterConfig, buffer: seq<Buffered>, reason: CutReason, after: WriterState, r: Answer) {
    && after == WriterState([], 0) && r.Ok? && r.value.Some?
    && r.value.value.reason == reason && r.value.value.blobPrefix == cfg.blobPrefix
    && |r.value.value.envelopes| == |buffer|
    && forall i :: 0 <= i < |buffer| ==> r.value.value.envelopes[i] == buffer[i].envelope
  }

  lemma {:induction false} EnvelopesAt(buffer: seq<Buffered>)
    ensures |EnvelopesOf(buffer)| == |buffer|
    ensures forall i :: 0 <= i < |buffer| ==> EnvelopesOf(buffer)[i] == buffer[i].envelope
  {
    if buffer != [] { EnvelopesAt(buffer[..|buffer| - 1]); }
  }

  lemma {:induction false} Heavier(est: Estimate, buffer: seq<Buffered>, e: Envelope, now: nat)
    requires est(e).Some?
    ensures Weight(est, buffer + [Buffered(e, now)]) == Weight(est, buffer) + est(e).value
  {
    EnvelopesSnoc(buffer, Buffered(e, now));
    TotalPrefix(est, EnvelopesOf(buffer), [e], |EnvelopesOf(buffer)|);
  }

  // What a push does to a buffer that holds what it counts.
  ghost predicate PushCuts(cfg: WriterConfig, est: Estimate, s: WriterState, e: Envelope, now: nat, later: nat,
          after: WriterState, r: Answer)
  {
    if est(e).None? then after == s && r == Err(ChunkInvalid)
    else if Weight(est, s.buffer) + est(e).value >= U64_LIMIT then after == s && r == Err(BufferOverflow)
    else
      var buffer := s.buffer + [Buffered(e, now)];
      && Weight(est, buffer) == Weight(est, s.buffer) + est(e).value
      && (if Weight(est, buffer) >= cfg.targetBlobBytes then CutsAll(cfg, buffer, Size, after, r)
          else if Waited(cfg, buffer, later) then CutsAll(cfg, buffer, Linger, after, r)
          else after.buffer == buffer && r == Ok(None))
  }

  lemma {:induction false} CutIs(cfg: WriterConfig, buffer: seq<Buffered>, reason: CutReason)
    ensures CutsAll(cfg, buffer, reason, WriterState([], 0), Ok(Some(CutOf(cfg, buffer, reason))))
  {
    EnvelopesAt(buffer);
    hide EnvelopesOf;
  }

  lemma {:induction false} DueIs(cfg: WriterConfig, buffer: seq<Buffered>, check: nat)
    requires Configurable(cfg)
    ensures LingerDue(cfg, buffer, check) <==> Waited(cfg, buffer, check)
  {
  }

  lemma {:induction false} PushCutsExactly(cfg: WriterConfig, est: Estimate, s: WriterState, e: Envelope, now: nat,
          later: nat)
    requires Configurable(cfg) && s.bytes == Weight(est, s.buffer)
    ensures var (after, r) := Pushed(cfg, est, s, e, now, later); PushCuts(cfg, est, s, e, now, later, after, r)
  {
    hide Weight, CutsAll, CutOf, LingerDue, Waited, Configurable;
    if est(e).Some? {
      var buffer := s.buffer + [Buffered(e, now)];
      Heavier(est, s.buffer, e, now);
      CutIs(cfg, buffer, Size);
      CutIs(cfg, buffer, Linger);
      DueIs(cfg, buffer, later);
    }
  }

  /** When, over every run, a call cuts, and why. A push is refused exactly when its envelope
      has no encoding or the byte count would overflow; else it joins the buffer, which is cut
      for size exactly when its bytes reach the target, else for linger exactly when its first
      envelope has waited for the bound. A poll cuts exactly then, always for linger, and a
      flush cuts exactly what is buffered, always because the source is drained. Nothing else
      changes the buffer. */
  lemma {:induction false} CutsExactly(cfg: WriterConfig, est: Estimate, calls: seq<Call>, call: Call)
    requires Configurable(cfg)
    ensures var s := RunOf(cfg, est, calls).state;
      var (after, r) := Called(cfg, est, s, call);
      match call
      case Push(e, now, later) => PushCuts(cfg, est, s, e, now, later, after, r)
      case Poll(now) =>
        if Waited(cfg, s.buffer, now) then CutsAll(cfg, s.buffer, Linger, after, r) else after == s && r == Ok(None)
      case Flush =>
        if s.buffer != [] then CutsAll(cfg, s.buffer, SourceDrained, after, r) else after == s && r == Ok(None)
  {
    hide RunOf, CutEnvelopes, WellCut, PushCuts, CutsAll, CutOf, LingerDue, Waited, Pushed, Total, EnvelopesOf,
        Configurable;
    WriterRuns(cfg, est, calls);
    var s := RunOf(cfg, est, calls).state;
    match call {
      case Push(e, now, later) => PushCutsExactly(cfg, est, s, e, now, later);
      case Poll(now) =>
        DueIs(cfg, s.buffer, now);
        CutIs(cfg, s.buffer, Linger);
      case Flush => CutIs(cfg, s.buffer, SourceDrained);
    }
  }
}
