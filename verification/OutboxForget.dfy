/** When the outbox forgets a sequence: what a roll-back cuts off a file that holds stray
    acknowledgements, and what a torn write leaves. */
module OutboxForget {
  import opened Prelude
  import opened BatchCodec
  import opened OutboxWal
  import opened ProducerOutbox
  import opened OutboxRuns
  import opened OutboxHistory

  // The record that `i` names stages sequence `q`.
  predicate Stages(ops: seq<Op>, i: int, q: nat) {
    0 <= i < |ops| && ops[i].Submitted? && ops[i].sequence == q
  }

  // Sequence `q` is staged by one of the first `m` records.
  ghost predicate StagedBefore(ops: seq<Op>, m: nat, q: nat) {
    exists i :: i < m && Stages(ops, i, q)
  }

  /** A history's sequences are those its records stage. */
  lemma {:induction false} ReplayKeys(wire: WireCodec, ops: seq<Op>, q: nat)
    requires Replay(wire, ops).Ok?
    ensures q in Replay(wire, ops).value <==> StagedBefore(ops, |ops|, q)
  {
    if ops != [] {
      var front, last := ops[..|ops| - 1], ops[|ops| - 1];
      ReplayKeys(wire, front, q);
      if StagedBefore(front, |front|, q) {
        var i :| i < |front| && Stages(front, i, q);
        assert Stages(ops, i, q);
      }
      if StagedBefore(ops, |ops|, q) && !Stages(ops, |ops| - 1, q) {
        var i :| i < |ops| && Stages(ops, i, q);
        assert Stages(front, i, q);
      }
      assert last.Submitted? && last.sequence == q ==> Stages(ops, |ops| - 1, q);
    }
  }

  lemma {:induction false} StagedInPrefix(ops: seq<Op>, m: nat, q: nat)
    requires m <= |ops|
    ensures StagedBefore(ops[..m], m, q) <==> StagedBefore(ops, m, q)
  {
    if StagedBefore(ops[..m], m, q) {
      var i :| i < m && Stages(ops[..m], i, q);
      assert Stages(ops, i, q);
    }
    if StagedBefore(ops, m, q) {
      var i :| i < m && Stages(ops, i, q);
      assert Stages(ops[..m], i, q);
    }
  }

  // What reopening a file keeps of a sequence.
  ghost predicate Reopens(cfg: Config, file: Bytes) {
    Scan(cfg.crc, cfg.wire, map[], file).Ok?
  }

  ghost function Reopened(cfg: Config, file: Bytes): Entries
    requires Reopens(cfg, file)
  {
    Scan(cfg.crc, cfg.wire, map[], file).value.entries
  }

  /** After a stage that is rolled back, reopening still succeeds, and it has forgotten a
      sequence exactly when every record that stages it stands past the records that are
      whole in the `used` bytes the roll-back keeps. */
  lemma {:induction false} ForgottenExactly(cfg: Config, s: Store, ops: seq<Op>, submit: Bytes, q: nat)
    requires SoundWire(cfg.wire) && Dense(s.entries) && AllFit(ops) && Replay(cfg.wire, ops).Ok?
    requires s.file == OpsBytes(cfg.crc, ops) && s.used <= |s.file|
    requires Stage(cfg, s, submit, SyncFailed).1 == Err(Io)
    ensures var file := Stage(cfg, s, submit, SyncFailed).0.file;
      && Reopens(cfg, file)
      && (q !in Reopened(cfg, file) <==>
          forall i :: Stages(ops, i, q) ==> i >= Survivors(cfg.crc, ops, s.used))
  {
    hide Stage, Scan, SoundWire, Dense, Replay, OpsBytes, Survivors, OpFits;
    StageRollsBack(cfg, s, submit);
    CutAnywhere(cfg.crc, cfg.wire, ops, s.used);
    var m := Survivors(cfg.crc, ops, s.used);
    ReplayKeys(cfg.wire, ops[..m], q);
    StagedInPrefix(ops, m, q);
  }

  // A record survives a cut exactly when it ends before it.
  lemma {:induction false} SurvivesExactly(crc: Crc, ops: seq<Op>, k: nat, i: nat)
    requires AllFit(ops) && i < |ops|
    ensures AllFit(ops[..i + 1])
    ensures i < Survivors(crc, ops, k) <==> |OpsBytes(crc, ops[..i + 1])| <= k
  {
    hide OpsBytes, Survivors, OpFits;
    var m := Survivors(crc, ops, k);
    SurvivorsMaximal(crc, ops, k);
    FilePrefix(crc, ops, i + 1);
    if i < m {
      FilePrefix(crc, ops[..m], i + 1);
      assert ops[..m][..i + 1] == ops[..i + 1];
    } else {
      FilePrefix(crc, ops[..i + 1], m + 1);
      assert ops[..i + 1][..m + 1] == ops[..m + 1];
    }
  }

  // Runs whose strays are whole ACK records. ---------------------------------------------------

  // Memory and a reopened outbox hold the same submissions; memory may lack ACKs.
  ghost predicate SameSubmissions(memory: Entries, reopened: Entries) {
    memory.Keys == reopened.Keys && Grows(memory, reopened)
  }

  /** The file is the file of `ops`, and `strays` ACK records in it are not counted as used. */
  ghost predicate Traced(cfg: Config, s: Store, ops: seq<Op>, strays: nat) {
    && SoundWire(cfg.wire) && Dense(s.entries) && |s.entries| <= U64_LIMIT
    && AllFit(ops) && s.file == OpsBytes(cfg.crc, ops) && s.used + ACK_RECORD_BYTES * strays == |s.file|
    && Replay(cfg.wire, ops).Ok? && SameSubmissions(s.entries, Replay(cfg.wire, ops).value)
  }

  // The call rolls a file back past bytes it did not write.
  ghost predicate Cuts(cfg: Config, s: Store, c: Call)
    requires SoundWire(cfg.wire)
  {
    c.StageCall? && c.disk == SyncFailed && Writes(cfg, s, c).Some? && s.used < |s.file|
  }

  // What memory applies, the history can apply too, and they stay alike.
  lemma {:induction false} BothApply(wire: WireCodec, memory: Entries, reopened: Entries, op: Op)
    requires SameSubmissions(memory, reopened) && ApplyOp(wire, memory, op).Ok?
    ensures ApplyOp(wire, reopened, op).Ok?
    ensures SameSubmissions(ApplyOp(wire, memory, op).value, ApplyOp(wire, reopened, op).value)
    ensures op.Acked? ==> SameSubmissions(memory, ApplyOp(wire, reopened, op).value)
  {
    assert |memory| == |memory.Keys| && |reopened| == |reopened.Keys|;
  }

  lemma {:induction false} TracedAppend(cfg: Config, s: Store, ops: seq<Op>, op: Op)
    requires SoundWire(cfg.wire) && AllFit(ops) && s.file == OpsBytes(cfg.crc, ops)
    requires Replay(cfg.wire, ops).Ok? && SameSubmissions(s.entries, Replay(cfg.wire, ops).value)
    requires OpFits(op) && ApplyOp(cfg.wire, s.entries, op).Ok?
    ensures AllFit(ops + [op]) && s.file + OpBytes(cfg.crc, op) == OpsBytes(cfg.crc, ops + [op])
    ensures Replay(cfg.wire, ops + [op]).Ok?
    ensures var r := Replay(cfg.wire, ops + [op]).value;
      && SameSubmissions(ApplyOp(cfg.wire, s.entries, op).value, r)
      && (op.Acked? ==> SameSubmissions(s.entries, r))
  {
    hide OpBytes, OpFits, OpsBytes, ApplyOp, SameSubmissions, Replay, SoundWire;
    BothApply(cfg.wire, s.entries, Replay(cfg.wire, ops).value, op);
    OpsBytesSnoc(cfg.crc, ops, op);
    ReplaySnoc(cfg.wire, ops, op);
  }

  // The records a call leaves whole in the file.
  function Leaves(cfg: Config, s: Store, c: Call): seq<Op>
    requires SoundWire(cfg.wire)
  {
    if Writes(cfg, s, c).Some? && (c.MarkCall? || c.disk == Synced) then [Writes(cfg, s, c).value] else []
  }

  function Strayed(cfg: Config, s: Store, c: Call): nat
    requires SoundWire(cfg.wire)
  {
    if Writes(cfg, s, c).Some? && c.MarkCall? && c.disk == SyncFailed then 1 else 0
  }

  /** Every call whose write is not torn, and that does not cut, keeps the trace. */
  lemma {:induction false} TracedStep(cfg: Config, s: Store, ops: seq<Op>, strays: nat, c: Call)
    requires Traced(cfg, s, ops, strays) && !c.disk.WriteFailed? && !Cuts(cfg, s, c)
    ensures Traced(cfg, Step(cfg, s, c), ops + Leaves(cfg, s, c), strays + Strayed(cfg, s, c))
  {
    hide Stage, Mark, Step, ApplyOp, OpBytes, OpsBytes, Replay, Dense, SoundWire, SameSubmissions;
    StepIs(cfg, s, c);
    StepGrows(cfg, s, c);
    assert ops + [] == ops;
    if Writes(cfg, s, c).Some? {
      var op := Writes(cfg, s, c).value;
      if c.StageCall? && c.disk == SyncFailed {
        assert (s.file + OpBytes(cfg.crc, op))[..s.used] == s.file;
      } else {
        TracedAppend(cfg, s, ops, op);
        if c.disk == SyncFailed { AckRecordSize(cfg.crc, op.sequence); }
      }
    }
  }

  // No write of the run is torn, and no roll-back cuts.
  ghost predicate WholeAndUncut(cfg: Config, s: Store, calls: seq<Call>)
    requires SoundWire(cfg.wire)
  {
    forall i :: 0 <= i < |calls| ==> !calls[i].disk.WriteFailed? && !Cuts(cfg, After(cfg, s, calls[..i]), calls[i])
  }

  // The records a run leaves, and how many of them are stray acknowledgements.
  function Records(cfg: Config, s: Store, calls: seq<Call>): seq<Op>
    requires SoundWire(cfg.wire)
  {
    if calls == [] then [] else
      var front := calls[..|calls| - 1];
      Records(cfg, s, front) + Leaves(cfg, After(cfg, s, front), calls[|calls| - 1])
  }

  function StrayAcks(cfg: Config, s: Store, calls: seq<Call>): nat
    requires SoundWire(cfg.wire)
  {
    if calls == [] then 0 else
      var front := calls[..|calls| - 1];
      StrayAcks(cfg, s, front) + Strayed(cfg, After(cfg, s, front), calls[|calls| - 1])
  }

  lemma {:induction false} UncutPrefix(cfg: Config, s: Store, calls: seq<Call>, front: seq<Call>)
    requires SoundWire(cfg.wire) && WholeAndUncut(cfg, s, calls) && front <= calls
    ensures WholeAndUncut(cfg, s, front)
  {
    hide After, Cuts;
    forall i | 0 <= i < |front| ensures !front[i].disk.WriteFailed? && !Cuts(cfg, After(cfg, s, front[..i]), front[i]) {
      assert front[..i] == calls[..i] && front[i] == calls[i];
    }
  }

  lemma {:induction false} UncutLast(cfg: Config, s: Store, calls: seq<Call>)
    requires SoundWire(cfg.wire) && WholeAndUncut(cfg, s, calls) && calls != []
    ensures var front, c := calls[..|calls| - 1], calls[|calls| - 1];
      !c.disk.WriteFailed? && !Cuts(cfg, After(cfg, s, front), c)
  {
    hide After, Cuts;
  }

  /** Over every run whose strays are whole ACK records, up to its first cut, the file is
      that of the history it began with and the records the calls left. */
  lemma {:induction false} RunsAreTraced(cfg: Config, s: Store, ops: seq<Op>, strays: nat, calls: seq<Call>)
    requires SoundWire(cfg.wire) && Traced(cfg, s, ops, strays) && WholeAndUncut(cfg, s, calls)
    ensures Traced(cfg, After(cfg, s, calls), ops + Records(cfg, s, calls), strays + StrayAcks(cfg, s, calls))
  {
    hide Step, Traced, Cuts, SoundWire, Leaves, Strayed, WholeAndUncut;
    if calls == [] {
      assert ops + [] == ops;
    } else {
      var front, c := calls[..|calls| - 1], calls[|calls| - 1];
      UncutPrefix(cfg, s, calls, front);
      UncutLast(cfg, s, calls);
      RunsAreTraced(cfg, s, ops, strays, front);
      var mid := After(cfg, s, front);
      TracedStep(cfg, mid, ops + Records(cfg, s, front), strays + StrayAcks(cfg, s, front), c);
      ConcatAssoc(ops, Records(cfg, s, front), Leaves(cfg, mid, c));
    }
  }

  /** So up to the first cut nothing staged is forgotten, however many acknowledgements
      stray: reopening recovers every submission of memory with its bytes. */
  lemma {:induction false} StrayAcksForgetNothing(cfg: Config, s: Store, calls: seq<Call>)
    requires InStep(cfg, s) && WholeAndUncut(cfg, s, calls)
    ensures var after := After(cfg, s, calls);
      Reopens(cfg, after.file) && SameSubmissions(after.entries, Reopened(cfg, after.file))
  {
    hide After, InStep, Records, StrayAcks, WholeAndUncut, Scan, Replay, OpsBytes, SameSubmissions, Dense, SoundWire,
        OpFits;
    var ops := InStepTraced(cfg, s);
    RunsAreTraced(cfg, s, ops, 0, calls);
    ScanHistory(cfg.crc, cfg.wire, ops + Records(cfg, s, calls), []);
    var file := After(cfg, s, calls).file;
    assert file + [] == file;
    ScanEmpty(cfg.crc, cfg.wire, Replay(cfg.wire, ops + Records(cfg, s, calls)).value);
  }

  lemma {:induction false} InStepTraced(cfg: Config, s: Store) returns (ops: seq<Op>)
    requires InStep(cfg, s)
    ensures Traced(cfg, s, ops, 0) && AllFit(ops) && Replay(cfg.wire, ops) == Ok(s.entries)
  {
    ops := ReopenedHasHistory(cfg, s);
    hide Scan, OpsBytes, Replay, OpFits, SoundWire, Dense;
  }

  // Some record that stages `q` ends within the first `k` bytes of the file.
  ghost predicate EndsWithin(crc: Crc, ops: seq<Op>, q: nat, k: int)
    requires AllFit(ops)
  {
    exists i :: Stages(ops, i, q) && |OpsBytes(crc, ops[..i + 1])| <= k
  }

  lemma {:induction false} KeptExactly(crc: Crc, ops: seq<Op>, q: nat, k: nat)
    requires AllFit(ops)
    ensures EndsWithin(crc, ops, q, k) <==> !(forall i :: Stages(ops, i, q) ==> i >= Survivors(crc, ops, k))
  {
    hide OpsBytes, Survivors, OpFits;
    if EndsWithin(crc, ops, q, k) {
      var i :| Stages(ops, i, q) && |OpsBytes(crc, ops[..i + 1])| <= k;
      SurvivesExactly(crc, ops, k, i);
    }
    if i :| Stages(ops, i, q) && i < Survivors(crc, ops, k) {
      SurvivesExactly(crc, ops, k, i);
    }
  }

  /** The first cut: reopening after it forgets exactly the sequences staged only by records
      that reach into the file's last bytes, 17 for each stray acknowledgement. So no
      sequence is handed out twice after a restart exactly when every submission in memory
      has a record that ends before those bytes. */
  lemma {:induction false} CutForgetsExactly(cfg: Config, s: Store, ops: seq<Op>, strays: nat, submit: Bytes)
    requires Traced(cfg, s, ops, strays) && Stage(cfg, s, submit, SyncFailed).1 == Err(Io)
    ensures var (after, _) := Stage(cfg, s, submit, SyncFailed);
      var kept := |s.file| - ACK_RECORD_BYTES * strays;
      && after.entries == s.entries && Reopens(cfg, after.file)
      && (forall q: nat :: q in Reopened(cfg, after.file) <==> EndsWithin(cfg.crc, ops, q, kept))
      && (s.entries.Keys <= Reopened(cfg, after.file).Keys <==>
          forall q :: q in s.entries ==> EndsWithin(cfg.crc, ops, q, kept))
  {
    hide Stage, Scan, SoundWire, Dense, Replay, OpsBytes, Survivors, OpFits, EndsWithin;
    StageRollsBack(cfg, s, submit);
    var after := Stage(cfg, s, submit, SyncFailed).0;
    ForgottenExactly(cfg, s, ops, submit, 0);
    forall q: nat ensures q in Reopened(cfg, after.file) <==> EndsWithin(cfg.crc, ops, q, s.used) {
      ForgottenExactly(cfg, s, ops, submit, q);
      KeptExactly(cfg.crc, ops, q, s.used);
    }
  }

  // The history of a file in step, and of what a run adds to it.
  ghost predicate HistoryOf(cfg: Config, s: Store, calls: seq<Call>, ops: seq<Op>)
    requires SoundWire(cfg.wire)
  {
    && AllFit(ops) && OpsBytes(cfg.crc, ops) == After(cfg, s, calls).file
    && exists before :: ops == before + Records(cfg, s, calls) && AllFit(before) && OpsBytes(cfg.crc, before) == s.file
  }

  /** The same over whole runs from a file in step: any run without torn writes, up to and
      with its first cut. */
  lemma {:induction false} RunForgetsExactly(cfg: Config, s: Store, calls: seq<Call>, submit: Bytes)
    returns (ops: seq<Op>)
    requires InStep(cfg, s) && WholeAndUncut(cfg, s, calls)
    requires Stage(cfg, After(cfg, s, calls), submit, SyncFailed).1 == Err(Io)
    ensures HistoryOf(cfg, s, calls, ops)
    ensures var (after, _) := Stage(cfg, After(cfg, s, calls), submit, SyncFailed);
      var kept := |OpsBytes(cfg.crc, ops)| - ACK_RECORD_BYTES * StrayAcks(cfg, s, calls);
      && Reopens(cfg, after.file)
      && (forall q: nat :: q in Reopened(cfg, after.file) <==> EndsWithin(cfg.crc, ops, q, kept))
      && (after.entries.Keys <= Reopened(cfg, after.file).Keys <==>
          forall q :: q in after.entries ==> EndsWithin(cfg.crc, ops, q, kept))
  {
    hide After, InStep, Records, StrayAcks, WholeAndUncut, Scan, Replay, OpsBytes, SameSubmissions, Dense, SoundWire,
        OpFits, EndsWithin, Stage;
    var before := InStepTraced(cfg, s);
    RunsAreTraced(cfg, s, before, 0, calls);
    ops := before + Records(cfg, s, calls);
    CutForgetsExactly(cfg, After(cfg, s, calls), ops, StrayAcks(cfg, s, calls), submit);
  }

  // Torn writes. -------------------------------------------------------------------------------

  lemma {:induction false} FirstBytes(crc: Crc, op: Op)
    requires OpFits(op)
    ensures |OpBytes(crc, op)| >= 8 && U32Value(OpBytes(crc, op)[..4]) + 8 == |OpBytes(crc, op)|
  {
    FrameParts(crc, op, []);
    assert OpBytes(crc, op) + [] == OpBytes(crc, op);
  }

  // Going on after a first record of `size` bytes whose checksum holds.
  function ScanSpliced(cfg: Config, entries: Entries, b: Bytes, size: nat): Result<Scanned, OutboxError>
    requires 8 <= size <= |b|
  {
    match ParseBody(b[4..size - 4])
    case Err(e) => Err(e)
    case Ok(op) =>
      match ApplyOp(cfg.wire, entries, op)
      case Err(e) => Err(e)
      case Ok(after) => Onward(size, Scan(cfg.crc, cfg.wire, after, b[size..]))
  }

  lemma {:induction false} ScanFirst(cfg: Config, entries: Entries, b: Bytes)
    ensures var again := Scan(cfg.crc, cfg.wire, entries, b);
      if |b| < 4 then again == Ok(Scanned(entries, 0)) else
        var size := U32Value(b[..4]) + 8;
        && (|b| < size ==> again == Ok(Scanned(entries, 0)))
        && (|b| >= size && U32Value(b[size - 4..size]) != cfg.crc(b[4..size - 4]) % U32_LIMIT ==>
              again == Err(Corrupt("record checksum")))
        && (|b| >= size && U32Value(b[size - 4..size]) == cfg.crc(b[4..size - 4]) % U32_LIMIT ==>
              again == ScanSpliced(cfg, entries, b, size))
  {
    hide U32Value, ParseBody, ApplyOp;
  }

  /** What a torn write leaves: the records before it, then bytes that the scan reads, with
      whatever is appended later, as one record. While they are not a whole record they are
      all dropped, and once they are, the checksum decides. A record torn after its length
      has that record's size. */
  lemma {:induction false} TornExactly(cfg: Config, ops: seq<Op>, op: Op, k: nat, later: Bytes)
    requires AllFit(ops) && Replay(cfg.wire, ops).Ok? && OpFits(op) && k < |OpBytes(cfg.crc, op)|
    ensures var b, used := OpBytes(cfg.crc, op)[..k] + later, |OpsBytes(cfg.crc, ops)|;
      var again := Scan(cfg.crc, cfg.wire, map[], OpsBytes(cfg.crc, ops) + b);
      if |b| < 4 then again == Ok(Scanned(Replay(cfg.wire, ops).value, used)) else
        var size := U32Value(b[..4]) + 8;
        && (k >= 4 ==> size == |OpBytes(cfg.crc, op)|)
        && (|b| < size ==> again == Ok(Scanned(Replay(cfg.wire, ops).value, used)))
        && (|b| >= size && U32Value(b[size - 4..size]) != cfg.crc(b[4..size - 4]) % U32_LIMIT ==>
              again == Err(Corrupt("record checksum")))
        && (|b| >= size && U32Value(b[size - 4..size]) == cfg.crc(b[4..size - 4]) % U32_LIMIT ==>
              again == Onward(used, ScanSpliced(cfg, Replay(cfg.wire, ops).value, b, size)))
  {
    hide OpBytes, OpsBytes, Replay, OpFits, U32Value, Scan, ScanSpliced;
    var record := OpBytes(cfg.crc, op);
    var b := record[..k] + later;
    FirstBytes(cfg.crc, op);
    if k >= 4 { assert b[..4] == record[..4]; }
    ScanHistory(cfg.crc, cfg.wire, ops, b);
    ScanFirst(cfg, Replay(cfg.wire, ops).value, b);
  }

  // The smallest such run. ---------------------------------------------------------------------

  // What stands in a file of `ops`, one acknowledgement and one submission, when 17 bytes go.
  lemma {:induction false} LastIsCut(crc: Crc, wire: WireCodec, ops: seq<Op>, acked: nat, n: nat, b: Bytes, q: nat)
    requires AllFit(ops) && Replay(wire, ops).Ok? && OpFits(Acked(acked)) && OpFits(Submitted(n, b))
    ensures var all := (ops + [Acked(acked)]) + [Submitted(n, b)];
      && AllFit(all)
      && (EndsWithin(crc, all, q, |OpsBytes(crc, all)| - ACK_RECORD_BYTES) <==> q in Replay(wire, ops).value)
  {
    hide OpsBytes, OpBytes, Replay;
    var mid, all := ops + [Acked(acked)], (ops + [Acked(acked)]) + [Submitted(n, b)];
    OpsBytesSnoc(crc, ops, Acked(acked));
    OpsBytesSnoc(crc, mid, Submitted(n, b));
    AckRecordSize(crc, acked);
    var k := |OpsBytes(crc, all)| - ACK_RECORD_BYTES;
    ReplayKeys(wire, ops, q);
    assert all[..|all|] == all;
    if StagedBefore(ops, |ops|, q) {
      var i :| i < |ops| && Stages(ops, i, q);
      FilePrefix(crc, ops, i + 1);
      assert all[..i + 1] == ops[..i + 1] && Stages(all, i, q);
    }
    if EndsWithin(crc, all, q, k) {
      var i :| Stages(all, i, q) && |OpsBytes(crc, all[..i + 1])| <= k;
      assert Stages(ops, i, q);
    }
  }

  lemma {:induction false} MarkTraced(cfg: Config, s: Store, ops: seq<Op>, acked: nat)
    requires Traced(cfg, s, ops, 0) && acked < U64_LIMIT && Mark(cfg, s, cfg.epoch, acked, SyncFailed).1 == Err(Io)
    ensures Traced(cfg, Mark(cfg, s, cfg.epoch, acked, SyncFailed).0, ops + [Acked(acked)], 1)
    ensures Mark(cfg, s, cfg.epoch, acked, SyncFailed).0.entries == s.entries
  {
    hide Traced, OpBytes, SoundWire;
    TracedStep(cfg, s, ops, 0, MarkCall(cfg.epoch, acked, SyncFailed));
  }

  lemma {:induction false} StageTraced(cfg: Config, s: Store, ops: seq<Op>, b: Bytes)
    requires Traced(cfg, s, ops, 1) && Stage(cfg, s, b, Synced).1 == Ok(|s.entries|)
    ensures OpFits(Submitted(|s.entries|, b))
    ensures Traced(cfg, Stage(cfg, s, b, Synced).0, ops + [Submitted(|s.entries|, b)], 1)
    ensures Stage(cfg, s, b, Synced).0.entries == s.entries[|s.entries| := Pending(b)]
    ensures AllFit(ops + [Submitted(|s.entries|, b)])
    ensures Stage(cfg, s, b, Synced).0.file == OpsBytes(cfg.crc, ops + [Submitted(|s.entries|, b)])
  {
    hide OpBytes, OpsBytes, Replay, SameSubmissions;
    TracedStep(cfg, s, ops, 1, StageCall(b, Synced));
  }

  /** Whenever an acknowledgement's sync fails after its write, the next submission `b` is
      staged with success, and the stage after that fails its sync, the roll-back cuts the
      file inside the record of `b`: memory still holds it, but reopening has forgotten it
      and hands out its sequence again. */
  lemma {:induction false} StagedThenForgotten(cfg: Config, s: Store, acked: nat, s1: Store, b: Bytes, s2: Store,
          c: Bytes, s3: Store)
    requires InStep(cfg, s) && acked < U64_LIMIT
    requires Mark(cfg, s, cfg.epoch, acked, SyncFailed) == (s1, Err(Io))
    requires Stage(cfg, s1, b, Synced) == (s2, Ok(|s.entries|))
    requires Stage(cfg, s2, c, SyncFailed) == (s3, Err(Io))
    ensures |s.entries| in s3.entries && s3.entries[|s.entries|] == Pending(b)
    ensures Reopens(cfg, s3.file) && |s.entries| !in Reopened(cfg, s3.file)
    ensures NextSequence(Reopened(cfg, s3.file)) == Ok(|s.entries|)
  {
    hide OpBytes, OpsBytes, Stage, Mark, Scan, SoundWire, Traced, EndsWithin, Replay, AllFit;
    var n := |s.entries|;
    var ops := InStepTraced(cfg, s);
    MarkTraced(cfg, s, ops, acked);
    StageTraced(cfg, s1, ops + [Acked(acked)], b);
    var all := (ops + [Acked(acked)]) + [Submitted(n, b)];
    CutForgetsExactly(cfg, s2, all, 1, c);
    forall q: nat ensures q in Reopened(cfg, s3.file) <==> q in s.entries {
      LastIsCut(cfg.crc, cfg.wire, ops, acked, n, b, q);
    }
    assert Reopened(cfg, s3.file).Keys == s.entries.Keys;
  }
}
