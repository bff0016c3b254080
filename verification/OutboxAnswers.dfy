/** What the outbox answers to each call, and which histories it accepts, from the records
    alone. */
module OutboxAnswers {
  import opened Prelude
  import opened OutboxWal
  import opened ProducerOutbox
  import opened OutboxForget

  // Calls. -----------------------------------------------------------------------------------------

  // The outbox holds exactly these bytes under the sequence.
  predicate Holds(entries: Entries, sequence: nat, submit: Bytes) {
    sequence in entries && entries[sequence].submit == submit
  }

  /** A stage that succeeds leaves the outbox holding these very bytes under the sequence they
      carry, and changes nothing else. It does so exactly when the outbox held them already,
      or they carry the next sequence, their record fits and its write is synced. Other bytes
      for a sequence it holds are a conflict, and any sequence but the next is out of order. */
  lemma {:induction false} StageExactly(cfg: Config, s: Store, submit: Bytes, disk: Disk)
    requires SoundWire(cfg.wire) && Dense(s.entries) && |s.entries| <= U64_LIMIT
    ensures var (after, r) := Stage(cfg, s, submit, disk);
      var carried, n, size := cfg.wire.sequenceOf(submit), |s.entries|, 21 + |submit|;
      if carried.Err? then after == s && r == Err(carried.error) else
        var q := carried.value;
        && (r.Ok? <==> Holds(after.entries, q, submit)) && (r.Ok? ==> r.value == q)
        && (forall k :: k in s.entries ==> k in after.entries && after.entries[k] == s.entries[k])
        && (forall k :: k in after.entries && k !in s.entries ==> k == q == n && after.entries[k] == Pending(submit))
        && (Holds(after.entries, q, submit) <==>
            Holds(s.entries, q, submit) || (q == n && s.used + size <= cfg.max && disk == Synced))
        && (r == Err(IdentityConflict(q)) <==> q < n && !Holds(s.entries, q, submit))
        && (r == Err(OutOfSequence(n, q)) <==> q > n)
        && (r == Err(CapacityExceeded(s.used, size, cfg.max)) <==> q == n && s.used + size > cfg.max)
        && (r == Err(Io) <==> q == n && s.used + size <= cfg.max && disk != Synced)
  {
    hide OpBytes;
    if cfg.wire.sequenceOf(submit).Ok? {
      SubmitRecordSize(cfg.crc, cfg.wire.sequenceOf(submit).value, submit);
    }
  }

  /** A mark that succeeds leaves the submission acknowledged with its bytes and changes
      nothing else; it does so exactly for this producer's epoch and a sequence it holds, when
      that is acknowledged already or 17 bytes fit and their write is synced. */
  lemma {:induction false} MarkExactly(cfg: Config, s: Store, epoch: nat, sequence: nat, disk: Disk)
    requires Dense(s.entries) && |s.entries| <= U64_LIMIT
    ensures var (after, r) := Mark(cfg, s, epoch, sequence, disk);
      && (r.Ok? <==> epoch == cfg.epoch && sequence in after.entries && after.entries[sequence].Acknowledged?)
      && after.entries.Keys == s.entries.Keys
      && (forall k :: k in s.entries ==> after.entries[k].submit == s.entries[k].submit)
      && (forall k :: k in s.entries && k != sequence ==> after.entries[k] == s.entries[k])
      && (r == Err(EpochMismatch(cfg.epoch, epoch)) <==> epoch != cfg.epoch)
      && (r == Err(UnknownSequence(sequence)) <==> epoch == cfg.epoch && sequence !in s.entries)
      && (sequence in s.entries && epoch == cfg.epoch && s.entries[sequence].Pending? ==>
            && (r == Err(CapacityExceeded(s.used, 17, cfg.max)) <==> s.used + 17 > cfg.max)
            && (r == Err(Io) <==> s.used + 17 <= cfg.max && disk != Synced)
            && (r.Ok? <==> s.used + 17 <= cfg.max && disk == Synced))
      && (sequence in s.entries && s.entries[sequence].Acknowledged? ==> after == s)
  {
    hide OpBytes;
    if sequence < U64_LIMIT { AckRecordSize(cfg.crc, sequence); }
  }

  // Histories. --------------------------------------------------------------------------------------

  predicate Retires(ops: seq<Op>, i: int, q: nat) {
    0 <= i < |ops| && ops[i].Acked? && ops[i].sequence == q
  }

  ghost predicate RetiredBefore(ops: seq<Op>, m: nat, q: nat) {
    exists i :: i < m && Retires(ops, i, q)
  }

  /** What a history must be like at record `i`: a submission carries its own sequence, and
      either repeats, byte for byte, every earlier record of that sequence, or is the first
      and every smaller sequence came before it; an acknowledgement follows a submission. */
  ghost predicate Follows(wire: WireCodec, ops: seq<Op>, i: nat)
    requires i < |ops|
  {
    match ops[i]
    case Submitted(q, submit) =>
      && wire.sequenceOf(submit) == Ok(q)
      && (forall j :: j < i && Stages(ops, j, q) ==> ops[j].submit == submit)
      && (StagedBefore(ops, i, q) || forall p :: 0 <= p < q ==> StagedBefore(ops, i, p))
    case Acked(q) => StagedBefore(ops, i, q)
  }

  ghost predicate Consistent(wire: WireCodec, ops: seq<Op>) {
    forall i :: 0 <= i < |ops| ==> Follows(wire, ops, i)
  }

  // What replaying leaves, entry by entry.
  ghost predicate Tells(ops: seq<Op>, entries: Entries) {
    && (forall q: nat :: q in entries <==> StagedBefore(ops, |ops|, q))
    && (forall q: nat :: RetiredBefore(ops, |ops|, q) ==> q in entries)
    && (forall j, q: nat :: Stages(ops, j, q) && q in entries ==> entries[q].submit == ops[j].submit)
    && (forall q: nat :: q in entries ==> (entries[q].Acknowledged? <==> RetiredBefore(ops, |ops|, q)))
  }

  // One more record. -------------------------------------------------------------------------------

  lemma {:induction false} StagesSnoc(front: seq<Op>, op: Op, q: nat)
    ensures var ops := front + [op];
      && (StagedBefore(ops, |front|, q) <==> StagedBefore(front, |front|, q))
      && (StagedBefore(ops, |ops|, q) <==>
           StagedBefore(front, |front|, q) || (op.Submitted? && op.sequence == q))
      && (RetiredBefore(ops, |ops|, q) <==> RetiredBefore(front, |front|, q) || (op.Acked? && op.sequence == q))
      && forall j :: j < |front| ==> (Stages(ops, j, q) <==> Stages(front, j, q))
  {
    var ops := front + [op];
    assert forall j :: j < |front| ==> (Stages(ops, j, q) <==> Stages(front, j, q));
    assert forall j :: j < |front| ==> (Retires(ops, j, q) <==> Retires(front, j, q));
    assert Stages(ops, |front|, q) <==> op.Submitted? && op.sequence == q;
    assert Retires(ops, |front|, q) <==> op.Acked? && op.sequence == q;
    if StagedBefore(front, |front|, q) {
      var j :| j < |front| && Stages(front, j, q);
      assert Stages(ops, j, q);
    }
    if RetiredBefore(front, |front|, q) {
      var j :| j < |front| && Retires(front, j, q);
      assert Retires(ops, j, q);
    }
  }

  lemma {:induction false} FollowsEarlier(wire: WireCodec, front: seq<Op>, op: Op, i: nat)
    requires i < |front|
    ensures Follows(wire, front + [op], i) <==> Follows(wire, front, i)
  {
    var ops := front + [op];
    assert ops[i] == front[i];
    forall q: nat ensures StagedBefore(ops, i, q) <==> StagedBefore(front, i, q) {
      assert forall j :: j < i ==> (Stages(ops, j, q) <==> Stages(front, j, q));
    }
    hide StagedBefore;
    assert forall j :: j < i && Stages(front, j, front[i].sequence) ==> ops[j] == front[j];
    assert forall j :: j < i ==> (Stages(ops, j, front[i].sequence) <==> Stages(front, j, front[i].sequence));
  }

  lemma {:induction false} ConsistentSnoc(wire: WireCodec, front: seq<Op>, op: Op)
    ensures Consistent(wire, front + [op]) <==> Consistent(wire, front) && Follows(wire, front + [op], |front|)
  {
    hide Follows;
    forall i | 0 <= i < |front| ensures Follows(wire, front + [op], i) <==> Follows(wire, front, i) {
      FollowsEarlier(wire, front, op, i);
    }
  }

  // The bytes of a sequence are those of any record that stages it.
  lemma {:induction false} BytesTold(front: seq<Op>, entries: Entries, q: nat) returns (j: int)
    requires Tells(front, entries) && q in entries
    ensures j < |front| && Stages(front, j, q) && entries[q].submit == front[j].submit
  {
    j :| j < |front| && Stages(front, j, q);
  }

  lemma {:induction false} AppliesExactly(wire: WireCodec, front: seq<Op>, entries: Entries, op: Op)
    requires SoundWire(wire) && Dense(entries) && |entries| <= U64_LIMIT && Tells(front, entries)
    ensures ApplyOp(wire, entries, op).Ok? <==> Follows(wire, front + [op], |front|)
  {
    var ops, q := front + [op], op.sequence;
    forall p: nat ensures StagedBefore(ops, |front|, p) <==> p in entries { StagesSnoc(front, op, p); }
    StagesSnoc(front, op, q);
    if op.Submitted? && q in entries {
      var j := BytesTold(front, entries, q);
      assert Stages(ops, j, q);
    } else if op.Submitted? {
      assert forall j :: j < |front| ==> !Stages(ops, j, q);
      assert StagedBefore(ops, |front|, |entries|) <==> |entries| in entries;
    }
  }

  lemma {:induction false} TellsSnoc(wire: WireCodec, front: seq<Op>, entries: Entries, op: Op)
    requires Tells(front, entries) && ApplyOp(wire, entries, op).Ok?
    ensures Tells(front + [op], ApplyOp(wire, entries, op).value)
  {
    var ops, after := front + [op], ApplyOp(wire, entries, op).value;
    forall q: nat ensures
      && (StagedBefore(ops, |ops|, q) <==> StagedBefore(front, |front|, q) || (op.Submitted? && op.sequence == q))
      && (RetiredBefore(ops, |ops|, q) <==> RetiredBefore(front, |front|, q) || (op.Acked? && op.sequence == q))
    {
      StagesSnoc(front, op, q);
    }
    hide StagedBefore, RetiredBefore;
    forall j, q: nat | Stages(ops, j, q) && q in after ensures after[q].submit == ops[j].submit {
      if j < |front| { assert Stages(front, j, q); }
    }
  }

  /** A history is accepted exactly when it is consistent, and what it leaves is told by its
      records: the sequences they stage, with their bytes, acknowledged where a record says
      so. */
  lemma {:induction false} ReplayExactly(wire: WireCodec, ops: seq<Op>)
    requires SoundWire(wire)
    ensures Replay(wire, ops).Ok? <==> Consistent(wire, ops)
    ensures Replay(wire, ops).Ok? ==> Tells(ops, Replay(wire, ops).value)
  {
    if ops != [] {
      var front, op := ops[..|ops| - 1], ops[|ops| - 1];
      assert ops == front + [op];
      ReplayExactly(wire, front);
      ConsistentSnoc(wire, front, op);
      hide Consistent, Follows, Tells, ApplyOp, SoundWire;
      if Replay(wire, front).Ok? {
        ReplayFits(wire, front);
        AppliesExactly(wire, front, Replay(wire, front).value, op);
        if Replay(wire, ops).Ok? { TellsSnoc(wire, front, Replay(wire, front).value, op); }
      }
    }
  }
}
