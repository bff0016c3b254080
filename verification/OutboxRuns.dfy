/** What the outbox keeps over every run: bytes never change, reopening recovers memory
    exactly while no failed write strays, and what goes wrong when one does. */
module OutboxRuns {
  import opened Prelude
  import opened OutboxWal
  import opened ProducerOutbox

  // Sequences keep their bytes, and an acknowledgement is never taken back.
  ghost predicate Grows(before: Entries, after: Entries) {
    forall k :: k in before ==>
      && k in after && after[k].submit == before[k].submit
      && (before[k].Acknowledged? ==> after[k].Acknowledged?)
  }

  lemma {:induction false} GrowsTransitive(a: Entries, b: Entries, c: Entries)
    requires Grows(a, b) && Grows(b, c)
    ensures Grows(a, c)
  {
  }

  // A call that writes applies exactly its record when synced, and nothing otherwise.
  lemma {:induction false} StepIs(cfg: Config, s: Store, c: Call)
    requires SoundWire(cfg.wire) && Dense(s.entries) && |s.entries| <= U64_LIMIT
    ensures Writes(cfg, s, c).None? ==> Step(cfg, s, c) == s
    ensures Writes(cfg, s, c).Some? ==>
      var op := Writes(cfg, s, c).value;
      && OpFits(op) && ApplyOp(cfg.wire, s.entries, op).Ok?
      && (var file := s.file + Written(OpBytes(cfg.crc, op), c.disk);
          match c.disk
          case Synced =>
            Step(cfg, s, c) == Store(ApplyOp(cfg.wire, s.entries, op).value, s.used + |OpBytes(cfg.crc, op)|, file)
          case WriteFailed(_) => Step(cfg, s, c) == s.(file := file)
          case SyncFailed =>
            Step(cfg, s, c) == s.(file := if c.StageCall? && s.used <= |file| then file[..s.used] else file))
  {
    hide OpBytes;
    if c.StageCall? { assert cfg.wire.sequenceOf(c.submit).Ok? || cfg.wire.sequenceOf(c.submit).error != Io; }
  }

  lemma {:induction false} StepGrows(cfg: Config, s: Store, c: Call)
    requires SoundWire(cfg.wire) && Dense(s.entries) && |s.entries| <= U64_LIMIT
    ensures Dense(Step(cfg, s, c).entries) && |Step(cfg, s, c).entries| <= U64_LIMIT
    ensures Grows(s.entries, Step(cfg, s, c).entries)
  {
    hide Step, Writes, Written, OpBytes, SoundWire, OpFits, Dense;
    StepIs(cfg, s, c);
    if Writes(cfg, s, c).Some? { AppliedOpFits(cfg.wire, s.entries, Writes(cfg, s, c).value); }
  }

  /** A call keeps the file in step with memory exactly when it leaves no stray bytes. */
  lemma {:induction false} InStepExactly(cfg: Config, s: Store, c: Call)
    requires InStep(cfg, s)
    ensures InStep(cfg, Step(cfg, s, c)) <==> !Strays(cfg, s, c)
  {
    hide Writes, Step, Scan, ApplyOp, OpBytes, Dense, SoundWire, OpFits, Grows;
    StepIs(cfg, s, c);
    StepGrows(cfg, s, c);
    if Writes(cfg, s, c).Some? {
      var op := Writes(cfg, s, c).value;
      AppendScans(cfg, s, op, |OpBytes(cfg.crc, op)|);
      OpBytesNotEmpty(cfg.crc, op);
      var after := Step(cfg, s, c);
      if c.disk == SyncFailed && c.StageCall? {
        assert after.file == s.file;
      } else if c.disk.WriteFailed? && c.disk.k == 0 {
        assert after.file == s.file;
      }
    }
  }

  lemma {:induction false} OpBytesNotEmpty(crc: Crc, op: Op)
    requires OpFits(op)
    ensures |OpBytes(crc, op)| > 0
  {
  }

  // Runs. ----------------------------------------------------------------------------------

  function After(cfg: Config, s: Store, calls: seq<Call>): Store
    requires SoundWire(cfg.wire)
  {
    if calls == [] then s else Step(cfg, After(cfg, s, calls[..|calls| - 1]), calls[|calls| - 1])
  }

  ghost predicate NoneStrays(cfg: Config, s: Store, calls: seq<Call>)
    requires SoundWire(cfg.wire)
  {
    forall i :: 0 <= i < |calls| ==> !Strays(cfg, After(cfg, s, calls[..i]), calls[i])
  }

  /** Over every run in which no failed write strays, with stages rolled back, refused or
      repeated in any pattern, reopening recovers memory exactly, and every sequence ever
      staged keeps its bytes and its acknowledgement. */
  lemma {:induction false} RunsStayInStep(cfg: Config, s: Store, calls: seq<Call>)
    requires InStep(cfg, s) && NoneStrays(cfg, s, calls)
    ensures InStep(cfg, After(cfg, s, calls)) && Grows(s.entries, After(cfg, s, calls).entries)
  {
    if calls != [] {
      var front := calls[..|calls| - 1];
      assert NoneStrays(cfg, s, front) by {
        forall i | 0 <= i < |front| ensures !Strays(cfg, After(cfg, s, front[..i]), front[i]) {
          assert front[..i] == calls[..i] && front[i] == calls[i];
        }
      }
      RunsStayInStep(cfg, s, front);
      hide Step, Strays, Scan, Dense, SoundWire;
      var mid := After(cfg, s, front);
      StepGrows(cfg, mid, calls[|calls| - 1]);
      InStepExactly(cfg, mid, calls[|calls| - 1]);
      GrowsTransitive(s.entries, mid.entries, After(cfg, s, calls).entries);
    }
  }

  // Rolling back. ---------------------------------------------------------------------------

  lemma {:induction false} StageRollsBack(cfg: Config, s: Store, submit: Bytes)
    requires SoundWire(cfg.wire) && Dense(s.entries) && s.used <= |s.file| &&
      Stage(cfg, s, submit, SyncFailed).1 == Err(Io)
    ensures Stage(cfg, s, submit, SyncFailed).0 == s.(file := s.file[..s.used])
  {
    hide OpBytes;
    assert cfg.wire.sequenceOf(submit).Ok?;
    var record := OpBytes(cfg.crc, Submitted(cfg.wire.sequenceOf(submit).value, submit));
    assert (s.file + record)[..s.used] == s.file[..s.used];
  }

  // Capacity. --------------------------------------------------------------------------------

  // Marking each of `list` in turn, with no disk fault.
  ghost predicate RetiresAll(cfg: Config, s: Store, list: seq<nat>)
    decreases |list|
  {
    list != [] ==>
        (Mark(cfg, s, cfg.epoch, list[0], Synced).1.Ok? &&
        RetiresAll(cfg, Mark(cfg, s, cfg.epoch, list[0], Synced).0, list[1..]))
  }

  /** Staging reserves no room for the acknowledgement to come: a set of pending
      submissions can all be retired exactly when 17 bytes are left for each. */
  lemma {:induction false} RetireExactly(cfg: Config, s: Store, list: seq<nat>)
    requires Distinct(list) && s.used <= cfg.max
    requires forall i :: 0 <= i < |list| ==> list[i] in s.entries && list[i] < U64_LIMIT && s.entries[list[i]].Pending?
    ensures RetiresAll(cfg, s, list) <==> s.used + ACK_RECORD_BYTES * |list| <= cfg.max
    decreases |list|
  {
    if list != [] {
      AckRecordSize(cfg.crc, list[0]);
      var s1 := Mark(cfg, s, cfg.epoch, list[0], Synced).0;
      hide OpBytes;
      if Mark(cfg, s, cfg.epoch, list[0], Synced).1.Ok? {
        forall i | 0 <= i < |list[1..]| ensures list[1..][i] in s1.entries && list[1..][i] < U64_LIMIT &&
            s1.entries[list[1..][i]].Pending? {
          assert list[1..][i] == list[i + 1] && list[0] != list[i + 1];
        }
        RetireExactly(cfg, s1, list[1..]);
      }
    }
  }

  /** With less room than one acknowledgement the outbox is stuck: no call, ever again,
      changes an entry, so what is pending stays pending whatever the Scribe answers. */
  lemma {:induction false} StuckForever(cfg: Config, s: Store, calls: seq<Call>)
    requires SoundWire(cfg.wire) && Dense(s.entries) && |s.entries| <= U64_LIMIT && s.used + ACK_RECORD_BYTES > cfg.max
    ensures After(cfg, s, calls).entries == s.entries && After(cfg, s, calls).used == s.used
  {
    if calls != [] {
      var front, c := calls[..|calls| - 1], calls[|calls| - 1];
      StuckForever(cfg, s, front);
      StuckOnce(cfg, After(cfg, s, front), c);
    }
  }

  lemma {:induction false} StuckOnce(cfg: Config, s: Store, c: Call)
    requires SoundWire(cfg.wire) && Dense(s.entries) && |s.entries| <= U64_LIMIT && s.used + ACK_RECORD_BYTES > cfg.max
    ensures Step(cfg, s, c) == s
  {
    if c.StageCall? {
      if cfg.wire.sequenceOf(c.submit).Ok? {
        var sequence := cfg.wire.sequenceOf(c.submit).value;
        if sequence < U64_LIMIT { SubmitRecordSize(cfg.crc, sequence, c.submit); }
      }
    } else if c.sequence < U64_LIMIT {
      AckRecordSize(cfg.crc, c.sequence);
    }
    hide OpBytes;
  }
}
