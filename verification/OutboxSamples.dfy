/** Outboxes small enough to follow by hand, in which each of the outbox's failures happens. */
module OutboxSamples {
  import opened Prelude
  import opened BatchCodec
  import opened OutboxWal
  import opened ProducerOutbox
  import opened OutboxRuns
  import opened OutboxForget

  // A submission is one byte, its sequence.
  const ONE_BYTE_WIRE: WireCodec :=
    WireCodec((s: nat, rs: seq<Bytes>) => if s < 256 then Some([s as byte]) else None, (b: Bytes) => if |b| == 1
        then Ok(b[0]) else Err(NotSubmit))

  function Small(max: nat): Config { Config(_ => 0, ONE_BYTE_WIRE, 1, max) }

  const SMALL_OUTBOX: Config := Small(1000)

  lemma {:induction false} OneByteIsSound()
    ensures SoundWire(ONE_BYTE_WIRE)
  {
  }

  // Submission 0 is staged, in an outbox that was empty.
  lemma {:induction false} FirstStaged(max: nat) returns (s: Store)
    requires max >= 22
    ensures SoundWire(ONE_BYTE_WIRE) && Stage(Small(max), Store(map[], 0, []), [0], Synced) == (s, Ok(0))
    ensures InStep(Small(max), s) && s.entries == map[0 := Pending([0])] && s.used == 22
  {
    OneByteIsSound();
    var cfg, empty := Small(max), Store(map[], 0, []);
    ScanEmpty(cfg.crc, ONE_BYTE_WIRE, map[]);
    assert InStep(cfg, empty);
    SubmitRecordSize(cfg.crc, 0, [0]);
    hide OpBytes, SoundWire, Scan;
    InStepExactly(cfg, empty, StageCall([0], Synced));
    s := Stage(cfg, empty, [0], Synced).0;
    assert ONE_BYTE_WIRE.sequenceOf([0]) == Ok(0);
    assert Step(cfg, empty, StageCall([0], Synced)) == s;
  }

  lemma {:induction false} SmallStage(s: Store, b: byte)
    requires SoundWire(ONE_BYTE_WIRE) && |s.entries| == b && b !in s.entries && s.used + 22 <= 1000
    ensures Stage(SMALL_OUTBOX, s, [b], Synced).1 == Ok(b) && Stage(SMALL_OUTBOX, s, [b], SyncFailed).1 == Err(Io)
    ensures Stage(SMALL_OUTBOX, s, [b], Synced).0.entries == s.entries[b := Pending([b])] &&
      Stage(SMALL_OUTBOX, s, [b], Synced).0.used == s.used + 22
  {
    SubmitRecordSize(SMALL_OUTBOX.crc, b, [b]);
    hide OpBytes, SoundWire;
    assert ONE_BYTE_WIRE.sequenceOf([b]) == Ok(b);
  }

  lemma {:induction false} SmallMark(s: Store)
    requires s.entries == map[0 := Pending([0])] && s.used == 22
    ensures var (after, r) := Mark(SMALL_OUTBOX, s, 1, 0, SyncFailed);
      r == Err(Io) && after.entries == s.entries && after.used == 22
  {
    AckRecordSize(SMALL_OUTBOX.crc, 0);
    hide OpBytes;
  }

  /** Such a run: submission 0 staged, its ACK record written but not synced, submission 1
      staged, submission 2 rolled back. Reopened, the outbox has forgotten submission 1 and
      hands out its sequence again. */
  lemma {:induction false} ForgottenSubmission() returns (s: Store, s1: Store, s2: Store, s3: Store)
    ensures SoundWire(ONE_BYTE_WIRE) && InStep(SMALL_OUTBOX, s) && s.entries == map[0 := Pending([0])]
    ensures Mark(SMALL_OUTBOX, s, 1, 0, SyncFailed) == (s1, Err(Io))
    ensures Stage(SMALL_OUTBOX, s1, [1], Synced) == (s2, Ok(1)) &&
      Stage(SMALL_OUTBOX, s2, [2], SyncFailed) == (s3, Err(Io))
    ensures 1 in s3.entries && Reopens(SMALL_OUTBOX, s3.file) && 1 !in Reopened(SMALL_OUTBOX, s3.file)
    ensures NextSequence(Reopened(SMALL_OUTBOX, s3.file)) == Ok(1)
  {
    hide OpBytes, SoundWire, Scan, InStep, Stage, Mark;
    s := FirstStaged(1000);
    SmallMark(s);
    s1 := Mark(SMALL_OUTBOX, s, 1, 0, SyncFailed).0;
    assert |s.entries| == 1;
    SmallStage(s1, 1);
    s2 := Stage(SMALL_OUTBOX, s1, [1], Synced).0;
    assert |s2.entries| == 2;
    SmallStage(s2, 2);
    s3 := Stage(SMALL_OUTBOX, s2, [2], SyncFailed).0;
    StagedThenForgotten(SMALL_OUTBOX, s, 0, s1, [1], s2, [2], s3);
  }

  lemma {:induction false} FirstRecord(crc: Crc)
    requires crc == SMALL_OUTBOX.crc
    ensures var record := OpBytes(crc, Submitted(0, [0])); |record| == 22 && record[14..18] == [0, 0, 1, 0]
  {
    SubmitRecordSize(crc, 0, [0]);
    assert U32Bytes(1) == [0, 0, 0, 1];
    hide U32Bytes, U64Bytes;
    var body := Body(Submitted(0, [0]));
    assert body == [RECORD_SUBMIT] + (U64Bytes(0) + (U32Bytes(1) + [0]));
    assert body[10..14] == [0, 0, 1, 0];
  }

  lemma {:induction false} TornStages() returns (torn: Store, after: Store)
    ensures SoundWire(ONE_BYTE_WIRE) && OpFits(Submitted(0, [0])) &&
      |OpBytes(SMALL_OUTBOX.crc, Submitted(0, [0]))| == 22
    ensures Stage(SMALL_OUTBOX, Store(map[], 0, []), [0], WriteFailed(4)) == (torn, Err(Io))
    ensures Stage(SMALL_OUTBOX, torn, [0], Synced) == (after, Ok(0))
    ensures var record := OpBytes(SMALL_OUTBOX.crc, Submitted(0, [0])); after.file == record[..4] + record
  {
    OneByteIsSound();
    SubmitRecordSize(SMALL_OUTBOX.crc, 0, [0]);
    hide OpBytes, SoundWire;
    assert ONE_BYTE_WIRE.sequenceOf([0]) == Ok(0);
    torn := Stage(SMALL_OUTBOX, Store(map[], 0, []), [0], WriteFailed(4)).0;
    after := Stage(SMALL_OUTBOX, torn, [0], Synced).0;
    var record := OpBytes(SMALL_OUTBOX.crc, Submitted(0, [0]));
    assert [] + record[..4] == record[..4];
  }

  /** Such a run: only four bytes of submission 0 reach the file, it is staged again with
      success, and the outbox that holds it can no longer be opened. */
  lemma {:induction false} TornThenCorrupt() returns (torn: Store, after: Store)
    ensures SoundWire(ONE_BYTE_WIRE)
    ensures Stage(SMALL_OUTBOX, Store(map[], 0, []), [0], WriteFailed(4)) == (torn, Err(Io))
    ensures Stage(SMALL_OUTBOX, torn, [0], Synced) == (after, Ok(0))
    ensures Scan(SMALL_OUTBOX.crc, ONE_BYTE_WIRE, map[], after.file) == Err(Corrupt("record checksum"))
  {
    hide OpBytes, SoundWire, Stage, Scan, ScanSpliced;
    torn, after := TornStages();
    var record := OpBytes(SMALL_OUTBOX.crc, Submitted(0, [0]));
    FirstRecord(SMALL_OUTBOX.crc);
    TornExactly(SMALL_OUTBOX, [], Submitted(0, [0]), 4, record);
    var b := record[..4] + record;
    assert [] + b == b;
    assert b[18..22] == record[14..18];
  }

  /** An outbox with room for one submission and no more: its first submission is staged with
      success, and no acknowledgement, whatever calls follow, ever retires it. */
  lemma {:induction false} StuckOutbox(calls: seq<Call>) returns (s: Store)
    ensures SoundWire(ONE_BYTE_WIRE) && Stage(Small(22), Store(map[], 0, []), [0], Synced) == (s, Ok(0))
    ensures InStep(Small(22), s) && s.entries == map[0 := Pending([0])]
    ensures After(Small(22), s, calls).entries == map[0 := Pending([0])]
  {
    hide After, SoundWire, Stage, Scan;
    s := FirstStaged(22);
    StuckForever(Small(22), s, calls);
  }
}
