/** The outbox as the object the client holds, and opening it from its file. */
module OutboxClass {
  import opened Prelude
  import opened OutboxWal
  import opened ProducerOutbox

  /** Reads a file record by record, stopping at one that is not all there. */
  method ScanWal(crc: Crc, wire: WireCodec, bytes: Bytes) returns (r: Result<Scanned, OutboxError>)
    ensures r == Scan(crc, wire, map[], bytes)
  {
    hide ApplyOp, FirstOp, FirstSize;
    var entries: Entries := map[];
    var cursor := 0;
    assert bytes[0..] == bytes;
    while cursor < |bytes|
      invariant cursor <= |bytes|
      invariant Scan(crc, wire, map[], bytes) == Onward(cursor, Scan(crc, wire, entries, bytes[cursor..]))
    {
      var rest := bytes[cursor..];
      if !Whole(rest) { return Ok(Scanned(entries, cursor)); }
      var op := FirstOp(crc, rest);
      if op.Err? { return Err(op.error); }
      var applied := ApplyOp(wire, entries, op.value);
      if applied.Err? { return Err(applied.error); }
      entries := applied.value;
      assert rest[FirstSize(rest)..] == bytes[cursor + FirstSize(rest)..];
      cursor := cursor + FirstSize(rest);
    }
    ScanEmpty(crc, wire, entries);
    return Ok(Scanned(entries, cursor));
  }

  class Outbox {
    const cfg: Config
    var entries: Entries
    var used: nat
    var file: Bytes

    function State(): Store
      reads this
    {
      Store(entries, used, file)
    }

    // After opening, the outbox holds what the scan accepted and the file nothing more.
    constructor (cfg: Config, bytes: Bytes, scanned: Scanned)
      requires SoundWire(cfg.wire) && Scan(cfg.crc, cfg.wire, map[], bytes) == Ok(scanned)
      ensures this.cfg == cfg && State() == Store(scanned.entries, scanned.used, bytes[..scanned.used])
      ensures InStep(cfg, State())
    {
      this.cfg := cfg;
      entries, used, file := scanned.entries, scanned.used, bytes[..scanned.used];
      new;
      ScanAgain(cfg.crc, cfg.wire, map[], bytes);
      ScanDense(cfg.crc, cfg.wire, map[], bytes);
    }

    /** Makes one Submit frame durable, byte for byte, ahead of any attempt to forward it. */
    method StageSubmit(submit: Bytes, disk: Disk) returns (r: Result<nat, OutboxError>)
      requires SoundWire(cfg.wire)
      modifies this
      ensures (State(), r) == Stage(cfg, old(State()), submit, disk)
    {
      hide OpBytes, Written;
      var carried := cfg.wire.sequenceOf(submit);
      if carried.Err? { return Err(carried.error); }
      var sequence := carried.value;
      if sequence in entries {
        if entries[sequence].submit == submit { return Ok(sequence); }
        return Err(IdentityConflict(sequence));
      }
      var expected := NextSequence(entries);
      if expected.Err? { return Err(expected.error); }
      if sequence != expected.value { return Err(OutOfSequence(expected.value, sequence)); }
      assert OpFits(Submitted(sequence, submit));
      hide SoundWire, OpFits;
      var record := OpBytes(cfg.crc, Submitted(sequence, submit));
      if used + |record| > cfg.max { return Err(CapacityExceeded(used, |record|, cfg.max)); }
      file := file + Written(record, disk);
      if disk.WriteFailed? { return Err(Io); }
      if disk == SyncFailed {
        if used <= |file| { file := file[..used]; }
        return Err(Io);
      }
      used := used + |record|;
      entries := entries[sequence := Pending(submit)];
      return Ok(sequence);
    }

    /** Retires a pending submission once an ACK of this epoch names it. */
    method MarkCommitted(epoch: nat, sequence: nat, disk: Disk) returns (r: Result<(), OutboxError>)
      modifies this
      ensures (State(), r) == Mark(cfg, old(State()), epoch, sequence, disk)
    {
      if epoch != cfg.epoch { return Err(EpochMismatch(cfg.epoch, epoch)); }
      if sequence !in entries || sequence >= U64_LIMIT { return Err(UnknownSequence(sequence)); }
      if entries[sequence].Acknowledged? { return Ok(()); }
      var record := OpBytes(cfg.crc, Acked(sequence));
      hide OpBytes;
      if used + |record| > cfg.max { return Err(CapacityExceeded(used, |record|, cfg.max)); }
      file := file + Written(record, disk);
      if disk != Synced { return Err(Io); }
      used := used + |record|;
      entries := entries[sequence := Acknowledged(entries[sequence].submit)];
      return Ok(());
    }

    /** Unfinished submissions in sequence order. */
    method PendingSubmissions() returns (p: seq<(nat, Bytes)>)
      requires Dense(entries)
      ensures p == PendingFrom(entries, 0)
    {
      p := [];
      for k := 0 to |entries|
        invariant PendingFrom(entries, 0) == p + PendingFrom(entries, k)
      {
        if entries[k].Pending? {
          ConcatAssoc(p, [(k, entries[k].submit)], PendingFrom(entries, k + 1));
          p := p + [(k, entries[k].submit)];
        }
      }
      assert p + [] == p;
    }
  }

  /** Opens an outbox from its file, cutting off a record that is not all there. */
  method Open(cfg: Config, bytes: Bytes) returns (r: Result<Outbox, OutboxError>)
    requires SoundWire(cfg.wire)
    ensures cfg.max == 0 ==> r == Err(InvalidCapacity)
    ensures cfg.max > 0 ==>
      match Scan(cfg.crc, cfg.wire, map[], bytes)
      case Err(e) => r == Err(e)
      case Ok(s) =>
        && r.Ok? && fresh(r.value) && r.value.cfg == cfg && InStep(cfg, r.value.State())
        && r.value.State() == Store(s.entries, s.used, bytes[..s.used])
  {
    if cfg.max == 0 { return Err(InvalidCapacity); }
    var scanned := ScanWal(cfg.crc, cfg.wire, bytes);
    if scanned.Err? { return Err(scanned.error); }
    var outbox := new Outbox(cfg, bytes, scanned.value);
    return Ok(outbox);
  }
}
