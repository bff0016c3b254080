/** The producer outbox: staging before sending, retiring after a matching ACK, over a
    file whose writes and syncs may fail. */
module ProducerOutbox {
  import opened Prelude
  import opened OutboxWal

  // What happens to one record's write: it is synced, its sync fails after the write, or
  // only its first `k` bytes reach the file.
  datatype Disk = Synced | SyncFailed | WriteFailed(k: nat)

  datatype Config = Config(crc: Crc, wire: WireCodec, epoch: nat, max: nat)
  datatype Store = Store(entries: Entries, used: nat, file: Bytes)

  const ACK_RECORD_BYTES: nat := 17

  function Written(record: Bytes, disk: Disk): Bytes {
    if disk.WriteFailed? && disk.k < |record| then record[..disk.k] else record
  }

  function Stage(cfg: Config, s: Store, submit: Bytes, disk: Disk): (Store, Result<nat, OutboxError>)
    requires SoundWire(cfg.wire)
  {
    match cfg.wire.sequenceOf(submit)
    case Err(e) => (s, Err(e))
    case Ok(sequence) =>
      if sequence in s.entries then
        (s, if s.entries[sequence].submit == submit then Ok(sequence) else Err(IdentityConflict(sequence)))
      else
        match NextSequence(s.entries)
        case Err(e) => (s, Err(e))
        case Ok(expected) =>
          if sequence != expected then (s, Err(OutOfSequence(expected, sequence))) else
            var record := OpBytes(cfg.crc, Submitted(sequence, submit));
            if s.used + |record| > cfg.max then (s, Err(CapacityExceeded(s.used, |record|, cfg.max)))
            else
              var file := s.file + Written(record, disk);
              match disk
              case WriteFailed(_) => (s.(file := file), Err(Io))
              case SyncFailed => (s.(file := if s.used <= |file| then file[..s.used] else file), Err(Io))
              case Synced => (Store(s.entries[sequence := Pending(submit)], s.used + |record|, file), Ok(sequence))
  }

  function Mark(cfg: Config, s: Store, epoch: nat, sequence: nat, disk: Disk): (Store, Result<(), OutboxError>)
  {
    if epoch != cfg.epoch then (s, Err(EpochMismatch(cfg.epoch, epoch)))
    else if sequence !in s.entries || sequence >= U64_LIMIT then (s, Err(UnknownSequence(sequence)))
    else if s.entries[sequence].Acknowledged? then (s, Ok(()))
    else
      var record := OpBytes(cfg.crc, Acked(sequence));
      if s.used + |record| > cfg.max then (s, Err(CapacityExceeded(s.used, |record|, cfg.max)))
      else
        var file := s.file + Written(record, disk);
        if disk != Synced then (s.(file := file), Err(Io))
        else (Store(s.entries[sequence := Acknowledged(s.entries[sequence].submit)], s.used + |record|, file), Ok(()))
  }

  // The pending submissions from `k` on, in sequence order.
  function PendingFrom(entries: Entries, k: nat): (p: seq<(nat, Bytes)>)
    requires forall i :: k <= i < |entries| ==> i in entries
    ensures forall j :: 0 <= j < |p| ==> k <= p[j].0 < |entries| && entries[p[j].0] == Pending(p[j].1)
    decreases |entries| - k
  {
    if k >= |entries| then []
    else if entries[k].Pending? then [(k, entries[k].submit)] + PendingFrom(entries, k + 1)
    else PendingFrom(entries, k + 1)
  }

  predicate BySequence(p: seq<(nat, Bytes)>) {
    forall i, j :: 0 <= i < j < |p| ==> p[i].0 < p[j].0
  }

  // The list is in strictly ascending order and misses no pending entry.
  lemma {:induction false} PendingFromAscends(entries: Entries, k: nat)
    requires forall i :: k <= i < |entries| ==> i in entries
    ensures BySequence(PendingFrom(entries, k))
    decreases |entries| - k
  {
    if k < |entries| {
      PendingFromAscends(entries, k + 1);
      if entries[k].Pending? { BySequenceCons(k, entries[k].submit, PendingFrom(entries, k + 1)); }
    }
  }

  lemma {:induction false} BySequenceCons(k: nat, submit: Bytes, p: seq<(nat, Bytes)>)
    requires BySequence(p) && forall j :: 0 <= j < |p| ==> k < p[j].0
    ensures BySequence([(k, submit)] + p)
  {
  }

  lemma {:induction false} PendingFromHas(entries: Entries, k: nat, i: nat)
    requires forall i :: k <= i < |entries| ==> i in entries
    requires k <= i < |entries| && entries[i].Pending?
    ensures (i, entries[i].submit) in PendingFrom(entries, k)
    decreases i - k
  {
    if k < i { PendingFromHas(entries, k + 1, i); }
  }

  // Durability. ----------------------------------------------------------------------------

  /** Reopening the file would recover exactly the entries in memory. */
  ghost predicate InStep(cfg: Config, s: Store) {
    && SoundWire(cfg.wire) && Dense(s.entries) && |s.entries| <= U64_LIMIT
    && s.used == |s.file|
    && Scan(cfg.crc, cfg.wire, map[], s.file) == Ok(Scanned(s.entries, |s.file|))
  }

  lemma {:induction false} FirstOfConcat(crc: Crc, a: Bytes, b: Bytes)
    requires Whole(a)
    ensures Whole(a + b) && FirstSize(a + b) == FirstSize(a) && FirstOp(crc, a + b) == FirstOp(crc, a)
    ensures (a + b)[FirstSize(a)..] == a[FirstSize(a)..] + b
  {
    var c, n := a + b, FirstSize(a);
    assert c[..4] == a[..4];
    assert c[4..n - 4] == a[4..n - 4] && c[n - 4..n] == a[n - 4..n];
  }

  // A scan that reads all of `a` goes on into `b`.
  lemma {:induction false} ScanThen(crc: Crc, wire: WireCodec, e: Entries, a: Bytes, b: Bytes)
    requires Scan(crc, wire, e, a).Ok? && Scan(crc, wire, e, a).value.used == |a|
    ensures Scan(crc, wire, e, a + b) == Onward(|a|, Scan(crc, wire, Scan(crc, wire, e, a).value.entries, b))
    decreases |a|
  {
    hide FirstOp, ApplyOp, FirstSize, Whole;
    if a == [] {
      ScanEmpty(crc, wire, e);
      assert a + b == b;
    } else {
      FirstOfConcat(crc, a, b);
      var after := ApplyOp(wire, e, FirstOp(crc, a).value).value;
      ScanThen(crc, wire, after, a[FirstSize(a)..], b);
    }
  }

  // What a scan accepted, scanned again, is accepted whole.
  lemma {:induction false} ScanAgain(crc: Crc, wire: WireCodec, e: Entries, b: Bytes)
    requires Scan(crc, wire, e, b).Ok?
    ensures Scan(crc, wire, e, b[..Scan(crc, wire, e, b).value.used]) == Scan(crc, wire, e, b)
    decreases |b|
  {
    hide FirstOp, ApplyOp, FirstSize, Whole;
    var used := Scan(crc, wire, e, b).value.used;
    if Whole(b) {
      var n := FirstSize(b);
      var after := ApplyOp(wire, e, FirstOp(crc, b).value).value;
      ScanAgain(crc, wire, after, b[n..]);
      FirstOfPrefix(crc, b, used);
    } else {
      ScanEmpty(crc, wire, e);
      assert b[..0] == [];
    }
  }

  lemma {:induction false} FirstOfPrefix(crc: Crc, b: Bytes, k: nat)
    requires Whole(b) && FirstSize(b) <= k <= |b|
    ensures Whole(b[..k]) && FirstSize(b[..k]) == FirstSize(b) && FirstOp(crc, b[..k]) == FirstOp(crc, b)
    ensures b[..k][FirstSize(b)..] == b[FirstSize(b)..][..k - FirstSize(b)]
  {
    var c, n := b[..k], FirstSize(b);
    assert c[..4] == b[..4];
    assert c[4..n - 4] == b[4..n - 4] && c[n - 4..n] == b[n - 4..n];
  }

  lemma {:induction false} ScanDense(crc: Crc, wire: WireCodec, e: Entries, b: Bytes)
    requires SoundWire(wire) && Dense(e) && |e| <= U64_LIMIT && Scan(crc, wire, e, b).Ok?
    ensures Dense(Scan(crc, wire, e, b).value.entries) && |Scan(crc, wire, e, b).value.entries| <= U64_LIMIT
    decreases |b|
  {
    hide FirstOp, ApplyOp, FirstSize, Whole, Dense, SoundWire;
    if Whole(b) {
      var op := FirstOp(crc, b).value;
      AppliedOpFits(wire, e, op);
      ScanDense(crc, wire, ApplyOp(wire, e, op).value, b[FirstSize(b)..]);
    }
  }

  // Appending a record's bytes, or any strict part of them, to a file in step.
  lemma {:induction false} AppendScans(cfg: Config, s: Store, op: Op, k: nat)
    requires InStep(cfg, s) && OpFits(op) && ApplyOp(cfg.wire, s.entries, op).Ok? && k <= |OpBytes(cfg.crc, op)|
    ensures var record := OpBytes(cfg.crc, op);
      && (k < |record| ==> Scan(cfg.crc, cfg.wire, map[], s.file + record[..k]) == Ok(Scanned(s.entries, |s.file|)))
      && Scan(cfg.crc, cfg.wire, map[], s.file + record) ==
           Ok(Scanned(ApplyOp(cfg.wire, s.entries, op).value, |s.file + record|))
  {
    hide Scan, ApplyOp, OpBytes, OpFits;
    var record := OpBytes(cfg.crc, op);
    ScanThen(cfg.crc, cfg.wire, map[], s.file, record[..k]);
    ScanThen(cfg.crc, cfg.wire, map[], s.file, record);
    if k < |record| { ScanTorn(cfg.crc, cfg.wire, s.entries, op, k); }
    ScanRecord(cfg.crc, cfg.wire, s.entries, op, []);
    assert record + [] == record;
    ScanEmpty(cfg.crc, cfg.wire, ApplyOp(cfg.wire, s.entries, op).value);
  }

  datatype Call = StageCall(submit: Bytes, disk: Disk) | MarkCall(epoch: nat, sequence: nat, disk: Disk)

  function Step(cfg: Config, s: Store, c: Call): Store
    requires SoundWire(cfg.wire)
  {
    match c
    case StageCall(submit, disk) => Stage(cfg, s, submit, disk).0
    case MarkCall(epoch, sequence, disk) => Mark(cfg, s, epoch, sequence, disk).0
  }

  // The record a call would write, when it gets as far as writing one.
  function Writes(cfg: Config, s: Store, c: Call): Option<Op>
    requires SoundWire(cfg.wire)
  {
    match c
    case StageCall(submit, _) =>
      if Stage(cfg, s, submit, SyncFailed).1 == Err(Io) then Some(Submitted(|s.entries|, submit)) else None
    case MarkCall(epoch, sequence, _) =>
      if Mark(cfg, s, epoch, sequence, SyncFailed).1 == Err(Io) then Some(Acked(sequence)) else None
  }

  /** The call fails but leaves bytes behind: part of a record, or an ACK record whose
      sync failed. Only a stage whose sync fails is rolled back. */
  ghost predicate Strays(cfg: Config, s: Store, c: Call)
    requires SoundWire(cfg.wire)
  {
    Writes(cfg, s, c).Some? && ((c.disk == SyncFailed && c.MarkCall?) || (c.disk.WriteFailed? && c.disk.k > 0))
  }

  lemma {:induction false} AckRecordSize(crc: Crc, sequence: nat)
    requires sequence < U64_LIMIT
    ensures |OpBytes(crc, Acked(sequence))| == ACK_RECORD_BYTES
  {
  }

  lemma {:induction false} SubmitRecordSize(crc: Crc, sequence: nat, submit: Bytes)
    requires OpFits(Submitted(sequence, submit))
    ensures |OpBytes(crc, Submitted(sequence, submit))| == 21 + |submit|
  {
  }
}
