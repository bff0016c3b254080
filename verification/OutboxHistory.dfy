/** Every file that reopens is the file of a history of records. */
module OutboxHistory {
  import opened Prelude
  import opened BatchCodec
  import opened OutboxWal
  import opened ProducerOutbox

  lemma {:induction false} U64Exact(b: Bytes)
    requires |b| == 8
    ensures U64Value(b) < U64_LIMIT && U64Bytes(U64Value(b)) == b
  {
    U32Exact(b[..4]);
    U32Exact(b[4..]);
    hide U32Bytes, U32Value;
    var hi, lo := U32Value(b[..4]), U32Value(b[4..]);
    assert (hi * U32_LIMIT + lo) / U32_LIMIT == hi && (hi * U32_LIMIT + lo) % U32_LIMIT == lo;
    assert b == b[..4] + b[4..];
  }

  // A body parses only as what it is the body of.
  lemma {:induction false} ParseBodyExact(body: Bytes)
    requires ParseBody(body).Ok? && OpFits(ParseBody(body).value)
    ensures body == Body(ParseBody(body).value)
  {
    var rest := body[1..];
    HeadTail(body);
    if body[0] == RECORD_SUBMIT {
      U64Exact(rest[..8]);
      U32Exact(rest[8..12]);
      hide U64Bytes, U64Value, U32Bytes, U32Value;
      assert rest == rest[..8] + (rest[8..12] + rest[12..]);
    } else {
      U64Exact(rest);
    }
  }

  lemma {:induction false} InFour(b: Bytes, end: nat)
    requires 8 <= end <= |b|
    ensures b == (b[..4] + (b[4..end - 4] + b[end - 4..end])) + b[end..]
  {
  }

  // The first record of a file, when it parses, is exactly the bytes of what it parses to.
  lemma {:induction false} FirstExact(crc: Crc, b: Bytes)
    requires Whole(b) && FirstOp(crc, b).Ok? && OpFits(FirstOp(crc, b).value)
    ensures b == OpBytes(crc, FirstOp(crc, b).value) + b[FirstSize(b)..]
  {
    hide ParseBody, Body, U32Bytes, U32Value, OpFits;
    var end := FirstSize(b);
    U32Exact(b[..4]);
    U32Exact(b[end - 4..end]);
    ParseBodyExact(b[4..end - 4]);
    InFour(b, end);
  }

  lemma {:induction false} OpsBytesSnoc(crc: Crc, ops: seq<Op>, op: Op)
    requires AllFit(ops) && OpFits(op)
    ensures AllFit(ops + [op]) && OpsBytes(crc, ops + [op]) == OpsBytes(crc, ops) + OpBytes(crc, op)
  {
    hide OpBytes, OpFits;
    assert (ops + [op])[..|ops|] == ops;
  }

  lemma {:induction false} ReplaySnoc(wire: WireCodec, ops: seq<Op>, op: Op)
    requires Replay(wire, ops).Ok?
    ensures Replay(wire, ops + [op]) == ApplyOp(wire, Replay(wire, ops).value, op)
  {
    hide ApplyOp;
    assert (ops + [op])[..|ops|] == ops;
  }

  // Going on from a history, a scan that reads all of `b` extends the history by it.
  lemma {:induction false} ScanExtends(crc: Crc, wire: WireCodec, ops: seq<Op>, b: Bytes) returns (all: seq<Op>)
    requires SoundWire(wire) && AllFit(ops) && Replay(wire, ops).Ok?
    requires Scan(crc, wire, Replay(wire, ops).value, b).Ok? &&
      Scan(crc, wire, Replay(wire, ops).value, b).value.used == |b|
    ensures AllFit(all) && OpsBytes(crc, all) == OpsBytes(crc, ops) + b
    ensures Replay(wire, all) == Ok(Scan(crc, wire, Replay(wire, ops).value, b).value.entries)
    decreases |b|
  {
    hide FirstOp, ApplyOp, FirstSize, Whole, OpFits, OpBytes, OpsBytes, Replay, SoundWire;
    var e := Replay(wire, ops).value;
    if b == [] {
      ScanEmpty(crc, wire, e);
      all := ops;
      assert OpsBytes(crc, ops) + b == OpsBytes(crc, ops);
    } else {
      var op, rest := FirstOp(crc, b).value, b[FirstSize(b)..];
      ReplayFits(wire, ops);
      AppliedOpFits(wire, e, op);
      FirstExact(crc, b);
      OpsBytesSnoc(crc, ops, op);
      ReplaySnoc(wire, ops, op);
      all := ScanExtends(crc, wire, ops + [op], rest);
      ConcatAssoc(OpsBytes(crc, ops), OpBytes(crc, op), rest);
    }
  }

  /** A file that reopening keeps whole is the file of a history, and reopening replays it. */
  lemma {:induction false} ReopenedHasHistory(cfg: Config, s: Store) returns (ops: seq<Op>)
    requires InStep(cfg, s)
    ensures AllFit(ops) && s.file == OpsBytes(cfg.crc, ops) && Replay(cfg.wire, ops) == Ok(s.entries)
  {
    ops := ScanExtends(cfg.crc, cfg.wire, [], s.file);
    assert [] + s.file == s.file;
  }

  // What is left does not hold a whole record: fewer bytes than a length, or than it announces.
  predicate Short(b: Bytes) {
    |b| < 4 || |b| < U32Value(b[..4]) + 8
  }

  lemma {:induction false} ScanStops(crc: Crc, wire: WireCodec, e: Entries, b: Bytes)
    requires Scan(crc, wire, e, b).Ok?
    ensures Short(b[Scan(crc, wire, e, b).value.used..])
    decreases |b|
  {
    hide FirstOp, ApplyOp;
    if Whole(b) {
      var n := FirstSize(b);
      var after := ApplyOp(wire, e, FirstOp(crc, b).value).value;
      ScanStops(crc, wire, after, b[n..]);
      hide FirstSize, Short;
      var k := Scan(crc, wire, after, b[n..]).value.used;
      assert b[n..][k..] == b[n + k..];
    } else {
      assert b[0..] == b;
    }
  }

  ghost predicate Recovers(crc: Crc, wire: WireCodec, b: Bytes, s: Scanned, ops: seq<Op>) {
    && s.used <= |b| && AllFit(ops) && b[..s.used] == OpsBytes(crc, ops) && Replay(wire, ops) == Ok(s.entries)
    && Short(b[s.used..])
  }

  lemma {:induction false} NoHistory(crc: Crc, wire: WireCodec)
    ensures AllFit([]) && OpsBytes(crc, []) == [] && Replay(wire, []) == Ok(map[])
  {
  }

  lemma {:induction false} ScanShort(crc: Crc, wire: WireCodec, e: Entries, b: Bytes)
    requires Short(b)
    ensures Scan(crc, wire, e, b) == Ok(Scanned(e, 0))
  {
  }

  lemma {:induction false} ScannedRecovers(crc: Crc, wire: WireCodec, b: Bytes) returns (ops: seq<Op>)
    requires SoundWire(wire) && Scan(crc, wire, map[], b).Ok?
    ensures Recovers(crc, wire, b, Scan(crc, wire, map[], b).value, ops)
  {
    hide Scan, OpsBytes, Replay, Short, SoundWire, OpFits;
    var used := Scan(crc, wire, map[], b).value.used;
    ScanAgain(crc, wire, map[], b);
    ScanStops(crc, wire, map[], b);
    NoHistory(crc, wire);
    ops := ScanExtends(crc, wire, [], b[..used]);
    assert [] + b[..used] == b[..used];
  }

  /** Opening a file succeeds exactly when it is the file of an acceptable history followed by
      less than a whole record; it then recovers that history and no more. */
  lemma {:induction false} ScanExactly(crc: Crc, wire: WireCodec, b: Bytes, s: Scanned)
    requires SoundWire(wire)
    ensures Scan(crc, wire, map[], b) == Ok(s) <==> exists ops :: Recovers(crc, wire, b, s, ops)
  {
    hide Scan, OpsBytes, Replay, Short, SoundWire, OpFits;
    if Scan(crc, wire, map[], b) == Ok(s) {
      var ops := ScannedRecovers(crc, wire, b);
    }
    if ops :| Recovers(crc, wire, b, s, ops) {
      var t := b[s.used..];
      assert b == b[..s.used] + t;
      ScanHistory(crc, wire, ops, t);
      ScanShort(crc, wire, s.entries, t);
    }
  }
}
