/** The producer outbox's append-only transcript: its records, what a scan of it
    recovers, and what survives a cut at any byte. */
module OutboxWal {
  import opened Prelude
  import opened BatchCodec

  datatype OutboxError =
    | Wire
    | NotSubmit
    | OutOfSequence(expected: nat, actual: nat)
    | IdentityConflict(sequence: nat)
    | CapacityExceeded(used: nat, attempted: nat, max: nat)
    | EpochMismatch(expected: nat, actual: nat)
    | UnknownSequence(sequence: nat)
    | SequenceExhausted
    | Corrupt(what: string)
    | InvalidCapacity
    | Io

  datatype EntryState = Pending(submit: Bytes) | Acknowledged(submit: Bytes)
  type Entries = map<nat, EntryState>

  /** The wire codec: encoding a submission, and the sequence a Submit frame carries. */
  datatype WireCodec = WireCodec(encode: (nat, seq<Bytes>) -> Option<Bytes>,
          sequenceOf: Bytes -> Result<nat, OutboxError>)

  const MAX_FRAME_BYTES: nat := 4 * 1024 * 1024

  // Frames are bounded, sequences are u64, and decoding reads back what encoding wrote.
  ghost predicate SoundWire(wire: WireCodec) {
    && (forall b :: wire.sequenceOf(b).Err? ==> wire.sequenceOf(b).error in {Wire, NotSubmit})
    && (forall b :: wire.sequenceOf(b).Ok? ==> |b| <= MAX_FRAME_BYTES + 4 && wire.sequenceOf(b).value < U64_LIMIT)
    && (forall s: nat, rs :: wire.encode(s, rs).Some? ==> wire.sequenceOf(wire.encode(s, rs).value) == Ok(s))
  }

  // The keys are exactly 0 .. |entries|, so the last key is |entries| - 1.
  ghost predicate Dense(entries: Entries) {
    forall k :: k in entries <==> 0 <= k < |entries|
  }

  function NextSequence(entries: Entries): Result<nat, OutboxError>
  {
    if |entries| == U64_LIMIT then Err(SequenceExhausted) else Ok(|entries|)
  }

  // Records. -----------------------------------------------------------------------------

  datatype Op = Submitted(sequence: nat, submit: Bytes) | Acked(sequence: nat)

  const RECORD_SUBMIT: byte := 1
  const RECORD_ACK: byte := 2

  predicate OpFits(op: Op) {
    op.sequence < U64_LIMIT && (op.Submitted? ==> |op.submit| <= MAX_FRAME_BYTES + 4)
  }

  function U64Bytes(n: nat): (b: Bytes)
    requires n < U64_LIMIT
    ensures |b| == 8
  {
    U32Bytes(n / U32_LIMIT) + U32Bytes(n % U32_LIMIT)
  }

  function U64Value(b: Bytes): nat
    requires |b| == 8
  {
    U32Value(b[..4]) * U32_LIMIT + U32Value(b[4..])
  }

  lemma {:induction false} U64RoundTrip(n: nat)
    requires n < U64_LIMIT
    ensures U64Value(U64Bytes(n)) == n
  {
    U32RoundTrip(n / U32_LIMIT);
    U32RoundTrip(n % U32_LIMIT);
    hide U32Bytes, U32Value;
    var b := U64Bytes(n);
    assert b[..4] == U32Bytes(n / U32_LIMIT) && b[4..] == U32Bytes(n % U32_LIMIT);
  }

  function Body(op: Op): (b: Bytes)
    requires OpFits(op)
    ensures 0 < |b| < U32_LIMIT
  {
    match op
    case Submitted(sequence, submit) => [RECORD_SUBMIT] + (U64Bytes(sequence) + (U32Bytes(|submit|) + submit))
    case Acked(sequence) => [RECORD_ACK] + U64Bytes(sequence)
  }

  function ParseBody(body: Bytes): Result<Op, OutboxError> {
    if body == [] then Err(Corrupt("empty record")) else
      var rest := body[1..];
      if body[0] == RECORD_SUBMIT then
        if |rest| < 12 then Err(Corrupt("truncated submit record"))
        else if |rest[12..]| != U32Value(rest[8..12]) then Err(Corrupt("invalid submit record"))
        else Ok(Submitted(U64Value(rest[..8]), rest[12..]))
      else if body[0] == RECORD_ACK then
        if |rest| != 8 then Err(Corrupt("invalid ACK record")) else Ok(Acked(U64Value(rest)))
      else Err(Corrupt("unknown record kind"))
  }

  lemma {:induction false} ParseBodyInverts(op: Op)
    requires OpFits(op)
    ensures ParseBody(Body(op)) == Ok(op)
  {
    U64RoundTrip(op.sequence);
    var rest := Body(op)[1..];
    if op.Submitted? {
      U32RoundTrip(|op.submit|);
      hide U32Bytes, U32Value, U64Bytes, U64Value;
      assert rest == U64Bytes(op.sequence) + (U32Bytes(|op.submit|) + op.submit);
      assert rest[..8] == U64Bytes(op.sequence) && rest[8..12] == U32Bytes(|op.submit|) && rest[12..] == op.submit;
    } else {
      assert rest == U64Bytes(op.sequence);
    }
  }

  // Replaying one record. ------------------------------------------------------------------

  function ApplyOp(wire: WireCodec, entries: Entries, op: Op): Result<Entries, OutboxError> {
    match op
    case Submitted(sequence, submit) => (
      match wire.sequenceOf(submit)
      case Err(e) => Err(e)
      case Ok(carried) =>
        if carried != sequence then Err(Corrupt("invalid submit record"))
        else if sequence in entries then
          if entries[sequence].submit == submit then Ok(entries) else Err(IdentityConflict(sequence))
        else
          match NextSequence(entries)
          case Err(e) => Err(e)
          case Ok(expected) =>
            if sequence != expected then Err(OutOfSequence(expected, sequence))
            else Ok(entries[sequence := Pending(submit)])
      )
    case Acked(sequence) =>
      if sequence !in entries then Err(UnknownSequence(sequence))
      else Ok(entries[sequence := Acknowledged(entries[sequence].submit)])
  }

  // An applied record can be written again, and keeps the keys dense and in range.
  lemma {:induction false} AppliedOpFits(wire: WireCodec, entries: Entries, op: Op)
    requires SoundWire(wire) && Dense(entries) && |entries| <= U64_LIMIT && ApplyOp(wire, entries, op).Ok?
    ensures OpFits(op)
    ensures var after := ApplyOp(wire, entries, op).value; Dense(after) && |entries| <= |after| <= U64_LIMIT
  {
    if op.Submitted? {
      assert wire.sequenceOf(op.submit).Ok?;
      if op.sequence !in entries {
        var after := entries[op.sequence := Pending(op.submit)];
        assert |after| == |entries| + 1;
      }
    } else {
      var after := entries[op.sequence := Acknowledged(entries[op.sequence].submit)];
      assert after.Keys == entries.Keys;
      assert |after.Keys| == |after| && |entries.Keys| == |entries|;
    }
  }

  // The file. --------------------------------------------------------------------------------

  type Crc = Bytes -> nat

  function Frame(crc: Crc, body: Bytes): Bytes
    requires |body| < U32_LIMIT
  {
    U32Bytes(|body|) + (body + U32Bytes(crc(body) % U32_LIMIT))
  }

  function OpBytes(crc: Crc, op: Op): Bytes
    requires OpFits(op)
  {
    Frame(crc, Body(op))
  }

  datatype Scanned = Scanned(entries: Entries, used: nat)

  // The first record of a file is all there.
  predicate Whole(b: Bytes) {
    |b| >= 4 && |b| >= U32Value(b[..4]) + 8
  }

  function FirstSize(b: Bytes): (n: nat)
    requires Whole(b)
    ensures 8 <= n <= |b|
  {
    U32Value(b[..4]) + 8
  }

  function FirstOp(crc: Crc, b: Bytes): Result<Op, OutboxError>
    requires Whole(b)
  {
    var end := FirstSize(b);
    if U32Value(b[end - 4..end]) != crc(b[4..end - 4]) % U32_LIMIT then Err(Corrupt("record checksum"))
        else ParseBody(b[4..end - 4])
  }

  // Counts the bytes already read.
  function Onward(first: nat, r: Result<Scanned, OutboxError>): Result<Scanned, OutboxError> {
    match r
    case Err(e) => Err(e)
    case Ok(s) => Ok(Scanned(s.entries, first + s.used))
  }

  // What a scan recovers: it stops, without error, at a record that is not all there.
  function Scan(crc: Crc, wire: WireCodec, entries: Entries, b: Bytes): (r: Result<Scanned, OutboxError>)
    ensures r.Ok? ==> r.value.used <= |b|
    decreases |b|
  {
    if !Whole(b) then Ok(Scanned(entries, 0)) else
      match FirstOp(crc, b)
      case Err(e) => Err(e)
      case Ok(op) =>
        match ApplyOp(wire, entries, op)
        case Err(e) => Err(e)
        case Ok(after) => Onward(FirstSize(b), Scan(crc, wire, after, b[FirstSize(b)..]))
  }

  lemma {:induction false} FrameParts(crc: Crc, op: Op, t: Bytes)
    requires OpFits(op)
    ensures var b := OpBytes(crc, op) + t;
      Whole(b) && FirstSize(b) == |OpBytes(crc, op)| && FirstOp(crc, b) == Ok(op) && b[FirstSize(b)..] == t
  {
    var body := Body(op);
    ParseBodyInverts(op);
    U32RoundTrip(|body|);
    U32RoundTrip(crc(body) % U32_LIMIT);
    var head, sum := U32Bytes(|body|), U32Bytes(crc(body) % U32_LIMIT);
    hide U32Bytes, U32Value, Body, ParseBody;
    var b, n := OpBytes(crc, op) + t, |body|;
    assert b == head + body + sum + t;
    assert b[..4] == head && b[4..4 + n] == body && b[4 + n..8 + n] == sum && b[8 + n..] == t;
  }

  // One whole record, then whatever follows it.
  lemma {:induction false} ScanRecord(crc: Crc, wire: WireCodec, entries: Entries, op: Op, t: Bytes)
    requires OpFits(op) && ApplyOp(wire, entries, op).Ok?
    ensures Scan(crc, wire, entries, OpBytes(crc, op) + t) ==
      Onward(|OpBytes(crc, op)|, Scan(crc, wire, ApplyOp(wire, entries, op).value, t))
  {
    FrameParts(crc, op, t);
    hide Whole, FirstSize, FirstOp, ApplyOp, OpBytes;
  }

  // A record cut short is not there.
  lemma {:induction false} ScanTorn(crc: Crc, wire: WireCodec, entries: Entries, op: Op, k: nat)
    requires OpFits(op) && k < |OpBytes(crc, op)|
    ensures Scan(crc, wire, entries, OpBytes(crc, op)[..k]) == Ok(Scanned(entries, 0))
  {
    FrameParts(crc, op, []);
    var whole := OpBytes(crc, op);
    assert whole + [] == whole;
    if k >= 4 { assert whole[..k][..4] == whole[..4]; }
  }

  lemma {:induction false} ScanEmpty(crc: Crc, wire: WireCodec, entries: Entries)
    ensures Scan(crc, wire, entries, []) == Ok(Scanned(entries, 0))
  {
  }

  // Histories. -----------------------------------------------------------------------------

  function Replay(wire: WireCodec, ops: seq<Op>): Result<Entries, OutboxError> {
    if ops == [] then Ok(map[]) else
      match Replay(wire, ops[..|ops| - 1])
      case Err(e) => Err(e)
      case Ok(entries) => ApplyOp(wire, entries, ops[|ops| - 1])
  }

  ghost predicate AllFit(ops: seq<Op>) {
    forall i :: 0 <= i < |ops| ==> OpFits(ops[i])
  }

  function OpsBytes(crc: Crc, ops: seq<Op>): Bytes
    requires forall i :: 0 <= i < |ops| ==> OpFits(ops[i])
  {
    if ops == [] then [] else OpsBytes(crc, ops[..|ops| - 1]) + OpBytes(crc, ops[|ops| - 1])
  }

  lemma {:induction false} ReplayFits(wire: WireCodec, ops: seq<Op>)
    requires SoundWire(wire) && Replay(wire, ops).Ok?
    ensures AllFit(ops) && Dense(Replay(wire, ops).value) && |Replay(wire, ops).value| <= U64_LIMIT
  {
    hide ApplyOp, OpFits, SoundWire;
    if ops == [] {
      assert Dense(map[]);
    } else {
      var front := ops[..|ops| - 1];
      ReplayFits(wire, front);
      hide Dense;
      AppliedOpFits(wire, Replay(wire, front).value, ops[|ops| - 1]);
      forall i | 0 <= i < |ops| ensures OpFits(ops[i]) { if i < |front| { assert front[i] == ops[i]; } }
    }
  }

  /** Scanning the file of a history recovers that history, then goes on with what follows. */
  lemma {:induction false} ScanHistory(crc: Crc, wire: WireCodec, ops: seq<Op>, t: Bytes)
    requires AllFit(ops) && Replay(wire, ops).Ok?
    ensures Scan(crc, wire, map[], OpsBytes(crc, ops) + t) ==
      Onward(|OpsBytes(crc, ops)|, Scan(crc, wire, Replay(wire, ops).value, t))
  {
    hide Scan, OpBytes, ApplyOp, OpFits;
    if ops == [] {
      assert OpsBytes(crc, ops) + t == t;
    } else {
      var front, op := ops[..|ops| - 1], ops[|ops| - 1];
      assert AllFit(front);
      ScanHistory(crc, wire, front, OpBytes(crc, op) + t);
      ScanRecord(crc, wire, Replay(wire, front).value, op, t);
      ConcatAssoc(OpsBytes(crc, front), OpBytes(crc, op), t);
    }
  }

  // How many records of a history stand whole in the first `k` bytes of its file.
  function Survivors(crc: Crc, ops: seq<Op>, k: nat): (m: nat)
    requires forall i :: 0 <= i < |ops| ==> OpFits(ops[i])
    ensures m <= |ops|
  {
    if ops == [] || |OpsBytes(crc, ops)| <= k then |ops| else Survivors(crc, ops[..|ops| - 1], k)
  }

  lemma {:induction false} SurvivorsMaximal(crc: Crc, ops: seq<Op>, k: nat)
    requires AllFit(ops)
    ensures var m := Survivors(crc, ops, k);
      && AllFit(ops[..m]) && |OpsBytes(crc, ops[..m])| <= k
      && (m < |ops| ==> AllFit(ops[..m + 1]) && k < |OpsBytes(crc, ops[..m + 1])|)
  {
    hide OpBytes, OpFits;
    var m := Survivors(crc, ops, k);
    assert ops[..|ops|] == ops;
    if ops != [] && |OpsBytes(crc, ops)| > k {
      var front := ops[..|ops| - 1];
      SurvivorsMaximal(crc, front, k);
      hide OpsBytes;
      assert front[..m] == ops[..m];
      if m < |front| { assert front[..m + 1] == ops[..m + 1]; }
    }
  }

  lemma {:induction false} FilePrefix(crc: Crc, ops: seq<Op>, m: nat)
    requires AllFit(ops) && m <= |ops|
    ensures AllFit(ops[..m]) && OpsBytes(crc, ops[..m]) <= OpsBytes(crc, ops)
  {
    assert ops[..|ops|] == ops;
    if m < |ops| {
      var front := ops[..|ops| - 1];
      FilePrefix(crc, front, m);
      assert front[..m] == ops[..m];
    }
  }

  /** Whatever byte a crash cuts the file at, reopening recovers exactly the records that
      stand whole before the cut, and drops the rest of the file. */
  lemma {:induction false} CutAnywhere(crc: Crc, wire: WireCodec, ops: seq<Op>, k: nat)
    requires AllFit(ops) && Replay(wire, ops).Ok? && k <= |OpsBytes(crc, ops)|
    ensures var m := Survivors(crc, ops, k);
      && AllFit(ops[..m]) && Replay(wire, ops[..m]).Ok?
      && Scan(crc, wire, map[], OpsBytes(crc, ops)[..k]) ==
           Ok(Scanned(Replay(wire, ops[..m]).value, |OpsBytes(crc, ops[..m])|))
  {
    hide Scan, OpsBytes, Replay, OpFits, Survivors;
    var m := Survivors(crc, ops, k);
    var kept := ops[..m];
    SurvivorsMaximal(crc, ops, k);
    FilePrefix(crc, ops, m);
    ReplayPrefix(wire, ops, m);
    var t := OpsBytes(crc, ops)[..k][|OpsBytes(crc, kept)|..];
    assert OpsBytes(crc, ops)[..k] == OpsBytes(crc, kept) + t;
    ScanHistory(crc, wire, kept, t);
    if m < |ops| {
      FilePrefix(crc, ops, m + 1);
      CutInRecord(crc, wire, ops, m, k);
    } else {
      assert kept == ops && t == [];
      ScanEmpty(crc, wire, Replay(wire, kept).value);
    }
  }

  lemma {:induction false} CutInRecord(crc: Crc, wire: WireCodec, ops: seq<Op>, m: nat, k: nat)
    requires AllFit(ops) && m < |ops| && AllFit(ops[..m]) && AllFit(ops[..m + 1])
    requires OpsBytes(crc, ops[..m + 1]) <= OpsBytes(crc, ops) &&
      |OpsBytes(crc, ops[..m])| <= k < |OpsBytes(crc, ops[..m + 1])|
    requires Replay(wire, ops[..m]).Ok?
    ensures Scan(crc, wire, Replay(wire, ops[..m]).value, OpsBytes(crc, ops)[..k][|OpsBytes(crc, ops[..m])|..])
         == Ok(Scanned(Replay(wire, ops[..m]).value, 0))
  {
    hide Scan, OpBytes, Replay, OpFits;
    var kept, next := ops[..m], ops[..m + 1];
    assert next[..m] == kept && next[m] == ops[m];
    var before, record := OpsBytes(crc, kept), OpBytes(crc, ops[m]);
    assert OpsBytes(crc, next) == before + record;
    ScanTorn(crc, wire, Replay(wire, kept).value, ops[m], k - |before|);
    hide OpsBytes;
    assert OpsBytes(crc, ops)[..k] == (before + record)[..k];
    assert (before + record)[..k][|before|..] == record[..k - |before|];
  }

  lemma {:induction false} ReplayPrefix(wire: WireCodec, ops: seq<Op>, m: nat)
    requires Replay(wire, ops).Ok? && m <= |ops|
    ensures Replay(wire, ops[..m]).Ok?
  {
    assert ops[..|ops|] == ops;
    if m < |ops| {
      ReplayPrefix(wire, ops[..|ops| - 1], m);
      assert ops[..|ops| - 1][..m] == ops[..m];
    }
  }
}
