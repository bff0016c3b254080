/** The batch codec: length-prefixed records whose attributes are ordered maps. */
module BatchCodec {
  import opened Prelude
  import opened OrderedAttrs

  datatype CodecError = UnsupportedVersion(version: byte) | Truncated | InvalidAttribute | Oversized

  /** One record. In a decoded record the attributes are a map, listed by
      ascending key; on the wire they may stand in any order and repeat. */
  datatype Record = Record(attributes: seq<Attr>, payload: Bytes)

  const BATCH_FORMAT_VERSION: byte := 0

  // Whether bytes are well-formed UTF-8 (section 4 of RFC 3629).
  type Utf8 = Bytes -> bool

  // Big-endian lengths. ----------------------------------------------------------------

  function U32Bytes(n: nat): Bytes
    requires n < U32_LIMIT
  {
    [n / 0x1000000, n / 0x10000 % 0x100, n / 0x100 % 0x100, n % 0x100]
  }

  function U32Value(b: Bytes): nat
    requires |b| == 4
  {
    (((b[0] as int) * 0x100 + b[1]) * 0x100 + b[2]) * 0x100 + b[3]
  }

  lemma {:induction false} U32RoundTrip(n: nat)
    requires n < U32_LIMIT
    ensures U32Value(U32Bytes(n)) == n
  {
  }

  lemma {:induction false} U32Exact(b: Bytes)
    requires |b| == 4
    ensures U32Value(b) < U32_LIMIT && U32Bytes(U32Value(b)) == b
  {
    var n, hi: int := U32Value(b), b[0];
    assert n / 0x100 == (hi * 0x100 + b[1]) * 0x100 + b[2] && n % 0x100 == b[3];
    assert n / 0x10000 == hi * 0x100 + b[1];
    assert n / 0x1000000 == hi;
  }

  // Wire forms, in whatever order the attributes stand. ----------------------------------

  function LenPrefixed(b: Bytes): Bytes
    requires |b| < U32_LIMIT
  {
    U32Bytes(|b|) + b
  }

  predicate AttrFits(a: Attr) { |a.0| < U32_LIMIT && |a.1| < U32_LIMIT }

  predicate AttrsFit(l: seq<Attr>) {
    forall i :: 0 <= i < |l| ==> AttrFits(l[i])
  }

  predicate RecordFits(r: Record) {
    |r.attributes| < U32_LIMIT && AttrsFit(r.attributes) && |r.payload| < U32_LIMIT
  }

  predicate Fits(rs: seq<Record>) {
    |rs| < U32_LIMIT && forall i :: 0 <= i < |rs| ==> RecordFits(rs[i])
  }

  function AttrWire(a: Attr): Bytes
    requires AttrFits(a)
  {
    LenPrefixed(a.0) + LenPrefixed(a.1)
  }

  function AttrsWire(l: seq<Attr>): Bytes
    requires AttrsFit(l)
  {
    if l == [] then [] else AttrWire(l[0]) + AttrsWire(l[1..])
  }

  function RecordWire(r: Record): Bytes
    requires RecordFits(r)
  {
    U32Bytes(|r.attributes|) + (AttrsWire(r.attributes) + LenPrefixed(r.payload))
  }

  function RecordsWire(rs: seq<Record>): Bytes
    requires forall i :: 0 <= i < |rs| ==> RecordFits(rs[i])
  {
    if rs == [] then [] else RecordWire(rs[0]) + RecordsWire(rs[1..])
  }

  function BatchWire(rs: seq<Record>): Bytes
    requires Fits(rs)
  {
    [BATCH_FORMAT_VERSION] + (U32Bytes(|rs|) + RecordsWire(rs))
  }

  // Reading. -----------------------------------------------------------------------------

  datatype Parsed<+T> = Parsed(value: T, rest: Bytes)
  type Parse<T> = Result<Parsed<T>, CodecError>

  function Take(b: Bytes, n: nat): Parse<Bytes> {
    if |b| < n then Err(Truncated) else Ok(Parsed(b[..n], b[n..]))
  }

  function TakeU32(b: Bytes): Parse<nat> {
    match Take(b, 4)
    case Err(e) => Err(e)
    case Ok(p) => Ok(Parsed(U32Value(p.value), p.rest))
  }

  function TakeLenPrefixed(b: Bytes): Parse<Bytes> {
    match TakeU32(b)
    case Err(e) => Err(e)
    case Ok(p) => Take(p.rest, p.value)
  }

  function TakeString(utf8: Utf8, b: Bytes): Parse<Bytes> {
    match TakeLenPrefixed(b)
    case Err(e) => Err(e)
    case Ok(p) => if utf8(p.value) then Ok(p) else Err(InvalidAttribute)
  }

  function TakeAttr(utf8: Utf8, b: Bytes): Parse<Attr> {
    match TakeString(utf8, b)
    case Err(e) => Err(e)
    case Ok(k) =>
      match TakeString(utf8, k.rest)
      case Err(e) => Err(e)
      case Ok(v) => Ok(Parsed((k.value, v.value), v.rest))
  }

  function TakeAttrs(utf8: Utf8, b: Bytes, n: nat): Parse<seq<Attr>>
    decreases n
  {
    if n == 0 then Ok(Parsed([], b)) else
      match TakeAttr(utf8, b)
      case Err(e) => Err(e)
      case Ok(a) =>
        match TakeAttrs(utf8, a.rest, n - 1)
        case Err(e) => Err(e)
        case Ok(more) => Ok(Parsed([a.value] + more.value, more.rest))
  }

  // A record as it stands on the wire.
  function TakeRecord(utf8: Utf8, b: Bytes): Parse<Record> {
    match TakeU32(b)
    case Err(e) => Err(e)
    case Ok(n) =>
      match TakeAttrs(utf8, n.rest, n.value)
      case Err(e) => Err(e)
      case Ok(attrs) =>
        match TakeLenPrefixed(attrs.rest)
        case Err(e) => Err(e)
        case Ok(payload) => Ok(Parsed(Record(attrs.value, payload.value), payload.rest))
  }

  function TakeRecords(utf8: Utf8, b: Bytes, n: nat): Parse<seq<Record>>
    decreases n
  {
    if n == 0 then Ok(Parsed([], b)) else
      match TakeRecord(utf8, b)
      case Err(e) => Err(e)
      case Ok(r) =>
        match TakeRecords(utf8, r.rest, n - 1)
        case Err(e) => Err(e)
        case Ok(more) => Ok(Parsed([r.value] + more.value, more.rest))
  }

  // The wire records of a batch, or why it is refused.
  function ParseBatch(utf8: Utf8, b: Bytes): Result<seq<Record>, CodecError> {
    match Take(b, 1)
    case Err(e) => Err(e)
    case Ok(v) =>
      if v.value[0] != BATCH_FORMAT_VERSION then Err(UnsupportedVersion(v.value[0])) else
        match TakeU32(v.rest)
        case Err(e) => Err(e)
        case Ok(n) =>
          match TakeRecords(utf8, n.rest, n.value)
          case Err(e) => Err(e)
          case Ok(rs) => if rs.rest == [] then Ok(rs.value) else Err(Truncated)
  }

  function AsMap(r: Record): Record {
    Record(Collapse(r.attributes), r.payload)
  }

  function AsMaps(rs: seq<Record>): (ms: seq<Record>)
    ensures |ms| == |rs| && forall i :: 0 <= i < |rs| ==> ms[i] == AsMap(rs[i])
  {
    if rs == [] then [] else AsMaps(rs[..|rs| - 1]) + [AsMap(rs[|rs| - 1])]
  }

  /** What decoding answers: the wire records, their attributes collected into maps. */
  function Decode(utf8: Utf8, b: Bytes): Result<seq<Record>, CodecError> {
    match ParseBatch(utf8, b)
    case Err(e) => Err(e)
    case Ok(rs) => Ok(AsMaps(rs))
  }

  /** What encoding answers. */
  function Encode(rs: seq<Record>): Result<Bytes, CodecError> {
    if Fits(rs) then Ok(BatchWire(rs)) else Err(Oversized)
  }

  // Framing: each reader inverts its wire form and only it. ---------------------------------

  lemma {:induction false} TakeLenPrefixedInverts(b: Bytes, t: Bytes)
    requires |b| < U32_LIMIT
    ensures TakeLenPrefixed(LenPrefixed(b) + t) == Ok(Parsed(b, t))
  {
    var whole := LenPrefixed(b) + t;
    U32RoundTrip(|b|);
    assert whole[..4] == U32Bytes(|b|) && whole[4..] == b + t;
    assert (b + t)[..|b|] == b && (b + t)[|b|..] == t;
  }

  lemma {:induction false} TakeLenPrefixedExact(b: Bytes)
    requires TakeLenPrefixed(b).Ok?
    ensures |TakeLenPrefixed(b).value.value| < U32_LIMIT
    ensures b == LenPrefixed(TakeLenPrefixed(b).value.value) + TakeLenPrefixed(b).value.rest
  {
    U32Exact(b[..4]);
    var n := U32Value(b[..4]);
    assert b[4..] == b[4..][..n] + b[4..][n..];
    assert b == b[..4] + b[4..];
  }

  lemma {:induction false} TakeAttrInverts(utf8: Utf8, a: Attr, t: Bytes)
    requires AttrFits(a) && utf8(a.0) && utf8(a.1)
    ensures TakeAttr(utf8, AttrWire(a) + t) == Ok(Parsed(a, t))
  {
    assert AttrWire(a) + t == LenPrefixed(a.0) + (LenPrefixed(a.1) + t);
    TakeLenPrefixedInverts(a.0, LenPrefixed(a.1) + t);
    TakeLenPrefixedInverts(a.1, t);
  }

  lemma {:induction false} TakeAttrExact(utf8: Utf8, b: Bytes)
    requires TakeAttr(utf8, b).Ok?
    ensures var p := TakeAttr(utf8, b).value;
      AttrFits(p.value) && utf8(p.value.0) && utf8(p.value.1) && b == AttrWire(p.value) + p.rest
  {
    TakeLenPrefixedExact(b);
    var k := TakeString(utf8, b).value;
    TakeLenPrefixedExact(k.rest);
    var v := TakeString(utf8, k.rest).value;
    assert LenPrefixed(k.value) + (LenPrefixed(v.value) + v.rest) ==
        (LenPrefixed(k.value) + LenPrefixed(v.value)) + v.rest;
  }

  predicate TextAttrs(utf8: Utf8, l: seq<Attr>) {
    forall i :: 0 <= i < |l| ==> utf8(l[i].0) && utf8(l[i].1)
  }

  lemma {:induction false} TakeAttrsInverts(utf8: Utf8, l: seq<Attr>, t: Bytes)
    requires AttrsFit(l) && TextAttrs(utf8, l)
    ensures TakeAttrs(utf8, AttrsWire(l) + t, |l|) == Ok(Parsed(l, t))
  {
    if l == [] {
      assert AttrsWire(l) + t == t;
    } else {
      ConcatAssoc(AttrWire(l[0]), AttrsWire(l[1..]), t);
      TakeAttrInverts(utf8, l[0], AttrsWire(l[1..]) + t);
      TakeAttrsInverts(utf8, l[1..], t);
      HeadTail(l);
    }
  }

  // `b` is the wire form of the attributes read, then what is left.
  ghost predicate AttrsRead(utf8: Utf8, b: Bytes, n: nat, p: Parsed<seq<Attr>>) {
    |p.value| == n && AttrsFit(p.value) && TextAttrs(utf8, p.value) && b == AttrsWire(p.value) + p.rest
  }

  lemma {:induction false} AttrsReadCons(utf8: Utf8, b: Bytes, n: nat, a: Parsed<Attr>, more: Parsed<seq<Attr>>)
    requires AttrFits(a.value) && utf8(a.value.0) && utf8(a.value.1) && b == AttrWire(a.value) + a.rest &&
      AttrsRead(utf8, a.rest, n, more)
    ensures AttrsRead(utf8, b, n + 1, Parsed([a.value] + more.value, more.rest))
  {
    ConsTail(a.value, more.value);
    hide AttrWire, AttrFits;
    ConcatAssoc(AttrWire(a.value), AttrsWire(more.value), more.rest);
  }

  lemma {:induction false} TakeAttrsExact(utf8: Utf8, b: Bytes, n: nat)
    requires TakeAttrs(utf8, b, n).Ok?
    ensures AttrsRead(utf8, b, n, TakeAttrs(utf8, b, n).value)
    decreases n
  {
    hide TakeAttr, AttrWire;
    if n == 0 {
      assert [] + b == b;
      return;
    }
    TakeAttrExact(utf8, b);
    hide AttrsRead, AttrsFit, AttrFits;
    var a := TakeAttr(utf8, b).value;
    TakeAttrsExact(utf8, a.rest, n - 1);
    AttrsReadCons(utf8, b, n - 1, a, TakeAttrs(utf8, a.rest, n - 1).value);
  }

  lemma {:induction false} TakeU32Inverts(n: nat, t: Bytes)
    requires n < U32_LIMIT
    ensures TakeU32(U32Bytes(n) + t) == Ok(Parsed(n, t))
  {
    U32RoundTrip(n);
    assert (U32Bytes(n) + t)[..4] == U32Bytes(n) && (U32Bytes(n) + t)[4..] == t;
  }

  lemma {:induction false} TakeU32Exact(b: Bytes)
    requires TakeU32(b).Ok?
    ensures TakeU32(b).value.value < U32_LIMIT && b == U32Bytes(TakeU32(b).value.value) + TakeU32(b).value.rest
  {
    U32Exact(b[..4]);
  }

  lemma {:induction false} TakeRecordInverts(utf8: Utf8, r: Record, t: Bytes)
    requires RecordFits(r) && TextAttrs(utf8, r.attributes)
    ensures TakeRecord(utf8, RecordWire(r) + t) == Ok(Parsed(r, t))
  {
    var tail := LenPrefixed(r.payload) + t;
    assert RecordWire(r) + t == U32Bytes(|r.attributes|) + (AttrsWire(r.attributes) + tail);
    TakeU32Inverts(|r.attributes|, AttrsWire(r.attributes) + tail);
    TakeAttrsInverts(utf8, r.attributes, tail);
    TakeLenPrefixedInverts(r.payload, t);
  }

  lemma {:induction false} TakeRecordExact(utf8: Utf8, b: Bytes)
    requires TakeRecord(utf8, b).Ok?
    ensures var p := TakeRecord(utf8, b).value;
      RecordFits(p.value) && TextAttrs(utf8, p.value.attributes) && b == RecordWire(p.value) + p.rest
  {
    TakeU32Exact(b);
    var n := TakeU32(b).value;
    TakeAttrsExact(utf8, n.rest, n.value);
    var attrs := TakeAttrs(utf8, n.rest, n.value).value;
    TakeLenPrefixedExact(attrs.rest);
    var payload := TakeLenPrefixed(attrs.rest).value;
    var head, body, tail := U32Bytes(n.value), AttrsWire(attrs.value), LenPrefixed(payload.value);
    assert head + (body + (tail + payload.rest)) == (head + (body + tail)) + payload.rest;
  }

  ghost predicate Text(utf8: Utf8, rs: seq<Record>) {
    forall i :: 0 <= i < |rs| ==> TextAttrs(utf8, rs[i].attributes)
  }

  lemma {:induction false} TakeRecordsInverts(utf8: Utf8, rs: seq<Record>, t: Bytes)
    requires EachFits(rs) && Text(utf8, rs)
    ensures TakeRecords(utf8, RecordsWire(rs) + t, |rs|) == Ok(Parsed(rs, t))
  {
    if rs == [] {
      assert RecordsWire(rs) + t == t;
    } else {
      ConcatAssoc(RecordWire(rs[0]), RecordsWire(rs[1..]), t);
      TakeRecordInverts(utf8, rs[0], RecordsWire(rs[1..]) + t);
      TakeRecordsInverts(utf8, rs[1..], t);
      HeadTail(rs);
    }
  }

  ghost predicate EachFits(rs: seq<Record>) {
    forall i :: 0 <= i < |rs| ==> RecordFits(rs[i])
  }

  ghost predicate RecordsRead(utf8: Utf8, b: Bytes, n: nat, p: Parsed<seq<Record>>) {
    |p.value| == n && EachFits(p.value) && Text(utf8, p.value) && b == RecordsWire(p.value) + p.rest
  }

  lemma {:induction false} RecordsReadCons(utf8: Utf8, b: Bytes, n: nat, r: Parsed<Record>, more: Parsed<seq<Record>>)
    requires RecordFits(r.value) && TextAttrs(utf8, r.value.attributes) && b == RecordWire(r.value) + r.rest &&
      RecordsRead(utf8, r.rest, n, more)
    ensures RecordsRead(utf8, b, n + 1, Parsed([r.value] + more.value, more.rest))
  {
    ConsTail(r.value, more.value);
    hide RecordWire, RecordFits, TextAttrs;
    ConcatAssoc(RecordWire(r.value), RecordsWire(more.value), more.rest);
  }

  lemma {:induction false} TakeRecordsExact(utf8: Utf8, b: Bytes, n: nat)
    requires TakeRecords(utf8, b, n).Ok?
    ensures RecordsRead(utf8, b, n, TakeRecords(utf8, b, n).value)
    decreases n
  {
    hide TakeRecord, RecordWire;
    if n == 0 {
      assert [] + b == b;
      return;
    }
    TakeRecordExact(utf8, b);
    hide RecordsRead, RecordFits, TextAttrs;
    var r := TakeRecord(utf8, b).value;
    TakeRecordsExact(utf8, r.rest, n - 1);
    RecordsReadCons(utf8, b, n - 1, r, TakeRecords(utf8, r.rest, n - 1).value);
  }

  /** Parsing a batch inverts its wire form, and accepts nothing else: a batch is
      readable iff it is the wire form of the records read. */
  lemma {:induction false} ParseExact(utf8: Utf8, b: Bytes, rs: seq<Record>)
    ensures ParseBatch(utf8, b) == Ok(rs) <==> Fits(rs) && Text(utf8, rs) && b == BatchWire(rs)
  {
    if ParseBatch(utf8, b) == Ok(rs) {
      var n := TakeU32(b[1..]).value;
      TakeU32Exact(b[1..]);
      TakeRecordsExact(utf8, n.rest, n.value);
      hide TakeU32, TakeRecords, RecordsWire;
      assert b == [b[0]] + b[1..];
      assert RecordsWire(rs) + [] == RecordsWire(rs);
    }
    if Fits(rs) && Text(utf8, rs) && b == BatchWire(rs) {
      assert b[..1] == [BATCH_FORMAT_VERSION] && b[1..] == U32Bytes(|rs|) + RecordsWire(rs);
      TakeU32Inverts(|rs|, RecordsWire(rs));
      TakeRecordsInverts(utf8, rs, []);
      hide TakeU32, TakeRecords, RecordsWire;
      assert RecordsWire(rs) + [] == RecordsWire(rs);
    }
  }
}
