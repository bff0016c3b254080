/** The codec's loops, proved against `Encode` and `Decode`. */
module BatchLoops {
  import opened Prelude
  import opened OrderedAttrs
  import opened BatchCodec

  // Encoding. ------------------------------------------------------------------------------

  lemma {:induction false} AttrsWireSnoc(l: seq<Attr>, a: Attr)
    requires AttrsFit(l) && AttrFits(a)
    ensures AttrsFit(l + [a]) && AttrsWire(l + [a]) == AttrsWire(l) + AttrWire(a)
  {
    hide AttrWire, AttrFits;
    if l == [] {
      assert l + [a] == [a] && [a][1..] == [];
      assert AttrsWire([a]) == AttrWire(a) + [];
    } else {
      AttrsWireSnoc(l[1..], a);
      assert (l + [a])[1..] == l[1..] + [a];
      ConcatAssoc(AttrWire(l[0]), AttrsWire(l[1..]), AttrWire(a));
    }
  }

  lemma {:induction false} RecordsWireSnoc(rs: seq<Record>, r: Record)
    requires EachFits(rs) && RecordFits(r)
    ensures EachFits(rs + [r]) && RecordsWire(rs + [r]) == RecordsWire(rs) + RecordWire(r)
  {
    hide RecordWire, RecordFits;
    if rs == [] {
      assert rs + [r] == [r] && [r][1..] == [];
      assert RecordsWire([r]) == RecordWire(r) + [];
    } else {
      RecordsWireSnoc(rs[1..], r);
      assert (rs + [r])[1..] == rs[1..] + [r];
      ConcatAssoc(RecordWire(rs[0]), RecordsWire(rs[1..]), RecordWire(r));
    }
  }

  method PutLenPrefixed(buffer: Bytes, b: Bytes) returns (r: Result<Bytes, CodecError>)
    ensures r == if |b| < U32_LIMIT then Ok(buffer + LenPrefixed(b)) else Err(Oversized)
  {
    if |b| >= U32_LIMIT { return Err(Oversized); }
    var grown := buffer + U32Bytes(|b|);
    ConcatAssoc(buffer, U32Bytes(|b|), b);
    return Ok(grown + b);
  }

  // A record's count and attribute loop.
  method PutAttrs(start: Bytes, attributes: seq<Attr>) returns (r: Result<Bytes, CodecError>)
    ensures r.Ok? <==> |attributes| < U32_LIMIT && AttrsFit(attributes)
    ensures r.Ok? ==> r.value == start + U32Bytes(|attributes|) + AttrsWire(attributes)
    ensures r.Err? ==> r.error == Oversized
  {
    if |attributes| >= U32_LIMIT { return Err(Oversized); }
    var head := start + U32Bytes(|attributes|);
    var buffer := head;
    hide U32Bytes, LenPrefixed;
    assert head == head + AttrsWire([]);
    for i := 0 to |attributes|
      invariant AttrsFit(attributes[..i])
      invariant buffer == head + AttrsWire(attributes[..i])
    {
      var (key, value) := attributes[i];
      var keyed := PutLenPrefixed(buffer, key);
      if keyed.Err? { assert !AttrFits(attributes[i]); return keyed; }
      var valued := PutLenPrefixed(keyed.value, value);
      if valued.Err? { assert !AttrFits(attributes[i]); return valued; }
      ConcatAssoc(buffer, LenPrefixed(key), LenPrefixed(value));
      AttrsWireSnoc(attributes[..i], attributes[i]);
      assert attributes[..i + 1] == attributes[..i] + [attributes[i]];
      ConcatAssoc(head, AttrsWire(attributes[..i]), AttrWire(attributes[i]));
      buffer := valued.value;
    }
    assert attributes[..|attributes|] == attributes;
    return Ok(buffer);
  }

  method PutRecord(start: Bytes, record: Record) returns (r: Result<Bytes, CodecError>)
    ensures r.Ok? <==> RecordFits(record)
    ensures r.Ok? ==> r.value == start + RecordWire(record)
    ensures r.Err? ==> r.error == Oversized
  {
    var listed := PutAttrs(start, record.attributes);
    if listed.Err? { return listed; }
    r := PutLenPrefixed(listed.value, record.payload);
    if r.Ok? {
      var count, attrs, payload := U32Bytes(|record.attributes|), AttrsWire(record.attributes),
          LenPrefixed(record.payload);
      ConcatAssoc(start, count, attrs);
      ConcatAssoc(start, count + attrs, payload);
      ConcatAssoc(count, attrs, payload);
    }
  }

  /** The encoder: version, count, then the records one by one. */
  method EncodeBatch(records: seq<Record>) returns (r: Result<Bytes, CodecError>)
    ensures r == Encode(records)
  {
    if |records| >= U32_LIMIT { return Err(Oversized); }
    var head := [BATCH_FORMAT_VERSION] + U32Bytes(|records|);
    var buffer := head;
    hide U32Bytes, RecordFits;
    assert head == head + RecordsWire([]);
    for i := 0 to |records|
      invariant EachFits(records[..i])
      invariant buffer == head + RecordsWire(records[..i])
    {
      var put := PutRecord(buffer, records[i]);
      if put.Err? { assert !RecordFits(records[i]); return put; }
      RecordsWireSnoc(records[..i], records[i]);
      assert records[..i + 1] == records[..i] + [records[i]];
      ConcatAssoc(head, RecordsWire(records[..i]), RecordWire(records[i]));
      buffer := put.value;
    }
    assert records[..|records|] == records;
    ConcatAssoc([BATCH_FORMAT_VERSION], U32Bytes(|records|), RecordsWire(records));
    return Ok(buffer);
  }

  // Decoding. ------------------------------------------------------------------------------

  // A reader answers what the parse says, and on success leaves the bytes it did not read.
  ghost predicate Reads<T>(after: Bytes, r: Result<T, CodecError>, p: Parse<T>) {
    match p
    case Ok(v) => r == Ok(v.value) && after == v.rest
    case Err(e) => r == Err(e)
  }

  /** The unread bytes of a batch. */
  class Cursor {
    var bytes: Bytes

    constructor (batch: Bytes)
      ensures bytes == batch
    {
      bytes := batch;
    }

    method Take(count: nat) returns (r: Result<Bytes, CodecError>)
      modifies this
      ensures Reads(bytes, r, BatchCodec.Take(old(bytes), count))
      ensures r.Err? ==> bytes == old(bytes)
    {
      if |bytes| < count { return Err(Truncated); }
      var taken := bytes[..count];
      bytes := bytes[count..];
      return Ok(taken);
    }

    method TakeU32() returns (r: Result<nat, CodecError>)
      modifies this
      ensures Reads(bytes, r, BatchCodec.TakeU32(old(bytes)))
    {
      var four := Take(4);
      if four.Err? { return Err(four.error); }
      return Ok(U32Value(four.value));
    }

    method TakeLenPrefixed() returns (r: Result<Bytes, CodecError>)
      modifies this
      ensures Reads(bytes, r, BatchCodec.TakeLenPrefixed(old(bytes)))
    {
      var length := TakeU32();
      if length.Err? { return Err(length.error); }
      r := Take(length.value);
    }

    method TakeString(utf8: Utf8) returns (r: Result<Bytes, CodecError>)
      modifies this
      ensures Reads(bytes, r, BatchCodec.TakeString(utf8, old(bytes)))
    {
      var text := TakeLenPrefixed();
      if text.Err? { return text; }
      return if utf8(text.value) then Ok(text.value) else Err(InvalidAttribute);
    }
  }

  // A parse that goes on after `done` has been read.
  function Resumed<T>(done: seq<T>, p: Parse<seq<T>>): Parse<seq<T>> {
    match p
    case Err(e) => Err(e)
    case Ok(q) => Ok(Parsed(done + q.value, q.rest))
  }

  lemma {:induction false} ResumedSnoc<T>(done: seq<T>, x: T, p: Parse<seq<T>>)
    ensures Resumed(done, Resumed([x], p)) == Resumed(done + [x], p)
  {
    if p.Ok? { ConcatAssoc(done, [x], p.value.value); }
  }

  lemma {:induction false} ResumedEnds<T>(done: seq<T>, p: Parse<seq<T>>, b: Bytes)
    ensures Resumed([], p) == p
    ensures Resumed(done, Ok(Parsed([], b))) == Ok(Parsed(done, b))
  {
    if p.Ok? { assert [] + p.value.value == p.value.value; }
    assert done + [] == done;
  }

  lemma {:induction false} AttrsStep(utf8: Utf8, done: seq<Attr>, b: Bytes, n: nat)
    requires n > 0
    ensures TakeAttr(utf8, b).Err? ==> Resumed(done, TakeAttrs(utf8, b, n)) == Err(TakeAttr(utf8, b).error)
    ensures TakeAttr(utf8, b).Ok? ==>
      var a := TakeAttr(utf8, b).value;
      Resumed(done, TakeAttrs(utf8, b, n)) == Resumed(done + [a.value], TakeAttrs(utf8, a.rest, n - 1))
  {
    hide TakeAttr;
    if TakeAttr(utf8, b).Ok? {
      var a := TakeAttr(utf8, b).value;
      ResumedSnoc(done, a.value, TakeAttrs(utf8, a.rest, n - 1));
    }
  }

  lemma {:induction false} RecordsStep(utf8: Utf8, done: seq<Record>, b: Bytes, n: nat)
    requires n > 0
    ensures TakeRecord(utf8, b).Err? ==> Resumed(done, TakeRecords(utf8, b, n)) == Err(TakeRecord(utf8, b).error)
    ensures TakeRecord(utf8, b).Ok? ==>
      var a := TakeRecord(utf8, b).value;
      Resumed(done, TakeRecords(utf8, b, n)) == Resumed(done + [a.value], TakeRecords(utf8, a.rest, n - 1))
  {
    hide TakeRecord;
    if TakeRecord(utf8, b).Ok? {
      var a := TakeRecord(utf8, b).value;
      ResumedSnoc(done, a.value, TakeRecords(utf8, a.rest, n - 1));
    }
  }

  lemma {:induction false} CollapseSnoc(l: seq<Attr>, a: Attr)
    ensures Collapse(l + [a]) == Insert(Collapse(l), a.0, a.1)
  {
    assert (l + [a])[..|l|] == l;
  }

  lemma {:induction false} AsMapsSnoc(rs: seq<Record>, r: Record)
    ensures AsMaps(rs + [r]) == AsMaps(rs) + [AsMap(r)]
  {
  }

  method DecodeAttr(utf8: Utf8, cursor: Cursor) returns (r: Result<Attr, CodecError>)
    modifies cursor
    ensures Reads(cursor.bytes, r, TakeAttr(utf8, old(cursor.bytes)))
  {
    var key := cursor.TakeString(utf8);
    if key.Err? { return Err(key.error); }
    var value := cursor.TakeString(utf8);
    if value.Err? { return Err(value.error); }
    return Ok((key.value, value.value));
  }

  // The attribute loop of one record, inserting into a map as it reads.
  method DecodeAttrs(utf8: Utf8, cursor: Cursor, n: nat)
    returns (r: Result<seq<Attr>, CodecError>, ghost wire: seq<Attr>)
    modifies cursor
    ensures TakeAttrs(utf8, old(cursor.bytes), n).Err? ==> r == Err(TakeAttrs(utf8, old(cursor.bytes), n).error)
    ensures TakeAttrs(utf8, old(cursor.bytes), n).Ok? ==>
      r == Ok(Collapse(wire)) && TakeAttrs(utf8, old(cursor.bytes), n) == Ok(Parsed(wire, cursor.bytes))
  {
    ghost var start := cursor.bytes;
    var attributes: seq<Attr> := [];
    wire := [];
    ResumedEnds(wire, TakeAttrs(utf8, start, n), start);
    hide TakeAttr, Resumed, Insert;
    for i := 0 to n
      invariant attributes == Collapse(wire)
      invariant TakeAttrs(utf8, start, n) == Resumed(wire, TakeAttrs(utf8, cursor.bytes, n - i))
    {
      AttrsStep(utf8, wire, cursor.bytes, n - i);
      var attr := DecodeAttr(utf8, cursor);
      if attr.Err? { return Err(attr.error), wire; }
      CollapseSnoc(wire, attr.value);
      attributes := Insert(attributes, attr.value.0, attr.value.1);
      wire := wire + [attr.value];
    }
    ResumedEnds(wire, TakeAttrs(utf8, start, n), cursor.bytes);
    return Ok(attributes), wire;
  }

  method DecodeRecord(utf8: Utf8, cursor: Cursor) returns (r: Result<Record, CodecError>, ghost wire: Record)
    modifies cursor
    ensures TakeRecord(utf8, old(cursor.bytes)).Err? ==> r == Err(TakeRecord(utf8, old(cursor.bytes)).error)
    ensures TakeRecord(utf8, old(cursor.bytes)).Ok? ==>
      r == Ok(AsMap(wire)) && TakeRecord(utf8, old(cursor.bytes)) == Ok(Parsed(wire, cursor.bytes))
  {
    wire := Record([], []);
    var count := cursor.TakeU32();
    if count.Err? { return Err(count.error), wire; }
    var attributes, listed := DecodeAttrs(utf8, cursor, count.value);
    if attributes.Err? { return Err(attributes.error), wire; }
    var payload := cursor.TakeLenPrefixed();
    if payload.Err? { return Err(payload.error), wire; }
    return Ok(Record(attributes.value, payload.value)), Record(listed, payload.value);
  }

  /** The decoder: it reads the version, the count and that many records, then expects nothing more. */
  method DecodeBatch(utf8: Utf8, batch: Bytes) returns (r: Result<seq<Record>, CodecError>)
    ensures r == Decode(utf8, batch)
  {
    var cursor := new Cursor(batch);
    var version := cursor.Take(1);
    if version.Err? { return Err(version.error); }
    if version.value[0] != BATCH_FORMAT_VERSION { return Err(UnsupportedVersion(version.value[0])); }
    var count := cursor.TakeU32();
    if count.Err? { return Err(count.error); }
    ghost var start := cursor.bytes;
    var n := count.value;
    var records: seq<Record> := [];
    ghost var wire: seq<Record> := [];
    ResumedEnds(wire, TakeRecords(utf8, start, n), start);
    hide Take, TakeU32, TakeRecord, Resumed, AsMaps, AsMap;
    for i := 0 to n
      invariant records == AsMaps(wire)
      invariant TakeRecords(utf8, start, n) == Resumed(wire, TakeRecords(utf8, cursor.bytes, n - i))
    {
      RecordsStep(utf8, wire, cursor.bytes, n - i);
      var record, listed := DecodeRecord(utf8, cursor);
      if record.Err? { return Err(record.error); }
      AsMapsSnoc(wire, listed);
      records := records + [record.value];
      wire := wire + [listed];
    }
    ResumedEnds(wire, TakeRecords(utf8, start, n), cursor.bytes);
    return if cursor.bytes == [] then Ok(records) else Err(Truncated);
  }
}
