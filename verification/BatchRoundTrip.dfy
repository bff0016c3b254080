/** What the batch codec promises: its encodings are self-delimiting, decoding undoes
    encoding, and re-encoding gives the same bytes exactly for canonical batches. */
module BatchRoundTrip {
  import opened Prelude
  import opened OrderedAttrs
  import opened BatchCodec

  // Every record's attributes are a map, as an encoder is always given.
  ghost predicate Canonical(rs: seq<Record>) {
    forall i :: 0 <= i < |rs| ==> Ascending(rs[i].attributes)
  }

  lemma {:induction false} AsMapsId(rs: seq<Record>)
    ensures AsMaps(rs) == rs <==> Canonical(rs)
  {
    forall i | 0 <= i < |rs| ensures AsMap(rs[i]) == rs[i] <==> Ascending(rs[i].attributes) {
      CollapseAscending(rs[i].attributes);
      if Ascending(rs[i].attributes) { CollapseAscendingId(rs[i].attributes); }
    }
    if AsMaps(rs) == rs {
      forall i | 0 <= i < |rs| ensures Ascending(rs[i].attributes) { assert AsMaps(rs)[i] == AsMap(rs[i]); }
    }
  }

  /** Decoding undoes encoding. */
  lemma {:induction false} RoundTrip(utf8: Utf8, rs: seq<Record>)
    requires Canonical(rs) && Text(utf8, rs)
    ensures Encode(rs).Ok? <==> Fits(rs)
    ensures Encode(rs).Ok? ==> Decode(utf8, Encode(rs).value) == Ok(rs)
  {
    if Fits(rs) {
      ParseExact(utf8, BatchWire(rs), rs);
      AsMapsId(rs);
    }
  }

  // Truncation. --------------------------------------------------------------------------

  lemma {:induction false} PrefixOfConcat<T>(a: seq<T>, b: seq<T>, p: seq<T>)
    requires p < a + b
    ensures |p| < |a| ==> p < a
    ensures |p| >= |a| ==> p == a + p[|a|..] && p[|a|..] < b
  {
    if |p| >= |a| {
      assert p == p[..|a|] + p[|a|..];
      assert forall i :: 0 <= i < |p| - |a| ==> p[|a|..][i] == (a + b)[|a| + i];
    }
  }

  lemma {:induction false} ShortLenPrefixed(b: Bytes, p: Bytes)
    requires |b| < U32_LIMIT && p < LenPrefixed(b)
    ensures TakeLenPrefixed(p) == Err(Truncated)
  {
    PrefixOfConcat(U32Bytes(|b|), b, p);
    if |p| >= 4 { TakeU32Inverts(|b|, p[4..]); }
  }

  lemma {:induction false} ShortAttr(utf8: Utf8, a: Attr, p: Bytes)
    requires AttrFits(a) && utf8(a.0) && utf8(a.1) && p < AttrWire(a)
    ensures TakeAttr(utf8, p) == Err(Truncated)
  {
    var key, value := LenPrefixed(a.0), LenPrefixed(a.1);
    PrefixOfConcat(key, value, p);
    if |p| < |key| {
      ShortLenPrefixed(a.0, p);
    } else {
      TakeLenPrefixedInverts(a.0, p[|key|..]);
      ShortLenPrefixed(a.1, p[|key|..]);
    }
  }

  lemma {:induction false} ShortAttrs(utf8: Utf8, l: seq<Attr>, p: Bytes)
    requires AttrsFit(l) && TextAttrs(utf8, l) && p < AttrsWire(l)
    ensures TakeAttrs(utf8, p, |l|) == Err(Truncated)
    decreases |l|
  {
    hide AttrWire, TakeAttr, AttrFits;
    var head, tail := AttrWire(l[0]), AttrsWire(l[1..]);
    PrefixOfConcat(head, tail, p);
    if |p| < |head| {
      ShortAttr(utf8, l[0], p);
    } else {
      TakeAttrInverts(utf8, l[0], p[|head|..]);
      ShortAttrs(utf8, l[1..], p[|head|..]);
    }
    hide AttrsWire;
  }

  lemma {:induction false} ShortRecord(utf8: Utf8, r: Record, p: Bytes)
    requires RecordFits(r) && TextAttrs(utf8, r.attributes) && p < RecordWire(r)
    ensures TakeRecord(utf8, p) == Err(Truncated)
  {
    var count, attrs, payload := U32Bytes(|r.attributes|), AttrsWire(r.attributes), LenPrefixed(r.payload);
    PrefixOfConcat(count, attrs + payload, p);
    if |p| >= 4 {
      var q := p[4..];
      TakeU32Inverts(|r.attributes|, q);
      PrefixOfConcat(attrs, payload, q);
      hide TakeU32, U32Bytes;
      if |q| < |attrs| {
        ShortAttrs(utf8, r.attributes, q);
      } else {
        TakeAttrsInverts(utf8, r.attributes, q[|attrs|..]);
        ShortLenPrefixed(r.payload, q[|attrs|..]);
      }
    }
  }

  lemma {:induction false} ShortRecords(utf8: Utf8, rs: seq<Record>, p: Bytes)
    requires EachFits(rs) && Text(utf8, rs) && p < RecordsWire(rs)
    ensures TakeRecords(utf8, p, |rs|) == Err(Truncated)
    decreases |rs|
  {
    hide RecordWire, TakeRecord, RecordFits, TextAttrs;
    var head, tail := RecordWire(rs[0]), RecordsWire(rs[1..]);
    PrefixOfConcat(head, tail, p);
    if |p| < |head| {
      ShortRecord(utf8, rs[0], p);
    } else {
      TakeRecordInverts(utf8, rs[0], p[|head|..]);
      ShortRecords(utf8, rs[1..], p[|head|..]);
    }
    hide RecordsWire;
  }

  /** Cutting an encoding anywhere, or adding anything after it, is always noticed
      and always reported as truncation. */
  lemma {:induction false} OnlyTheWholeEncoding(utf8: Utf8, rs: seq<Record>, b: Bytes)
    requires Fits(rs) && Text(utf8, rs) && (b < BatchWire(rs) || BatchWire(rs) < b)
    ensures Decode(utf8, b) == Err(Truncated)
  {
    hide U32Bytes, RecordsWire, TakeRecords, TakeU32, RecordFits, TextAttrs;
    var count, body := U32Bytes(|rs|), RecordsWire(rs);
    if b < BatchWire(rs) {
      PrefixOfConcat([BATCH_FORMAT_VERSION], count + body, b);
      if b != [] {
        ShortBody(utf8, rs, b[1..]);
      }
    } else {
      ReadsOverlong(utf8, rs, b);
      OverlongLeaves(utf8, rs, b);
    }
  }

  lemma {:induction false} ShortBody(utf8: Utf8, rs: seq<Record>, p: Bytes)
    requires Fits(rs) && Text(utf8, rs) && p < U32Bytes(|rs|) + RecordsWire(rs)
    ensures |p| < 4 ==> TakeU32(p) == Err(Truncated)
    ensures |p| >= 4 ==> TakeU32(p) == Ok(Parsed(|rs|, p[4..])) && TakeRecords(utf8, p[4..], |rs|) == Err(Truncated)
  {
    PrefixOfConcat(U32Bytes(|rs|), RecordsWire(rs), p);
    if |p| >= 4 {
      TakeU32Inverts(|rs|, p[4..]);
      ShortRecords(utf8, rs, p[4..]);
    }
  }

  // The decoder's reads, before it asks whether any bytes are left.
  function ReadThrough(utf8: Utf8, b: Bytes): Parse<seq<Record>> {
    match Take(b, 1)
    case Err(e) => Err(e)
    case Ok(v) =>
      if v.value[0] != BATCH_FORMAT_VERSION then Err(UnsupportedVersion(v.value[0])) else
        match TakeU32(v.rest)
        case Err(e) => Err(e)
        case Ok(n) => TakeRecords(utf8, n.rest, n.value)
  }

  ghost predicate Overlong(utf8: Utf8, rs: seq<Record>, b: Bytes) {
    Fits(rs) && Text(utf8, rs) && BatchWire(rs) < b
  }

  lemma {:induction false} ReadsOverlong(utf8: Utf8, rs: seq<Record>, b: Bytes)
    requires Overlong(utf8, rs, b)
    ensures ReadThrough(utf8, b) == Ok(Parsed(rs, b[|BatchWire(rs)|..]))
  {
    hide U32Bytes, RecordsWire, TakeRecords, TakeU32, RecordFits, TextAttrs;
    var count, body := U32Bytes(|rs|), RecordsWire(rs);
    var t := b[|BatchWire(rs)|..];
    assert b[1..] == count + (body + t) by { assert b == BatchWire(rs) + t; }
    TakeU32Inverts(|rs|, body + t);
    TakeRecordsInverts(utf8, rs, t);
  }

  lemma {:induction false} LeftoverIsOverlong(utf8: Utf8, b: Bytes)
    requires ReadThrough(utf8, b).Ok? && ReadThrough(utf8, b).value.rest != []
    ensures Overlong(utf8, ReadThrough(utf8, b).value.value, b)
  {
    hide TakeU32, TakeRecords, RecordsWire, RecordFits, TextAttrs, U32Bytes;
    var n := TakeU32(b[1..]).value;
    TakeU32Exact(b[1..]);
    TakeRecordsExact(utf8, n.rest, n.value);
    var rs, rest := ReadThrough(utf8, b).value.value, ReadThrough(utf8, b).value.rest;
    HeadTail(b);
    ConcatAssoc(U32Bytes(|rs|), RecordsWire(rs), rest);
    ConcatAssoc([b[0]], U32Bytes(|rs|) + RecordsWire(rs), rest);
    assert b == BatchWire(rs) + rest;
  }

  /** A batch is reported as truncated exactly when its bytes run out while it is read, or
      when they strictly extend some batch: then every record was read and bytes were left.
      So the error means what it is named after exactly when no batch is extended. */
  lemma {:induction false} TruncatedExactly(utf8: Utf8, b: Bytes)
    ensures Decode(utf8, b) == Err(Truncated) <==>
      ReadThrough(utf8, b) == Err(Truncated) || exists rs :: Overlong(utf8, rs, b)
    ensures (exists rs :: Overlong(utf8, rs, b)) <==> ReadThrough(utf8, b).Ok? && ReadThrough(utf8, b).value.rest != []
  {
    hide TakeU32, TakeRecords, BatchWire, Fits, Text, Overlong;
    if rs :| Overlong(utf8, rs, b) {
      ReadsOverlong(utf8, rs, b);
      OverlongLeaves(utf8, rs, b);
    }
    if ReadThrough(utf8, b).Ok? && ReadThrough(utf8, b).value.rest != [] { LeftoverIsOverlong(utf8, b); }
  }

  lemma {:induction false} OverlongLeaves(utf8: Utf8, rs: seq<Record>, b: Bytes)
    requires Overlong(utf8, rs, b)
    ensures b[|BatchWire(rs)|..] != []
  {
    hide BatchWire, Text;
  }

  // Re-encoding. ---------------------------------------------------------------------------

  lemma {:induction false} CollapseKeepsText(utf8: Utf8, l: seq<Attr>)
    requires AttrsFit(l) && TextAttrs(utf8, l)
    ensures AttrsFit(Collapse(l)) && TextAttrs(utf8, Collapse(l))
  {
    var m := Collapse(l);
    forall i | 0 <= i < |m| ensures AttrFits(m[i]) && utf8(m[i].0) && utf8(m[i].1) {
      CollapseKeepsLast(l, m[i]);
    }
  }

  lemma {:induction false} AsMapsKeeps(utf8: Utf8, rs: seq<Record>)
    requires Fits(rs) && Text(utf8, rs)
    ensures Fits(AsMaps(rs)) && Text(utf8, AsMaps(rs)) && Canonical(AsMaps(rs))
  {
    var ms := AsMaps(rs);
    forall i | 0 <= i < |ms| ensures RecordFits(ms[i]) && TextAttrs(utf8, ms[i].attributes) &&
        Ascending(ms[i].attributes) {
      var l := rs[i].attributes;
      assert ms[i] == AsMap(rs[i]) && RecordFits(rs[i]) && TextAttrs(utf8, l);
      CollapseKeepsText(utf8, l);
      CollapseLength(l);
      CollapseAscending(l);
    }
  }

  lemma {:induction false} AttrsWireSize(l: seq<Attr>)
    requires AttrsFit(l)
    ensures |AttrsWire(l)| == AttrsSize(l)
  {
    if l != [] { AttrsWireSize(l[1..]); }
  }

  lemma {:induction false} RecordWireSize(r: Record)
    requires RecordFits(r) && RecordFits(AsMap(r))
    ensures DistinctKeys(r.attributes) ==> |RecordWire(AsMap(r))| == |RecordWire(r)|
    ensures !DistinctKeys(r.attributes) ==> |RecordWire(AsMap(r))| < |RecordWire(r)|
  {
    AttrsWireSize(r.attributes);
    AttrsWireSize(Collapse(r.attributes));
    CollapseShrinks(r.attributes);
  }

  ghost predicate NoKeyRepeats(rs: seq<Record>) {
    forall i :: 0 <= i < |rs| ==> DistinctKeys(rs[i].attributes)
  }

  lemma {:induction false} AsMapsTail(rs: seq<Record>)
    requires rs != []
    ensures AsMaps(rs)[1..] == AsMaps(rs[1..])
  {
  }

  lemma {:induction false} RecordsWireSize(rs: seq<Record>)
    requires EachFits(rs) && EachFits(AsMaps(rs))
    ensures NoKeyRepeats(rs) ==> |RecordsWire(AsMaps(rs))| == |RecordsWire(rs)|
    ensures !NoKeyRepeats(rs) ==> |RecordsWire(AsMaps(rs))| < |RecordsWire(rs)|
  {
    if rs != [] {
      AsMapsTail(rs);
      assert EachFits(rs[1..]) && EachFits(AsMaps(rs)[1..]) && AsMaps(rs)[0] == AsMap(rs[0]) &&
          RecordFits(AsMaps(rs)[0]);
      RecordWireSize(rs[0]);
      RecordsWireSize(rs[1..]);
      assert NoKeyRepeats(rs) <==> DistinctKeys(rs[0].attributes) && NoKeyRepeats(rs[1..]) by {
        hide DistinctKeys;
        HeadTail(rs);
      }
      hide RecordWire, DistinctKeys, NoKeyRepeats, RecordFits, AsMaps, AsMap;
    }
  }

  // The same payloads, each with the same attribute pairs in some order.
  ghost predicate Reorders(a: seq<Record>, b: seq<Record>) {
    |a| == |b| && forall i :: 0 <= i < |a| ==>
        a[i].payload == b[i].payload && multiset(a[i].attributes) == multiset(b[i].attributes)
  }

  lemma {:induction false} AsMapsReorders(rs: seq<Record>)
    requires NoKeyRepeats(rs)
    ensures Reorders(rs, AsMaps(rs))
  {
    var ms := AsMaps(rs);
    forall i | 0 <= i < |rs| ensures rs[i].payload == ms[i].payload &&
        multiset(rs[i].attributes) == multiset(ms[i].attributes) {
      CollapsePermutes(rs[i].attributes);
    }
  }

  /** Whatever decodes is the wire form of some records, and encoding what was decoded
      gives those bytes back exactly when every record listed its attributes in
      ascending key order, each key once. Otherwise it gives fewer bytes when a key
      repeats, and as many, with each record's pairs in another order, when none does. */
  lemma {:induction false} ReencodeExact(utf8: Utf8, b: Bytes, wire: seq<Record>)
    requires ParseBatch(utf8, b) == Ok(wire)
    ensures Fits(wire) && b == BatchWire(wire)
    ensures Decode(utf8, b) == Ok(AsMaps(wire)) && Encode(AsMaps(wire)).Ok?
    ensures Encode(AsMaps(wire)) == Ok(b) <==> Canonical(wire)
    ensures NoKeyRepeats(wire) ==> |Encode(AsMaps(wire)).value| == |b| && Reorders(wire, AsMaps(wire))
    ensures !NoKeyRepeats(wire) ==> |Encode(AsMaps(wire)).value| < |b|
  {
    ParseExact(utf8, b, wire);
    AsMapsKeeps(utf8, wire);
    ParseExact(utf8, b, AsMaps(wire));
    AsMapsId(wire);
    RecordsWireSize(wire);
    if NoKeyRepeats(wire) { AsMapsReorders(wire); }
    hide ParseBatch, AsMaps, RecordsWire, Text, U32Bytes, Canonical, NoKeyRepeats;
  }

  /** Decoding is stable: what was decoded survives any further round trip. */
  lemma {:induction false} DecodeIsStable(utf8: Utf8, b: Bytes)
    requires Decode(utf8, b).Ok?
    ensures Encode(Decode(utf8, b).value).Ok?
    ensures Decode(utf8, Encode(Decode(utf8, b).value).value) == Decode(utf8, b)
  {
    var wire := ParseBatch(utf8, b).value;
    ParseExact(utf8, b, wire);
    AsMapsKeeps(utf8, wire);
    RoundTrip(utf8, AsMaps(wire));
  }
}
