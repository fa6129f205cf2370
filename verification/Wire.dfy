/**
  The Protocol Buffers wire format: base 128 varints, tags, length-delimited records and groups,
  as the encoding specification lays them out. Messages read and write through these functions.
  */
module Wire {
  import opened Bytes

  // The largest field number.
  const MAX_NUMBER: nat := 0x1FFF_FFFF

  // Nesting the parser accepts before it gives up.
  const MAX_DEPTH: nat := 100

  /** One field as it stands on the wire; only the two payloads used by the messages are kept. */
  datatype Payload = Varint(v: nat) | Len(data: bytes) | Other

  datatype Field = Field(number: nat, payload: Payload)

  // ---------------------------------------------------------------- varints

  function EncodeVarint(v: nat): (b: bytes)
  {
    if v < 128 then [v] else [128 + v % 128] + EncodeVarint(v / 128)
  }

  /** The size table of a 64-bit varint. */
  function VarintSize(v: nat): nat
  {
    if v < 0x80 then 1
    else if v < 0x4000 then 2
    else if v < 0x20_0000 then 3
    else if v < 0x1000_0000 then 4
    else if v < 0x8_0000_0000 then 5
    else if v < 0x400_0000_0000 then 6
    else if v < 0x2_0000_0000_0000 then 7
    else if v < 0x100_0000_0000_0000 then 8
    else if v < 0x8000_0000_0000_0000 then 9
    else 10
  }

  /** Reads a varint of at most `limit` bytes: its value before truncation, and its length. */
  function DecodeVarint(b: bytes, limit: nat): (r: Option<(nat, nat)>)
    ensures r.Some? ==> 1 <= r.value.1 <= |b|
    decreases limit
  {
    if limit == 0 || b == [] then None
    else if b[0] < 128 then Some((b[0], 1))
    else match DecodeVarint(b[1..], limit - 1)
      case None => None
      case Some((high, n)) => Some((b[0] - 128 + 128 * high, n + 1))
  }

  lemma {:induction false} VarintLength(v: nat)
    requires v < TWO64
    ensures |EncodeVarint(v)| == VarintSize(v)
  {
    if v >= 128 {
      VarintLength(v / 128);
    }
  }

  lemma {:induction false} VarintRoundTrip(v: nat, limit: nat, rest: bytes)
    requires |EncodeVarint(v)| <= limit
    ensures DecodeVarint(EncodeVarint(v) + rest, limit) == Some((v, |EncodeVarint(v)|))
  {
    var b := EncodeVarint(v) + rest;
    if v >= 128 {
      assert b[1..] == EncodeVarint(v / 128) + rest;
      VarintRoundTrip(v / 128, limit - 1, rest);
    }
  }

  lemma {:induction false} VarintExtends(b: bytes, limit: nat, more: bytes)
    requires DecodeVarint(b, limit).Some?
    ensures DecodeVarint(b + more, limit) == DecodeVarint(b, limit)
    decreases limit
  {
    if b[0] >= 128 {
      assert (b + more)[1..] == b[1..] + more;
      VarintExtends(b[1..], limit - 1, more);
    }
  }

  // ---------------------------------------------------------------- fields

  /** A tag: a varint of at most five bytes, kept to 32 bits. */
  function ReadTag(b: bytes): (r: Option<(nat, nat)>)
    ensures r.Some? ==> 1 <= r.value.1 <= |b| && r.value.0 < TWO32
  {
    match DecodeVarint(b, 5)
    case None => None
    case Some((tag, n)) => Some((tag % TWO32, n))
  }

  /** A length of at most five bytes and below 2 GiB, and as many bytes after it. */
  function ReadLen(b: bytes): (r: Option<(bytes, nat)>)
    ensures r.Some? ==> 1 <= r.value.1 <= |b| && |r.value.0| < r.value.1
  {
    match DecodeVarint(b, 5)
    case None => None
    case Some((len, n)) => if len >= TWO31 || len > |b| - n then None else Some((b[n..n + len], n + len))
  }

  predicate EndsMessage(tag: nat)
  {
    tag == 0 || tag % 8 == 4
  }

  /** What follows `tag`, by its wire type; the whole group when it opens one. */
  function ReadPayload(tag: nat, b: bytes, depth: nat): (r: Option<(Payload, nat)>)
    ensures r.Some? ==> r.value.1 <= |b|
    ensures r.Some? ==> (r.value.0.Varint? <==> tag % 8 == 0) && (r.value.0.Len? <==> tag % 8 == 2)
    ensures r.Some? && r.value.0.Len? ==> |r.value.0.data| < r.value.1
    decreases |b|, 1
  {
    if tag / 8 == 0 then None
    else if tag % 8 == 0 then
      match DecodeVarint(b, 10)
      case None => None
      case Some((v, n)) => Some((Varint(v % TWO64), n))
    else if tag % 8 == 1 then
      if |b| < 8 then None else Some((Other, 8))
    else if tag % 8 == 2 then
      match ReadLen(b)
      case None => None
      case Some((data, n)) => Some((Len(data), n))
    else if tag % 8 == 3 then
      if depth == 0 then None else
      match SkipGroup(tag / 8, b, depth - 1)
      case None => None
      case Some(n) => Some((Other, n))
    else if tag % 8 == 5 then
      if |b| < 4 then None else Some((Other, 4))
    else None
  }

  /** The bytes up to and including the tag that closes group `number`. */
  function SkipGroup(number: nat, b: bytes, depth: nat): (r: Option<nat>)
    ensures r.Some? ==> r.value <= |b|
    decreases |b|, 0
  {
    match ReadTag(b)
    case None => None
    case Some((tag, n)) =>
      if EndsMessage(tag) then
        if tag == 8 * number + 4 then Some(n) else None
      else
        match ReadPayload(tag, b[n..], depth)
        case None => None
        case Some((_, k)) =>
          Advance(n + k, SkipGroup(number, b[n..][k..], depth))
  }

  function Advance(n: nat, end: Option<nat>): Option<nat>
  {
    if end.None? then None else Some(n + end.value)
  }

  /** The first field of a nonempty message body and its size on the wire. */
  function ReadField(b: bytes, depth: nat): (r: Option<(Field, nat)>)
    ensures r.Some? ==> 1 <= r.value.1 <= |b|
    ensures r.Some? && r.value.0.payload.Len? ==> |r.value.0.payload.data| < |b|
  {
    match ReadTag(b)
    case None => None
    case Some((tag, n)) =>
      if EndsMessage(tag) then None else Tagged(tag, n, ReadPayload(tag, b[n..], depth))
  }

  /** A payload with its tag of `n` bytes in front. */
  function Tagged(tag: nat, n: nat, payload: Option<(Payload, nat)>): Option<(Field, nat)>
  {
    match payload
    case None => None
    case Some((p, k)) => Some((Field(tag / 8, p), n + k))
  }

  /** How the field reader goes on, for a caller that reads the tag itself. */
  lemma FieldAfterTag(b: bytes, depth: nat)
    ensures ReadTag(b).None? ==> ReadField(b, depth).None?
    ensures ReadTag(b).Some? ==>
              var (tag, n) := ReadTag(b).value;
              && (EndsMessage(tag) ==> ReadField(b, depth).None?)
              && (!EndsMessage(tag) ==> ReadField(b, depth) == Tagged(tag, n, ReadPayload(tag, b[n..], depth)))
              && (tag >= 8 && tag % 8 == 0 ==>
                    var r := DecodeVarint(b[n..], 10);
                    ReadField(b, depth) ==
                    if r.None? then None else Some((Field(tag / 8, Varint(r.value.0 % TWO64)), n + r.value.1)))
              && (tag >= 8 && tag % 8 == 2 ==>
                    var r := ReadLen(b[n..]);
                    ReadField(b, depth) ==
                    if r.None? then None else Some((Field(tag / 8, Len(r.value.0)), n + r.value.1)))
  {
    hide ReadTag, ReadLen, DecodeVarint, SkipGroup;
  }

  /** The fields of a whole message body, in wire order. */
  function ReadFields(b: bytes, depth: nat): Option<seq<Field>>
    decreases |b|
  {
    if b == [] then Some([]) else
    match ReadField(b, depth)
    case None => None
    case Some((field, n)) =>
      match ReadFields(b[n..], depth)
      case None => None
      case Some(fields) => Some([field] + fields)
  }

  // ---------------------------------------------------------------- more bytes change nothing

  lemma TagExtends(b: bytes, more: bytes)
    requires ReadTag(b).Some?
    ensures ReadTag(b + more) == ReadTag(b)
  {
    VarintExtends(b, 5, more);
  }

  lemma LenExtends(b: bytes, more: bytes)
    requires ReadLen(b).Some?
    ensures ReadLen(b + more) == ReadLen(b)
  {
    hide DecodeVarint;
    VarintExtends(b, 5, more);
    var n, end := DecodeVarint(b, 5).value.1, ReadLen(b).value.1;
    assert (b + more)[n..end] == b[n..end];
  }

  lemma {:induction false} PayloadExtends(tag: nat, b: bytes, depth: nat, more: bytes)
    requires ReadPayload(tag, b, depth).Some?
    ensures ReadPayload(tag, b + more, depth) == ReadPayload(tag, b, depth)
    decreases |b|, 1
  {
    if tag % 8 == 0 {
      VarintExtends(b, 10, more);
    } else if tag % 8 == 2 {
      LenExtends(b, more);
    } else if tag % 8 == 3 {
      GroupExtends(tag / 8, b, depth - 1, more);
    }
  }

  /** Skipping a group goes on behind a field. */
  lemma GroupUnfolds(number: nat, b: bytes, depth: nat, tag: nat, n: nat, k: nat)
    requires ReadTag(b) == Some((tag, n)) && !EndsMessage(tag)
    requires ReadPayload(tag, b[n..], depth).Some? && ReadPayload(tag, b[n..], depth).value.1 == k
    ensures SkipGroup(number, b, depth) == Advance(n + k, SkipGroup(number, b[n..][k..], depth))
  {
    hide ReadPayload, ReadTag;
  }

  /** That does not depend on what follows the group. */
  lemma GroupRound(number: nat, b: bytes, depth: nat, more: bytes, n: nat, k: nat)
    requires ReadTag(b).Some? && ReadTag(b).value.1 == n && !EndsMessage(ReadTag(b).value.0)
    requires ReadPayload(ReadTag(b).value.0, b[n..], depth).Some?
    requires ReadPayload(ReadTag(b).value.0, b[n..], depth).value.1 == k
    requires ReadTag(b + more) == ReadTag(b)
    requires ReadPayload(ReadTag(b).value.0, b[n..] + more, depth) == ReadPayload(ReadTag(b).value.0, b[n..], depth)
    ensures SkipGroup(number, b, depth) == Advance(n + k, SkipGroup(number, b[n..][k..], depth))
    ensures SkipGroup(number, b + more, depth) == Advance(n + k, SkipGroup(number, b[n..][k..] + more, depth))
  {
    hide ReadPayload, ReadTag, SkipGroup, EndsMessage;
    var tag := ReadTag(b).value.0;
    assert (b + more)[n..] == b[n..] + more;
    assert (b[n..] + more)[k..] == b[n..][k..] + more;
    GroupUnfolds(number, b, depth, tag, n, k);
    GroupUnfolds(number, b + more, depth, tag, n, k);
  }

  lemma GroupHead(number: nat, b: bytes, depth: nat)
    requires SkipGroup(number, b, depth).Some?
    ensures ReadTag(b).Some?
    ensures var (tag, n) := ReadTag(b).value;
            if EndsMessage(tag) then SkipGroup(number, b, depth) == Some(n) && tag == 8 * number + 4
            else ReadPayload(tag, b[n..], depth).Some?
  {
    hide ReadTag, ReadPayload;
  }

  lemma {:induction false} GroupExtends(number: nat, b: bytes, depth: nat, more: bytes)
    requires SkipGroup(number, b, depth).Some?
    ensures SkipGroup(number, b + more, depth) == SkipGroup(number, b, depth)
    decreases |b|, 0
  {
    GroupHead(number, b, depth);
    var (tag, n) := ReadTag(b).value;
    TagExtends(b, more);
    if !EndsMessage(tag) {
      hide ReadPayload, ReadTag, SkipGroup;
      var x := b[n..];
      PayloadExtends(tag, x, depth, more);
      var k := ReadPayload(tag, x, depth).value.1;
      GroupRound(number, b, depth, more, n, k);
      GroupExtends(number, x[k..], depth, more);
    }
  }

  lemma FieldExtends(b: bytes, depth: nat, more: bytes)
    requires ReadField(b, depth).Some?
    ensures ReadField(b + more, depth) == ReadField(b, depth)
  {
    hide ReadPayload, ReadTag;
    TagExtends(b, more);
    var (tag, n) := ReadTag(b).value;
    assert (b + more)[n..] == b[n..] + more;
    PayloadExtends(tag, b[n..], depth, more);
  }

  /** The fields of a well-formed body followed by any body are the fields of the two in order. */
  lemma {:induction false} FieldsConcat(x: bytes, y: bytes, depth: nat)
    requires ReadFields(x, depth).Some?
    ensures ReadFields(x + y, depth) == match ReadFields(y, depth)
                                        case None => None
                                        case Some(fields) => Some(ReadFields(x, depth).value + fields)
    decreases |x|
  {
    hide ReadField;
    if x == [] {
      assert x + y == y;
      if ReadFields(y, depth).Some? {
        assert [] + ReadFields(y, depth).value == ReadFields(y, depth).value;
      }
    } else {
      FieldExtends(x, depth, y);
      var (field, n) := ReadField(x, depth).value;
      assert (x + y)[n..] == x[n..] + y;
      FieldsConcat(x[n..], y, depth);
      if ReadFields(y, depth).Some? {
        var head, fields := ReadFields(x[n..], depth).value, ReadFields(y, depth).value;
        assert [field] + (head + fields) == [field] + head + fields;
      }
    }
  }

  // ---------------------------------------------------------------- writing

  /** A field that the writers below produce. */
  ghost predicate Writable(field: Field)
  {
    && 1 <= field.number <= MAX_NUMBER
    && match field.payload
       case Varint(v) => v < TWO64
       case Len(data) => |data| < TWO31
       case Other => false
  }

  function WriteVarintField(number: nat, v: nat): bytes
  {
    EncodeVarint(8 * number) + EncodeVarint(v)
  }

  function WriteLenField(number: nat, data: bytes): bytes
  {
    EncodeVarint(8 * number + 2) + EncodeVarint(|data|) + data
  }

  function WriteField(field: Field): bytes
    requires Writable(field)
  {
    match field.payload
    case Varint(v) => WriteVarintField(field.number, v)
    case Len(data) => WriteLenField(field.number, data)
  }

  function WriteFields(fields: seq<Field>): bytes
    requires forall f :: f in fields ==> Writable(f)
  {
    if fields == [] then [] else WriteField(fields[0]) + WriteFields(fields[1..])
  }

  lemma WriteNothing()
    ensures WriteFields([]) == []
  {
  }

  lemma TagRoundTrip(tag: nat, rest: bytes)
    requires tag < TWO32
    ensures ReadTag(EncodeVarint(tag) + rest) == Some((tag, |EncodeVarint(tag)|))
    ensures (EncodeVarint(tag) + rest)[|EncodeVarint(tag)|..] == rest
  {
    hide EncodeVarint, DecodeVarint, VarintSize;
    VarintLength(tag);
    FiveBytes(tag);
    VarintRoundTrip(tag, 5, rest);
  }

  lemma FiveBytes(v: nat)
    requires v < TWO32
    ensures VarintSize(v) <= 5
  {
  }

  lemma LenRoundTrip(data: bytes, rest: bytes)
    requires |data| < TWO31
    ensures ReadLen(EncodeVarint(|data|) + data + rest) == Some((data, |EncodeVarint(|data|) + data|))
  {
    hide EncodeVarint, DecodeVarint, VarintSize;
    var b, n := EncodeVarint(|data|) + data + rest, |EncodeVarint(|data|)|;
    assert b == EncodeVarint(|data|) + (data + rest);
    VarintLength(|data|);
    FiveBytes(|data|);
    VarintRoundTrip(|data|, 5, data + rest);
    assert b[n..n + |data|] == data;
  }

  lemma FieldRoundTrip(field: Field, rest: bytes, depth: nat)
    requires Writable(field)
    ensures |WriteField(field)| > 0
    ensures ReadField(WriteField(field) + rest, depth) == Some((field, |WriteField(field)|))
  {
    hide ReadTag, ReadLen, DecodeVarint, EncodeVarint;
    var b := WriteField(field) + rest;
    match field.payload
    case Varint(v) =>
      var tag := 8 * field.number;
      assert b == EncodeVarint(tag) + (EncodeVarint(v) + rest);
      TagRoundTrip(tag, EncodeVarint(v) + rest);
      VarintLength(v);
      VarintRoundTrip(v, 10, rest);
    case Len(data) =>
      var tag := 8 * field.number + 2;
      assert b == EncodeVarint(tag) + (EncodeVarint(|data|) + data + rest);
      TagRoundTrip(tag, EncodeVarint(|data|) + data + rest);
      LenRoundTrip(data, rest);
  }

  /** Reading what was written gives the fields back, in order. */
  lemma {:induction false} FieldsRoundTrip(fields: seq<Field>, depth: nat)
    requires forall f :: f in fields ==> Writable(f)
    ensures ReadFields(WriteFields(fields), depth) == Some(fields)
  {
    hide ReadField, WriteField;
    if fields != [] {
      var rest := WriteFields(fields[1..]);
      FieldRoundTrip(fields[0], rest, depth);
      FieldsRoundTrip(fields[1..], depth);
      assert (WriteField(fields[0]) + rest)[|WriteField(fields[0])|..] == rest;
      assert [fields[0]] + fields[1..] == fields;
    }
  }

  // ---------------------------------------------------------------- what other payloads take up

  /** Fixed-width fields take four or eight bytes. */
  lemma FixedWidths(number: nat, data: bytes, rest: bytes, depth: nat)
    requires 1 <= number <= MAX_NUMBER
    ensures var tag := EncodeVarint(8 * number + 1);
            |data| == 8 ==> ReadField(tag + (data + rest), depth) == Some((Field(number, Other), |tag| + 8))
    ensures var tag := EncodeVarint(8 * number + 5);
            |data| == 4 ==> ReadField(tag + (data + rest), depth) == Some((Field(number, Other), |tag| + 4))
  {
    hide ReadLen, SkipGroup, ReadField, ReadTag, EncodeVarint;
    OneTag(8 * number + 1, data + rest, depth);
    OneTag(8 * number + 5, data + rest, depth);
  }

  /** A closing tag, field number zero and the unused types end the parse. */
  lemma ParseEnds(number: nat, rest: bytes, depth: nat)
    requires 1 <= number <= MAX_NUMBER
    ensures ReadField(EncodeVarint(8 * number + 4) + rest, depth) == None
    ensures ReadField(EncodeVarint(8 * number + 6) + rest, depth) == None
    ensures ReadField(EncodeVarint(8 * number + 7) + rest, depth) == None
    ensures forall tag: nat :: tag < 8 ==> ReadField(EncodeVarint(tag) + rest, depth) == None
  {
    hide ReadLen, SkipGroup, ReadField, ReadTag, EncodeVarint;
    OneTag(8 * number + 4, rest, depth);
    OneTag(8 * number + 6, rest, depth);
    OneTag(8 * number + 7, rest, depth);
    forall tag: nat | tag < 8 ensures ReadField(EncodeVarint(tag) + rest, depth) == None {
      OneTag(tag, rest, depth);
    }
  }

  /** A varint that goes on for more bytes than it may is refused. */
  lemma {:induction false} LongVarintRefused(b: bytes, limit: nat)
    requires limit <= |b| && forall i :: 0 <= i < limit ==> b[i] >= 128
    ensures DecodeVarint(b, limit) == None
    decreases limit
  {
    if limit > 0 {
      LongVarintRefused(b[1..], limit - 1);
    }
  }

  /** A length beyond the bytes that are there, or of 2 GiB and more, is refused. */
  lemma LongLengthRefused(len: nat, data: bytes)
    requires len < TWO64 && (len > |data| || len >= TWO31)
    ensures ReadLen(EncodeVarint(len) + data) == None
  {
    hide EncodeVarint, DecodeVarint;
    if |EncodeVarint(len)| <= 5 {
      VarintRoundTrip(len, 5, data);
    } else {
      VarintTooLong(len, 5, data);
    }
  }

  lemma {:induction false} VarintTooLong(v: nat, limit: nat, rest: bytes)
    requires |EncodeVarint(v)| > limit
    ensures DecodeVarint(EncodeVarint(v) + rest, limit) == None
  {
    if limit > 0 {
      var b := EncodeVarint(v) + rest;
      assert b[1..] == EncodeVarint(v / 128) + rest;
      VarintTooLong(v / 128, limit - 1, rest);
    }
  }

  lemma OneTag(tag: nat, b: bytes, depth: nat)
    requires tag < TWO32
    ensures ReadField(EncodeVarint(tag) + b, depth)
            == if EndsMessage(tag) then None else Tagged(tag, |EncodeVarint(tag)|, ReadPayload(tag, b, depth))
  {
    hide ReadPayload, EncodeVarint, ReadTag;
    TagRoundTrip(tag, b);
  }

  /** A group is skipped whole, whatever fields it holds. */
  lemma {:induction false} GroupSkipped(number: nat, fields: seq<Field>, rest: bytes, depth: nat)
    requires 1 <= number <= MAX_NUMBER && forall f :: f in fields ==> Writable(f)
    ensures var close := EncodeVarint(8 * number + 4);
            SkipGroup(number, WriteFields(fields) + (close + rest), depth) == Some(|WriteFields(fields)| + |close|)
  {
    hide ReadPayload, ReadTag, WriteField, SkipGroup, EncodeVarint;
    var end := EncodeVarint(8 * number + 4) + rest;
    if fields == [] {
      GroupCloses(number, rest, depth);
      assert WriteFields(fields) + end == end;
    } else {
      var tail := WriteFields(fields[1..]) + end;
      assert WriteFields(fields) + end == WriteField(fields[0]) + tail;
      GroupSkipsOne(number, fields[0], tail, depth);
      GroupSkipped(number, fields[1..], rest, depth);
    }
  }

  lemma GroupCloses(number: nat, rest: bytes, depth: nat)
    requires 1 <= number <= MAX_NUMBER
    ensures var close := EncodeVarint(8 * number + 4);
            SkipGroup(number, close + rest, depth) == Some(|close|)
  {
    hide ReadTag, EncodeVarint, ReadPayload;
    TagRoundTrip(8 * number + 4, rest);
  }

  /** A group that another number's tag closes, or a zero, is refused. */
  lemma WrongCloseRefused(number: nat, tag: nat, rest: bytes, depth: nat)
    requires EndsMessage(tag) && tag < TWO32 && tag != 8 * number + 4
    ensures SkipGroup(number, EncodeVarint(tag) + rest, depth) == None
  {
    hide ReadTag, EncodeVarint, ReadPayload;
    TagRoundTrip(tag, rest);
  }

  lemma GroupSkipsOne(number: nat, field: Field, tail: bytes, depth: nat)
    requires Writable(field)
    ensures SkipGroup(number, WriteField(field) + tail, depth)
            == Advance(|WriteField(field)|, SkipGroup(number, tail, depth))
  {
    hide ReadPayload, ReadTag, WriteField, SkipGroup;
    var b := WriteField(field) + tail;
    FieldRoundTrip(field, tail, depth);
    var (tag, n) := ReadTag(b).value;
    var k := ReadPayload(tag, b[n..], depth).value.1;
    assert b[n..][k..] == b[n + k..] == tail;
    GroupUnfolds(number, b, depth, tag, n, k);
  }

  // ---------------------------------------------------------------- nesting

  /** `k` groups of number one, each in the other. */
  function Nested(k: nat): bytes
  {
    if k == 0 then [] else [11] + Nested(k - 1) + [12]
  }

  /** Groups may be nested as deep as the limit says, and no deeper. */
  lemma NestingExactly(k: nat, depth: nat)
    ensures ReadFields(Nested(k), depth).Some? <==> k <= depth
  {
    hide ReadPayload, ReadField, ReadTag, SkipGroup;
    var b := Nested(k);
    if k > 0 {
      assert b == [11] + Nested(k - 1) + [12] + [];
      NestedField(k, [], depth);
      if k <= depth {
        assert b[|b|..] == [];
        assert ReadFields([], depth) == Some([]);
      }
    }
  }

  lemma {:induction false} NestedField(k: nat, rest: bytes, depth: nat)
    requires k > 0
    ensures ReadField(Nested(k) + rest, depth) == if k <= depth then Some((Field(1, Other), |Nested(k)|)) else None
    decreases k, 1
  {
    hide ReadField, ReadTag, SkipGroup, EncodeVarint;
    var inner := Nested(k - 1) + ([12] + rest);
    assert Nested(k) + rest == [11] + inner;
    GroupTags();
    OneTag(11, inner, depth);
    if depth > 0 {
      NestedGroup(k - 1, rest, depth - 1);
    }
  }

  lemma {:induction false} NestedGroup(k: nat, rest: bytes, depth: nat)
    ensures SkipGroup(1, Nested(k) + ([12] + rest), depth) == if k <= depth then Some(|Nested(k)| + 1) else None
    decreases k, 2
  {
    hide ReadPayload, ReadTag, SkipGroup, EncodeVarint;
    GroupTags();
    GroupCloses(1, rest, depth);
    if k == 0 {
      assert Nested(k) + ([12] + rest) == [12] + rest;
    } else {
      NestedField(k, [12] + rest, depth);
      assert Nested(k) + ([12] + rest) == [11] + (Nested(k - 1) + [12] + ([12] + rest));
      TagRoundTrip(11, Nested(k - 1) + [12] + ([12] + rest));
      SkipsField(1, Nested(k), [12] + rest, depth);
    }
  }

  lemma GroupTags()
    ensures EncodeVarint(11) == [11] && EncodeVarint(12) == [12]
  {
  }

  /** Skipping a group goes over its first field, or fails with it. */
  lemma SkipsField(number: nat, x: bytes, tail: bytes, depth: nat)
    requires var r := ReadField(x + tail, depth); r.None? || r.value.1 == |x|
    requires ReadTag(x + tail).Some? && !EndsMessage(ReadTag(x + tail).value.0)
    ensures SkipGroup(number, x + tail, depth)
            == if ReadField(x + tail, depth).None? then None else Advance(|x|, SkipGroup(number, tail, depth))
  {
    hide ReadPayload, ReadTag;
    var b := x + tail;
    var (tag, n) := ReadTag(b).value;
    if ReadPayload(tag, b[n..], depth).Some? {
      var k := ReadPayload(tag, b[n..], depth).value.1;
      assert b[n..][k..] == b[n + k..] == tail;
      GroupUnfolds(number, b, depth, tag, n, k);
    }
  }

  lemma NestedFields(k: nat, depth: nat)
    requires 0 < k <= depth
    ensures ReadFields(Nested(k), depth) == Some([Field(1, Other)])
  {
    hide ReadField;
    var b := Nested(k);
    assert b + [] == b && b[|b|..] == [] && [Field(1, Other)] + [] == [Field(1, Other)];
    NestedField(k, [], depth);
    assert ReadFields([], depth) == Some([]);
  }
}
