/**
  RpcHeader, the header of every request: its parser, writer, size and merge, and how they agree.
  */
module RpcHeaders {
  import opened Bytes
  import opened Wire
  import opened Messages
  import Utf8

  datatype Header = Header(serviceName: bytes, methodName: bytes, argsSize: uint32)

  const EMPTY_HEADER := Header([], [], 0)

  function SetHeader(m: Header, f: Field): Option<Header>
  {
    match f
    case Field(1, Len(data)) => if Utf8.Valid(data) then Some(m.(serviceName := data)) else None
    case Field(2, Len(data)) => if Utf8.Valid(data) then Some(m.(methodName := data)) else None
    case Field(3, Varint(v)) => Some(m.(argsSize := v % TWO32))
    case _ => Some(m)
  }

  function HeaderFields(m: Header): seq<Field>
  {
    When(m.serviceName != [], Field(1, Len(m.serviceName))) +
    (When(m.methodName != [], Field(2, Len(m.methodName))) +
     (When(m.argsSize != 0, Field(3, Varint(m.argsSize))) + []))
  }

  function HeaderSize(m: Header): nat
  {
    (if m.serviceName != [] then 1 + VarintSize(|m.serviceName|) + |m.serviceName| else 0) +
    (if m.methodName != [] then 1 + VarintSize(|m.methodName|) + |m.methodName| else 0) +
    (if m.argsSize != 0 then 1 + VarintSize(m.argsSize) else 0)
  }

  function HeaderBytes(m: Header): bytes
    requires HeaderSize(m) <= MAX_MESSAGE
  {
    WriteFields(HeaderFields(m))
  }

  function MergeHeader(to: Header, from: Header): Header
  {
    Header(if from.serviceName != [] then from.serviceName else to.serviceName,
           if from.methodName != [] then from.methodName else to.methodName,
           if from.argsSize != 0 then from.argsSize else to.argsSize)
  }

  function ParseHeader(b: bytes): Option<Header>
  {
    Parse(EMPTY_HEADER, b, MAX_DEPTH, SetHeader)
  }

  // ---------------------------------------------------------------- the four views agree

  /** The names the parser will take back. */
  predicate Decodable(m: Header)
  {
    Utf8.Valid(m.serviceName) && Utf8.Valid(m.methodName)
  }

  lemma HeaderFieldsWritable(m: Header)
    requires HeaderSize(m) <= MAX_MESSAGE
    ensures forall f :: f in HeaderFields(m) ==> Writable(f)
    ensures |HeaderBytes(m)| == HeaderSize(m)
    ensures HeaderBytes(m) ==
            (if m.serviceName != [] then WriteLenField(1, m.serviceName) else []) +
            ((if m.methodName != [] then WriteLenField(2, m.methodName) else []) +
             ((if m.argsSize != 0 then WriteVarintField(3, m.argsSize) else []) + []))
  {
    hide WriteFields, WriteVarintField, WriteLenField;
    var args := When(m.argsSize != 0, Field(3, Varint(m.argsSize))) + [];
    FieldSize(1, 0, m.serviceName);
    FieldSize(2, 0, m.methodName);
    FieldSize(3, m.argsSize, []);
    WriteWhen(m.argsSize != 0, Field(3, Varint(m.argsSize)), []);
    WriteWhen(m.methodName != [], Field(2, Len(m.methodName)), args);
    WriteWhen(m.serviceName != [], Field(1, Len(m.serviceName)),
              When(m.methodName != [], Field(2, Len(m.methodName))) + args);
    assert WriteFields([]) == [] by { WriteNothing(); }
  }

  /** Parsing a written header into `into` merges it in, exactly when its names are UTF-8. */
  lemma HeaderMergesWhenParsed(into: Header, m: Header)
    requires HeaderSize(m) <= MAX_MESSAGE
    ensures Parse(into, HeaderBytes(m), MAX_DEPTH, SetHeader)
            == if Decodable(m) then Some(MergeHeader(into, m)) else None
  {
    hide Parse, WriteVarintField, WriteLenField, WriteFields;
    HeaderFieldsWritable(m);
    ParseWritten(into, HeaderFields(m), MAX_DEPTH, SetHeader);
    var args := When(m.argsSize != 0, Field(3, Varint(m.argsSize))) + [];
    FoldWhen(into, m.serviceName != [], Field(1, Len(m.serviceName)),
             When(m.methodName != [], Field(2, Len(m.methodName))) + args, SetHeader);
    var next := if m.serviceName != [] then into.(serviceName := m.serviceName) else into;
    FoldWhen(next, m.methodName != [], Field(2, Len(m.methodName)), args, SetHeader);
    next := if m.methodName != [] then next.(methodName := m.methodName) else next;
    FoldWhen(next, m.argsSize != 0, Field(3, Varint(m.argsSize)), [], SetHeader);
  }

  /** A written header parses back to itself if and only if both names are UTF-8. */
  lemma HeaderRoundTrip(m: Header)
    requires HeaderSize(m) <= MAX_MESSAGE
    ensures ParseHeader(HeaderBytes(m)) == Some(m) <==> Utf8.Valid(m.serviceName) && Utf8.Valid(m.methodName)
    ensures ParseHeader(HeaderBytes(m)).Some? <==> Decodable(m)
  {
    HeaderMergesWhenParsed(EMPTY_HEADER, m);
  }

  /** A header is read through a hundred nested unknown groups, and no more. */
  lemma HeaderNesting()
    ensures ParseHeader(Nested(100)) == Some(EMPTY_HEADER) && ParseHeader(Nested(101)) == None
  {
    hide ReadFields, Nested;
    NestingExactly(100, MAX_DEPTH);
    NestingExactly(101, MAX_DEPTH);
    NestedFields(100, MAX_DEPTH);
    assert [Field(1, Other)][1..] == [];
  }

  /** Two written headers, one after the other, parse to their merge. */
  lemma HeaderConcatMerges(a: Header, b: Header)
    requires HeaderSize(a) <= MAX_MESSAGE && HeaderSize(b) <= MAX_MESSAGE
    requires Decodable(a) && Decodable(b)
    ensures ParseHeader(HeaderBytes(a) + HeaderBytes(b)) == Some(MergeHeader(a, b))
  {
    HeaderMergesWhenParsed(EMPTY_HEADER, a);
    ParseConcat(EMPTY_HEADER, HeaderBytes(a), HeaderBytes(b), MAX_DEPTH, SetHeader);
    HeaderMergesWhenParsed(a, b);
  }

  /** Which bodies are headers, and which one: the last field of each number decides, unset ones are default. */
  lemma HeaderLastWins(b: bytes)
    ensures ParseHeader(b).Some? <==>
            && ReadFields(b, MAX_DEPTH).Some?
            && forall f :: f in ReadFields(b, MAX_DEPTH).value && f.payload.Len? && (f.number == 1 || f.number == 2) ==>
                 Utf8.Valid(f.payload.data)
    ensures ParseHeader(b).Some? ==>
              var fields := ReadFields(b, MAX_DEPTH).value;
              ParseHeader(b).value == Header(Else(LastLen(fields, 1), []), Else(LastLen(fields, 2), []),
                                             Else(LastVarint(fields, 3), 0) % TWO32)
  {
    if ReadFields(b, MAX_DEPTH).Some? {
      FieldsLastWin(ReadFields(b, MAX_DEPTH).value);
    }
  }

  lemma {:induction false} FieldsLastWin(fields: seq<Field>)
    ensures Fold(EMPTY_HEADER, fields, SetHeader).Some? <==>
            forall f :: f in fields && f.payload.Len? && (f.number == 1 || f.number == 2) ==> Utf8.Valid(f.payload.data)
    ensures Fold(EMPTY_HEADER, fields, SetHeader).Some? ==>
              Fold(EMPTY_HEADER, fields, SetHeader).value
              == Header(Else(LastLen(fields, 1), []), Else(LastLen(fields, 2), []),
                        Else(LastVarint(fields, 3), 0) % TWO32)
  {
    hide Utf8.Valid;
    if fields != [] {
      var init, last := fields[..|fields| - 1], fields[|fields| - 1];
      assert fields == init + [last];
      FieldsLastWin(init);
      FoldLast(EMPTY_HEADER, fields, SetHeader);
    }
  }

  // ---------------------------------------------------------------- the class

  class RpcHeader {
    var serviceName: bytes
    var methodName: bytes
    var argsSize: uint32

    ghost function Value(): Header
      reads this
    {
      Header(serviceName, methodName, argsSize)
    }

    constructor ()
      ensures Value() == EMPTY_HEADER
    {
      serviceName, methodName, argsSize := [], [], 0;
    }

    method Clear()
      modifies this
      ensures Value() == EMPTY_HEADER
    {
      serviceName, methodName, argsSize := [], [], 0;
    }

    method MergeFrom(from: RpcHeader)
      requires from != this
      modifies this
      ensures Value() == MergeHeader(old(Value()), from.Value())
    {
      if from.serviceName != [] {
        serviceName := from.serviceName;
      }
      if from.methodName != [] {
        methodName := from.methodName;
      }
      if from.argsSize != 0 {
        argsSize := from.argsSize;
      }
    }

    method ByteSizeLong() returns (size: nat)
      ensures size == HeaderSize(Value())
    {
      size := 0;
      if serviceName != [] {
        size := size + 1 + VarintSize(|serviceName|) + |serviceName|;
      }
      if methodName != [] {
        size := size + 1 + VarintSize(|methodName|) + |methodName|;
      }
      if argsSize != 0 {
        size := size + VarintSize(argsSize) + 1;
      }
    }

    method InternalSerialize() returns (target: bytes)
      requires HeaderSize(Value()) <= MAX_MESSAGE
      ensures target == HeaderBytes(Value()) && |target| == HeaderSize(Value())
    {
      hide WriteFields, HeaderFields, WriteLenField, WriteVarintField, HeaderSize;
      target := [];
      if serviceName != [] {
        target := target + WriteLenField(1, serviceName);
      }
      ghost var service := target;
      if methodName != [] {
        target := target + WriteLenField(2, methodName);
      }
      ghost var name := if methodName != [] then WriteLenField(2, methodName) else [];
      assert target == service + name;
      if argsSize != 0 {
        target := target + WriteVarintField(3, argsSize);
      }
      ghost var args := if argsSize != 0 then WriteVarintField(3, argsSize) else [];
      assert target == service + name + args;
      Regroup(service, name, args);
      HeaderFieldsWritable(Value());
    }

    /** Fails on a message the writer considers too large. */
    method SerializeToString() returns (r: Option<bytes>)
      ensures r == if HeaderSize(Value()) <= MAX_MESSAGE then Some(HeaderBytes(Value())) else None
      ensures r.Some? <==> HeaderSize(Value()) < 0x8000_0000
    {
      var size := ByteSizeLong();
      if size > MAX_MESSAGE {
        return None;
      }
      var target := InternalSerialize();
      r := Some(target);
    }

    method InternalParse(b: bytes) returns (ok: bool)
      modifies this
      ensures ok == Parse(old(Value()), b, MAX_DEPTH, SetHeader).Some?
      ensures ok ==> Value() == Parse(old(Value()), b, MAX_DEPTH, SetHeader).value
    {
      hide ReadTag, ReadLen, ReadField, ReadPayload, DecodeVarint, Parse, Utf8.Valid;
      var ptr := b;
      while ptr != []
        invariant Parse(old(Value()), b, MAX_DEPTH, SetHeader) == Parse(Value(), ptr, MAX_DEPTH, SetHeader)
        decreases |ptr|
      {
        ParseStep(Value(), ptr, MAX_DEPTH, SetHeader);
        FieldAfterTag(ptr, MAX_DEPTH);
        var tagRead := ReadTag(ptr);
        if tagRead.None? {
          return false;
        }
        var (tag, n) := tagRead.value;
        var body, size := ptr[n..], 0;
        if tag / 8 == 1 && tag % 256 == 10 {
          var str := ReadLen(body);
          if str.None? {
            return false;
          }
          serviceName, size := str.value.0, str.value.1;
          if !Utf8.Valid(serviceName) {
            return false;
          }
        } else if tag / 8 == 2 && tag % 256 == 18 {
          var str := ReadLen(body);
          if str.None? {
            return false;
          }
          methodName, size := str.value.0, str.value.1;
          if !Utf8.Valid(methodName) {
            return false;
          }
        } else if tag / 8 == 3 && tag % 256 == 24 {
          var varint := DecodeVarint(body, 10);
          if varint.None? {
            return false;
          }
          argsSize, size := varint.value.0 % TWO32, varint.value.1;
          Truncate(varint.value.0);
        } else {
          if EndsMessage(tag) {
            return false;
          }
          var unknown := ReadPayload(tag, body, MAX_DEPTH);
          if unknown.None? {
            return false;
          }
          size := unknown.value.1;
        }
        assert ptr[n + size..] == body[size..];
        ptr := body[size..];
      }
      ParseEmpty(Value(), MAX_DEPTH, SetHeader);
      return true;
    }

    method ParseFromString(b: bytes) returns (ok: bool)
      modifies this
      ensures ok == ParseHeader(b).Some?
      ensures ok ==> Value() == ParseHeader(b).value
    {
      Clear();
      ok := InternalParse(b);
    }
  }
}
