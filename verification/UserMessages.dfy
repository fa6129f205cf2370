/**
  ResultCode and LoginResponse: a signed varint, and a nested message with presence. Their parsers,
  writers, sizes and merges, and how the four agree.
  */
module UserMessages {
  import opened Bytes
  import opened Wire
  import opened Messages

  // ---------------------------------------------------------------- ResultCode

  datatype Result = Result(errcode: int32, errmsg: bytes)

  const EMPTY_RESULT := Result(0, [])

  /** An int32 goes on the wire sign-extended to 64 bits. */
  function SignExtend(v: int32): nat
  {
    if v < 0 then v + TWO64 else v
  }

  /** The low 32 bits of a varint, read as a signed number. */
  function ToInt32(v: nat): int32
  {
    var low := v % TWO32;
    if low < TWO31 then low else low - TWO32
  }

  function SetResult(m: Result, f: Field): Option<Result>
  {
    match f
    case Field(1, Varint(v)) => Some(m.(errcode := ToInt32(v)))
    case Field(2, Len(data)) => Some(m.(errmsg := data))
    case _ => Some(m)
  }

  function ResultFields(m: Result): seq<Field>
  {
    When(m.errcode != 0, Field(1, Varint(SignExtend(m.errcode)))) +
    (When(m.errmsg != [], Field(2, Len(m.errmsg))) + [])
  }

  function ResultSize(m: Result): nat
  {
    (if m.errmsg != [] then 1 + VarintSize(|m.errmsg|) + |m.errmsg| else 0) +
    (if m.errcode != 0 then 1 + VarintSize(SignExtend(m.errcode)) else 0)
  }

  function ResultBytes(m: Result): bytes
    requires ResultSize(m) <= MAX_MESSAGE
  {
    WriteFields(ResultFields(m))
  }

  function MergeResult(to: Result, from: Result): Result
  {
    Result(if from.errcode != 0 then from.errcode else to.errcode,
           if from.errmsg != [] then from.errmsg else to.errmsg)
  }

  function ParseResult(b: bytes): Option<Result>
  {
    Parse(EMPTY_RESULT, b, MAX_DEPTH, SetResult)
  }

  lemma Int32RoundTrip(v: int32)
    ensures ToInt32(SignExtend(v)) == v && SignExtend(v) < TWO64
    ensures v < 0 ==> VarintSize(SignExtend(v)) == 10
  {
    if v < 0 {
      assert SignExtend(v) == (TWO32 - 1) * TWO32 + (v + TWO32);
    }
  }

  lemma ResultWritten(m: Result)
    requires ResultSize(m) <= MAX_MESSAGE
    ensures forall f :: f in ResultFields(m) ==> Writable(f)
    ensures |ResultBytes(m)| == ResultSize(m)
    ensures ResultBytes(m) ==
            (if m.errcode != 0 then WriteVarintField(1, SignExtend(m.errcode)) else []) +
            ((if m.errmsg != [] then WriteLenField(2, m.errmsg) else []) + [])
  {
    hide WriteFields, WriteVarintField, WriteLenField;
    Int32RoundTrip(m.errcode);
    FieldSize(1, SignExtend(m.errcode), m.errmsg);
    FieldSize(2, SignExtend(m.errcode), m.errmsg);
    WriteWhen(m.errmsg != [], Field(2, Len(m.errmsg)), []);
    WriteWhen(m.errcode != 0, Field(1, Varint(SignExtend(m.errcode))),
              When(m.errmsg != [], Field(2, Len(m.errmsg))) + []);
    WriteNothing();
  }

  /** Parsing a written result into `into`, at any depth, merges it in. */
  lemma ResultMergesWhenParsed(into: Result, m: Result, depth: nat)
    requires ResultSize(m) <= MAX_MESSAGE
    ensures Parse(into, ResultBytes(m), depth, SetResult) == Some(MergeResult(into, m))
  {
    hide Parse;
    ResultWritten(m);
    Int32RoundTrip(m.errcode);
    ParseWritten(into, ResultFields(m), depth, SetResult);
    FoldWhen(into, m.errcode != 0, Field(1, Varint(SignExtend(m.errcode))),
             When(m.errmsg != [], Field(2, Len(m.errmsg))) + [], SetResult);
    var next := if m.errcode != 0 then into.(errcode := m.errcode) else into;
    FoldWhen(next, m.errmsg != [], Field(2, Len(m.errmsg)), [], SetResult);
  }

  /** Any result, negative codes included, parses back from its written form. */
  lemma ResultRoundTrip(m: Result)
    requires ResultSize(m) <= MAX_MESSAGE
    ensures ParseResult(ResultBytes(m)) == Some(m) && |ResultBytes(m)| == ResultSize(m)
  {
    ResultWritten(m);
    ResultMergesWhenParsed(EMPTY_RESULT, m, MAX_DEPTH);
  }

  lemma ResultConcatMerges(a: Result, b: Result)
    requires ResultSize(a) <= MAX_MESSAGE && ResultSize(b) <= MAX_MESSAGE
    ensures ParseResult(ResultBytes(a) + ResultBytes(b)) == Some(MergeResult(a, b))
  {
    ResultMergesWhenParsed(EMPTY_RESULT, a, MAX_DEPTH);
    ParseConcat(EMPTY_RESULT, ResultBytes(a), ResultBytes(b), MAX_DEPTH, SetResult);
    ResultMergesWhenParsed(a, b, MAX_DEPTH);
  }

  /** The last field of each number decides; what is not there stays as it was. */
  lemma ResultLastWins(into: Result, b: bytes, depth: nat)
    ensures Parse(into, b, depth, SetResult).Some? <==> ReadFields(b, depth).Some?
    ensures ReadFields(b, depth).Some? ==>
              var fields := ReadFields(b, depth).value;
              var m := Parse(into, b, depth, SetResult).value;
              && m.errmsg == Else(LastLen(fields, 2), into.errmsg)
              && m.errcode == (if LastVarint(fields, 1).Some? then ToInt32(LastVarint(fields, 1).value)
                               else into.errcode)
  {
    if ReadFields(b, depth).Some? {
      ResultFieldsLastWin(into, ReadFields(b, depth).value);
    }
  }

  lemma {:induction false} ResultFieldsLastWin(into: Result, fields: seq<Field>)
    ensures Fold(into, fields, SetResult)
            == Some(Result(if LastVarint(fields, 1).Some? then ToInt32(LastVarint(fields, 1).value) else into.errcode,
                           Else(LastLen(fields, 2), into.errmsg)))
  {
    hide ToInt32;
    if fields != [] {
      ResultFieldsLastWin(into, fields[..|fields| - 1]);
      FoldLast(into, fields, SetResult);
    }
  }

  /** Minus one and the text "A". */
  lemma ResultExample()
    ensures ResultBytes(Result(-1, [65])) == [8, 255, 255, 255, 255, 255, 255, 255, 255, 255, 1, 18, 1, 65]
    ensures EncodeVarint(300) == [172, 2]
  {
    hide ResultBytes, EncodeVarint;
    var m := Result(-1, [65]);
    ResultWritten(m);
    SmallVarints();
    AllOnes();
    assert WriteVarintField(1, SignExtend(-1)) == [8] + [255, 255, 255, 255, 255, 255, 255, 255, 255, 1];
    assert WriteLenField(2, [65]) == [18, 1, 65];
  }

  lemma SmallVarints()
    ensures EncodeVarint(1) == [1] && EncodeVarint(8) == [8] && EncodeVarint(18) == [18]
    ensures EncodeVarint(300) == [172, 2]
  {
  }

  lemma AllOnes()
    ensures EncodeVarint(0xFFFF_FFFF_FFFF_FFFF) == [255, 255, 255, 255, 255, 255, 255, 255, 255, 1]
  {
    hide EncodeVarint;
    SevenOnes(0x1FF_FFFF_FFFF_FFFF);
    SevenOnes(0x3_FFFF_FFFF_FFFF);
    SevenOnes(0x7FF_FFFF_FFFF);
    SevenOnes(0xF_FFFF_FFFF);
    SevenOnes(0x1FFF_FFFF);
    SevenOnes(0x3F_FFFF);
    SevenOnes(0x7FFF);
    SevenOnes(0xFF);
    SevenOnes(1);
    SmallVarints();
  }

  lemma SevenOnes(high: nat)
    requires high > 0
    ensures EncodeVarint(high * 128 + 127) == [255] + EncodeVarint(high)
  {
  }

  // ---------------------------------------------------------------- LoginResponse

  datatype Login = Login(result: Option<Result>, success: bool)

  const EMPTY_LOGIN := Login(None, false)

  /** The nested result, or the empty one that is allocated on first use. */
  function ResultOf(m: Login): Result
  {
    if m.result.Some? then m.result.value else EMPTY_RESULT
  }

  function SetLogin(m: Login, f: Field): Option<Login>
  {
    match f
    case Field(1, Len(data)) =>
      (match Parse(ResultOf(m), data, MAX_DEPTH - 1, SetResult)
       case None => None
       case Some(result) => Some(m.(result := Some(result))))
    case Field(2, Varint(v)) => Some(m.(success := v != 0))
    case _ => Some(m)
  }

  function LoginSize(m: Login): nat
  {
    (if m.result.Some? then 1 + VarintSize(ResultSize(m.result.value)) + ResultSize(m.result.value) else 0) +
    (if m.success then 1 + 1 else 0)
  }

  /** A login response small enough to be written has a nested result small enough too. */
  function LoginFields(m: Login): seq<Field>
    requires LoginSize(m) <= MAX_MESSAGE
  {
    When(m.result.Some?, Field(1, Len(if m.result.Some? then ResultBytes(m.result.value) else []))) +
    (When(m.success, Field(2, Varint(1))) + [])
  }

  function LoginBytes(m: Login): bytes
    requires LoginSize(m) <= MAX_MESSAGE
  {
    assert forall f :: f in LoginFields(m) ==> Writable(f) by {
      if m.result.Some? {
        ResultWritten(m.result.value);
      }
    }
    WriteFields(LoginFields(m))
  }

  /** A nested message is merged field by field; it is present when it is on either side. */
  function MergeLogin(to: Login, from: Login): Login
  {
    Login(if from.result.Some? then Some(MergeResult(ResultOf(to), from.result.value)) else to.result,
          to.success || from.success)
  }

  function ParseLogin(b: bytes): Option<Login>
  {
    Parse(EMPTY_LOGIN, b, MAX_DEPTH, SetLogin)
  }

  lemma LoginWritten(m: Login)
    requires LoginSize(m) <= MAX_MESSAGE
    ensures forall f :: f in LoginFields(m) ==> Writable(f)
    ensures |LoginBytes(m)| == LoginSize(m)
    ensures LoginBytes(m) ==
            (if m.result.Some? then WriteLenField(1, ResultBytes(m.result.value)) else []) +
            ((if m.success then WriteVarintField(2, 1) else []) + [])
  {
    hide WriteFields, WriteVarintField, WriteLenField, ResultBytes;
    var nested := if m.result.Some? then ResultBytes(m.result.value) else [];
    if m.result.Some? {
      ResultWritten(m.result.value);
    }
    FieldSize(1, 1, nested);
    FieldSize(2, 1, nested);
    WriteWhen(m.success, Field(2, Varint(1)), []);
    WriteWhen(m.result.Some?, Field(1, Len(nested)), When(m.success, Field(2, Varint(1))) + []);
    WriteNothing();
  }

  lemma LoginMergesWhenParsed(into: Login, m: Login)
    requires LoginSize(m) <= MAX_MESSAGE
    ensures Parse(into, LoginBytes(m), MAX_DEPTH, SetLogin) == Some(MergeLogin(into, m))
  {
    hide Parse, ResultBytes;
    LoginWritten(m);
    ParseWritten(into, LoginFields(m), MAX_DEPTH, SetLogin);
    var nested := if m.result.Some? then ResultBytes(m.result.value) else [];
    var next := into;
    if m.result.Some? {
      ResultMergesWhenParsed(ResultOf(into), m.result.value, MAX_DEPTH - 1);
      next := into.(result := Some(MergeResult(ResultOf(into), m.result.value)));
      assert SetLogin(into, Field(1, Len(nested))) == Some(next);
    }
    FoldWhen(into, m.result.Some?, Field(1, Len(nested)), When(m.success, Field(2, Varint(1))) + [], SetLogin);
    FoldWhen(next, m.success, Field(2, Varint(1)), [], SetLogin);
  }

  lemma LoginRoundTrip(m: Login)
    requires LoginSize(m) <= MAX_MESSAGE
    ensures ParseLogin(LoginBytes(m)) == Some(m) && |LoginBytes(m)| == LoginSize(m)
  {
    LoginWritten(m);
    LoginMergesWhenParsed(EMPTY_LOGIN, m);
  }

  /** Presence and the nested fields merge the way concatenated wire forms do. */
  lemma LoginConcatMerges(a: Login, b: Login)
    requires LoginSize(a) <= MAX_MESSAGE && LoginSize(b) <= MAX_MESSAGE
    ensures ParseLogin(LoginBytes(a) + LoginBytes(b)) == Some(MergeLogin(a, b))
  {
    LoginMergesWhenParsed(EMPTY_LOGIN, a);
    ParseConcat(EMPTY_LOGIN, LoginBytes(a), LoginBytes(b), MAX_DEPTH, SetLogin);
    LoginMergesWhenParsed(a, b);
  }

  /** The bodies of all nested results, one after the other. */
  function NestedBodies(fields: seq<Field>): bytes
  {
    if fields == [] then [] else
    var last := fields[|fields| - 1];
    NestedBodies(fields[..|fields| - 1]) + if last.number == 1 && last.payload.Len? then last.payload.data else []
  }

  /**
    The last success counts; the nested result is there exactly when some field carries one, and is
    what the bodies of all of them say together.
    */
  lemma LoginLastWins(b: bytes)
    requires ParseLogin(b).Some?
    ensures ReadFields(b, MAX_DEPTH).Some?
    ensures var m, fields := ParseLogin(b).value, ReadFields(b, MAX_DEPTH).value;
            && m.success == (Else(LastVarint(fields, 2), 0) != 0)
            && (m.result.Some? <==> LastLen(fields, 1).Some?)
            && (m.result.Some? ==> m.result == Parse(EMPTY_RESULT, NestedBodies(fields), MAX_DEPTH - 1, SetResult))
  {
    LoginFieldsLastWin(ReadFields(b, MAX_DEPTH).value);
  }

  lemma {:induction false} LoginFieldsLastWin(fields: seq<Field>)
    requires Fold(EMPTY_LOGIN, fields, SetLogin).Some?
    ensures var m := Fold(EMPTY_LOGIN, fields, SetLogin).value;
            && m.success == (Else(LastVarint(fields, 2), 0) != 0)
            && (m.result.Some? <==> LastLen(fields, 1).Some?)
            && Some(ResultOf(m)) == Parse(EMPTY_RESULT, NestedBodies(fields), MAX_DEPTH - 1, SetResult)
  {
    hide Parse;
    if fields == [] {
      ParseEmpty(EMPTY_RESULT, MAX_DEPTH - 1, SetResult);
    } else {
      var init, last := fields[..|fields| - 1], fields[|fields| - 1];
      FoldLast(EMPTY_LOGIN, fields, SetLogin);
      LoginFieldsLastWin(init);
      if last.number == 1 && last.payload.Len? {
        ParseConcat(EMPTY_RESULT, NestedBodies(init), last.payload.data, MAX_DEPTH - 1, SetResult);
      } else {
        assert NestedBodies(init) + [] == NestedBodies(init);
      }
    }
  }

  /** A successful login with the nested text "A". */
  lemma LoginExample()
    ensures LoginSize(Login(Some(Result(0, [65])), true)) == 7
    ensures LoginBytes(Login(Some(Result(0, [65])), true)) == [10, 3, 18, 1, 65, 16, 1]
  {
    hide WriteFields;
    var nested := Result(0, [65]);
    ResultWritten(nested);
    LoginWritten(Login(Some(nested), true));
    assert EncodeVarint(10) == [10] && EncodeVarint(18) == [18] && EncodeVarint(1) == [1];
    assert EncodeVarint(3) == [3] && EncodeVarint(16) == [16];
  }

  // ---------------------------------------------------------------- the classes

  class ResultCode {
    var errcode: int32
    var errmsg: bytes

    ghost function Value(): Result
      reads this
    {
      Result(errcode, errmsg)
    }

    constructor ()
      ensures Value() == EMPTY_RESULT
    {
      errcode, errmsg := 0, [];
    }

    method MergeFrom(from: ResultCode)
      requires from != this
      modifies this
      ensures Value() == MergeResult(old(Value()), from.Value())
    {
      if from.errmsg != [] {
        errmsg := from.errmsg;
      }
      if from.errcode != 0 {
        errcode := from.errcode;
      }
    }

    method ByteSizeLong() returns (size: nat)
      ensures size == ResultSize(Value())
    {
      size := 0;
      if errmsg != [] {
        size := size + 1 + VarintSize(|errmsg|) + |errmsg|;
      }
      if errcode != 0 {
        size := size + VarintSize(SignExtend(errcode)) + 1;
      }
    }

    method InternalSerialize() returns (target: bytes)
      requires ResultSize(Value()) <= MAX_MESSAGE
      ensures target == ResultBytes(Value()) && |target| == ResultSize(Value())
    {
      hide WriteFields, WriteLenField, WriteVarintField, ResultSize;
      target := [];
      if errcode != 0 {
        target := target + WriteVarintField(1, SignExtend(errcode));
      }
      ghost var code := target;
      if errmsg != [] {
        target := target + WriteLenField(2, errmsg);
      }
      ResultWritten(Value());
      Regroup(code, [], if errmsg != [] then WriteLenField(2, errmsg) else []);
    }

    method InternalParse(b: bytes, depth: nat) returns (ok: bool)
      modifies this
      ensures ok == Parse(old(Value()), b, depth, SetResult).Some?
      ensures ok ==> Value() == Parse(old(Value()), b, depth, SetResult).value
    {
      hide ReadTag, ReadLen, ReadField, ReadPayload, DecodeVarint, Parse;
      var ptr := b;
      while ptr != []
        invariant Parse(old(Value()), b, depth, SetResult) == Parse(Value(), ptr, depth, SetResult)
        decreases |ptr|
      {
        ParseStep(Value(), ptr, depth, SetResult);
        FieldAfterTag(ptr, depth);
        var tagRead := ReadTag(ptr);
        if tagRead.None? {
          return false;
        }
        var (tag, n) := tagRead.value;
        var body, size := ptr[n..], 0;
        if tag / 8 == 1 && tag % 256 == 8 {
          var varint := DecodeVarint(body, 10);
          if varint.None? {
            return false;
          }
          errcode, size := ToInt32(varint.value.0), varint.value.1;
          Truncate(varint.value.0);
        } else if tag / 8 == 2 && tag % 256 == 18 {
          var str := ReadLen(body);
          if str.None? {
            return false;
          }
          errmsg, size := str.value.0, str.value.1;
        } else {
          if EndsMessage(tag) {
            return false;
          }
          var unknown := ReadPayload(tag, body, depth);
          if unknown.None? {
            return false;
          }
          size := unknown.value.1;
        }
        assert ptr[n + size..] == body[size..];
        ptr := body[size..];
      }
      ParseEmpty(Value(), depth, SetResult);
      return true;
    }
  }

  class LoginResponse {
    var result: ResultCode?
    var success: bool

    ghost function Value(): Login
      reads this, result
    {
      Login(if result == null then None else Some(result.Value()), success)
    }

    constructor ()
      ensures Value() == EMPTY_LOGIN
    {
      result, success := null, false;
    }

    /** The nested message, allocated empty when there is none yet. */
    method MutableResult() returns (r: ResultCode)
      modifies this
      ensures result == r && (old(result) == null ==> fresh(r)) && (old(result) != null ==> r == old(result))
      ensures r.Value() == old(ResultOf(Value())) && success == old(success)
    {
      if result == null {
        result := new ResultCode();
      }
      r := result;
    }

    method MergeFrom(from: LoginResponse)
      requires from != this && (from.result != null ==> from.result != result)
      modifies this, result
      ensures Value() == MergeLogin(old(Value()), old(from.Value()))
      ensures result == old(result) || fresh(result)
    {
      if from.result != null {
        var r := MutableResult();
        r.MergeFrom(from.result);
      }
      if from.success {
        success := from.success;
      }
    }

    method ByteSizeLong() returns (size: nat)
      ensures size == LoginSize(Value())
    {
      size := 0;
      if result != null {
        var nested := result.ByteSizeLong();
        size := size + 1 + VarintSize(nested) + nested;
      }
      if success {
        size := size + 1 + 1;
      }
    }

    method InternalSerialize() returns (target: bytes)
      requires LoginSize(Value()) <= MAX_MESSAGE
      ensures target == LoginBytes(Value()) && |target| == LoginSize(Value())
    {
      hide WriteFields, WriteLenField, WriteVarintField, ResultBytes;
      target := [];
      if result != null {
        var nested := result.InternalSerialize();
        target := target + WriteLenField(1, nested);
      }
      ghost var code := target;
      if success {
        target := target + WriteVarintField(2, 1);
      }
      LoginWritten(Value());
      Regroup(code, [], if success then WriteVarintField(2, 1) else []);
    }

    method InternalParse(b: bytes) returns (ok: bool)
      modifies this, result
      ensures ok == Parse(old(Value()), b, MAX_DEPTH, SetLogin).Some?
      ensures ok ==> Value() == Parse(old(Value()), b, MAX_DEPTH, SetLogin).value
    {
      hide ReadTag, ReadLen, ReadField, ReadPayload, DecodeVarint, Parse;
      var ptr := b;
      while ptr != []
        invariant Parse(old(Value()), b, MAX_DEPTH, SetLogin) == Parse(Value(), ptr, MAX_DEPTH, SetLogin)
        invariant result == old(result) || fresh(result)
        decreases |ptr|
      {
        ParseStep(Value(), ptr, MAX_DEPTH, SetLogin);
        FieldAfterTag(ptr, MAX_DEPTH);
        var tagRead := ReadTag(ptr);
        if tagRead.None? {
          return false;
        }
        var (tag, n) := tagRead.value;
        var body, size := ptr[n..], 0;
        if tag / 8 == 1 && tag % 256 == 10 {
          var r := MutableResult();
          var data := ReadLen(body);
          if data.None? {
            return false;
          }
          var parsed := r.InternalParse(data.value.0, MAX_DEPTH - 1);
          if !parsed {
            return false;
          }
          size := data.value.1;
        } else if tag / 8 == 2 && tag % 256 == 16 {
          var varint := DecodeVarint(body, 10);
          if varint.None? {
            return false;
          }
          success, size := varint.value.0 % TWO64 != 0, varint.value.1;
        } else {
          if EndsMessage(tag) {
            return false;
          }
          var unknown := ReadPayload(tag, body, MAX_DEPTH);
          if unknown.None? {
            return false;
          }
          size := unknown.value.1;
        }
        assert ptr[n + size..] == body[size..];
        ptr := body[size..];
      }
      ParseEmpty(Value(), MAX_DEPTH, SetLogin);
      return true;
    }
  }
}
