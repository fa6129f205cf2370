/** Well-formed UTF-8 as section 4 of RFC 3629 lays it out. */
module Utf8 {
  import opened Bytes

  predicate Tail(b: byte)
  {
    0x80 <= b <= 0xBF
  }

  /** The length of the well-formed sequence that starts `b`; 0 when there is none. */
  function SequenceLength(b: bytes): (n: nat)
    ensures n <= |b|
  {
    if b == [] then 0
    else if b[0] <= 0x7F then 1
    else if 0xC2 <= b[0] <= 0xDF then
      if |b| >= 2 && Tail(b[1]) then 2 else 0
    else if 0xE0 <= b[0] <= 0xEF then
      if && |b| >= 3 && Tail(b[1]) && Tail(b[2])
         && (b[0] == 0xE0 ==> b[1] >= 0xA0)
         && (b[0] == 0xED ==> b[1] <= 0x9F) then 3 else 0
    else if 0xF0 <= b[0] <= 0xF4 then
      if && |b| >= 4 && Tail(b[1]) && Tail(b[2]) && Tail(b[3])
         && (b[0] == 0xF0 ==> b[1] >= 0x90)
         && (b[0] == 0xF4 ==> b[1] <= 0x8F) then 4 else 0
    else 0
  }

  predicate Valid(b: bytes)
    decreases |b|
  {
    b == [] || (SequenceLength(b) > 0 && Valid(b[SequenceLength(b)..]))
  }

  // ---------------------------------------------------------------- what that accepts

  /** A Unicode scalar value: any code point but the surrogates. */
  type Scalar = c: nat | c < 0xD800 || 0xE000 <= c < 0x11_0000

  /** The bits of a scalar value, six to a byte behind the first. */
  function EncodeScalar(c: Scalar): (b: bytes)
    ensures 1 <= |b| <= 4
  {
    if c < 0x80 then [c]
    else if c < 0x800 then [0xC0 + c / 0x40, 0x80 + c % 0x40]
    else if c < 0x1_0000 then [0xE0 + c / 0x1000, 0x80 + c / 0x40 % 0x40, 0x80 + c % 0x40]
    else [0xF0 + c / 0x4_0000, 0x80 + c / 0x1000 % 0x40, 0x80 + c / 0x40 % 0x40, 0x80 + c % 0x40]
  }

  function EncodeText(text: seq<Scalar>): bytes
  {
    if text == [] then [] else EncodeScalar(text[0]) + EncodeText(text[1..])
  }

  lemma ScalarAccepted(c: Scalar, rest: bytes)
    ensures SequenceLength(EncodeScalar(c) + rest) == |EncodeScalar(c)|
  {
    var e := EncodeScalar(c);
    assert forall i :: 0 <= i < |e| ==> (e + rest)[i] == e[i];
  }

  /** The scalar value at the head of a well-formed string. */
  function HeadScalar(b: bytes): Scalar
    requires SequenceLength(b) > 0
  {
    var n := SequenceLength(b);
    var first: nat := b[0];
    if n == 1 then first
    else if n == 2 then (first - 0xC0) * 0x40 + Low(b[1])
    else if n == 3 then ((first - 0xE0) * 0x40 + Low(b[1])) * 0x40 + Low(b[2])
    else (((first - 0xF0) * 0x40 + Low(b[1])) * 0x40 + Low(b[2])) * 0x40 + Low(b[3])
  }

  lemma HeadEncodes(b: bytes)
    requires SequenceLength(b) > 0
    ensures EncodeScalar(HeadScalar(b)) == b[..SequenceLength(b)]
  {
    var n, c := SequenceLength(b), HeadScalar(b);
    var first: nat := b[0];
    if n == 2 {
      Digits(first - 0xC0, Low(b[1]));
    } else if n == 3 {
      ThreeBytes(first - 0xE0, Low(b[1]), Low(b[2]), c);
    } else if n == 4 {
      FourBytes(first - 0xF0, Low(b[1]), Low(b[2]), Low(b[3]), c);
    }
  }

  lemma Digits(high: nat, low: nat)
    requires low < 0x40
    ensures (high * 0x40 + low) / 0x40 == high && (high * 0x40 + low) % 0x40 == low
  {
  }

  lemma ThreeBytes(x: nat, y: nat, z: nat, c: nat)
    requires y < 0x40 && z < 0x40 && c == (x * 0x40 + y) * 0x40 + z
    ensures c / 0x1000 == x && c / 0x40 % 0x40 == y && c % 0x40 == z
  {
    Digits(x * 0x40 + y, z);
    Digits(x, y);
    assert c / 0x1000 == c / 0x40 / 0x40;
  }

  lemma FourBytes(w: nat, x: nat, y: nat, z: nat, c: nat)
    requires x < 0x40 && y < 0x40 && z < 0x40 && c == ((w * 0x40 + x) * 0x40 + y) * 0x40 + z
    ensures c / 0x4_0000 == w && c / 0x1000 % 0x40 == x && c / 0x40 % 0x40 == y && c % 0x40 == z
  {
    ThreeBytes(w * 0x40 + x, y, z, c);
    Digits(w, x);
    assert c / 0x4_0000 == c / 0x1000 / 0x40;
  }

  /** The six bits of a byte behind the first. */
  function Low(b: byte): nat
    requires Tail(b)
  {
    b - 0x80
  }

  lemma {:induction false} EncodedIsValid(text: seq<Scalar>)
    ensures Valid(EncodeText(text))
  {
    hide SequenceLength, EncodeScalar;
    if text != [] {
      var e, rest := EncodeScalar(text[0]), EncodeText(text[1..]);
      ScalarAccepted(text[0], rest);
      assert (e + rest)[|e|..] == rest;
      EncodedIsValid(text[1..]);
    }
  }

  lemma {:induction false} ValidIsEncoded(b: bytes) returns (text: seq<Scalar>)
    requires Valid(b)
    ensures EncodeText(text) == b
    decreases |b|
  {
    hide SequenceLength, EncodeScalar;
    if b == [] {
      text := [];
    } else {
      var n := SequenceLength(b);
      var rest := ValidIsEncoded(b[n..]);
      text := [HeadScalar(b)] + rest;
      HeadEncodes(b);
      assert b[..n] + b[n..] == b;
    }
  }

  /** The accepted strings are exactly the encodings of texts. */
  lemma ValidExactly(b: bytes)
    ensures Valid(b) <==> exists text :: EncodeText(text) == b
  {
    hide SequenceLength, EncodeScalar;
    if Valid(b) {
      var text := ValidIsEncoded(b);
      assert EncodeText(text) == b;
    }
    forall text | EncodeText(text) == b ensures Valid(b) {
      EncodedIsValid(text);
    }
  }

  /** Every ASCII string is among them. */
  lemma {:induction false} AsciiIsValid(b: bytes)
    requires forall i :: 0 <= i < |b| ==> b[i] < 0x80
    ensures Valid(b)
    decreases |b|
  {
    if b != [] {
      AsciiIsValid(b[1..]);
    }
  }

  /** U+00E9, U+20AC and U+10348, and three strings that are none: overlong, a surrogate, cut short. */
  lemma Examples()
    ensures EncodeScalar(0xE9) == [0xC3, 0xA9] && EncodeScalar(0x20AC) == [0xE2, 0x82, 0xAC]
    ensures EncodeScalar(0x1_0348) == [0xF0, 0x90, 0x8D, 0x88]
    ensures !Valid([0xC0, 0x80]) && !Valid([0xED, 0xA0, 0x80]) && !Valid([0xE2, 0x82])
  {
  }
}
