/** Bytes and the stock option type shared by every module. */
module Bytes {
  type byte = b: nat | b < 256
  type bytes = seq<byte>

  datatype Option<+T> = None | Some(value: T)

  const TWO31: nat := 0x8000_0000
  const TWO32: nat := 0x1_0000_0000
  const TWO64: nat := 0x1_0000_0000_0000_0000

  type uint32 = n: nat | n < TWO32
  type int32 = n: int | -0x8000_0000 <= n < 0x8000_0000

  function Max(a: nat, b: nat): nat { if a < b then b else a }

  function Min(a: nat, b: nat): nat { if a < b then a else b }

  lemma Truncate(v: nat)
    ensures v % TWO64 % TWO32 == v % TWO32
  {
  }

  lemma Regroup(a: bytes, b: bytes, c: bytes)
    ensures a + b + c == a + (b + (c + []))
  {
  }

  /** The bytes of a list of byte strings, one after the other. */
  function Flatten(parts: seq<bytes>): bytes
  {
    if parts == [] then [] else parts[0] + Flatten(parts[1..])
  }
}
