/** Bytes, machine integers and optional values shared by every other module.

    Go strings and Go byte slices are both byte sequences, and `string(b)` and
    `[]byte(s)` keep every byte, so both are modelled by `Bytes`. */
module Bytes {
  type byte = x: int | 0 <= x < 0x100
  type Bytes = seq<byte>

  type uint16 = x: int | 0 <= x < 0x1_0000
  type uint32 = x: int | 0 <= x < 0x1_0000_0000
  type uint64 = x: int | 0 <= x < 0x1_0000_0000_0000_0000
  type int16 = x: int | -0x8000 <= x < 0x8000
  type int32 = x: int | -0x8000_0000 <= x < 0x8000_0000

  datatype Option<+T> = None | Some(value: T)

  /** A Go string literal. */
  function Ascii(s: string): Bytes {
    seq(|s|, i requires 0 <= i < |s| => s[i] as int % 0x100)
  }

  /** The Go conversion from uint16 to int16. */
  function ToInt16(u: uint16): (r: int16)
    ensures r % 0x1_0000 == u
  {
    if u < 0x8000 then u else u - 0x1_0000
  }

  /** The Go conversion from uint32 to int32. */
  function ToInt32(u: uint32): (r: int32)
    ensures r % 0x1_0000_0000 == u
  {
    if u < 0x8000_0000 then u else u - 0x1_0000_0000
  }

  /** The value of a big-endian two-byte field at `off`. */
  function GetUint16(b: Bytes, off: nat): uint16
    requires off + 2 <= |b|
  {
    b[off] as int * 0x100 + b[off + 1]
  }

  /** The value of a big-endian four-byte field at `off`. */
  function GetUint32(b: Bytes, off: nat): uint32
    requires off + 4 <= |b|
  {
    GetUint16(b, off) as int * 0x1_0000 + GetUint16(b, off + 2)
  }

  function PutUint16(v: uint16): (b: Bytes)
    ensures |b| == 2 && GetUint16(b, 0) == v
  {
    [v / 0x100, v % 0x100]
  }

  function PutUint32(v: uint32): (b: Bytes)
    ensures |b| == 4 && GetUint32(b, 0) == v
  {
    PutUint16(v / 0x1_0000) + PutUint16(v % 0x1_0000)
  }

  /** The encoding of a signed 32-bit field, as `PutUint32(uint32(v))` writes it. */
  function PutInt32(v: int32): (b: Bytes)
    ensures |b| == 4 && ToInt32(GetUint32(b, 0)) == v
  {
    PutUint32(if v < 0 then v + 0x1_0000_0000 else v)
  }

  function PutInt16(v: int16): (b: Bytes)
    ensures |b| == 2 && ToInt16(GetUint16(b, 0)) == v
  {
    PutUint16(if v < 0 then v + 0x1_0000 else v)
  }
}
