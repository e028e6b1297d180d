/**
 * Fixed-width integers and their byte images.
 *
 * The wire protocol writes its packed structs in host byte order and carries no
 * endianness marker; this model fixes host order to little-endian (x86 and
 * ARM in their usual configuration). Doubles are never computed with here: a
 * double is its raw 64-bit IEEE-754 pattern, read as an unsigned number.
 */
module Bytes {

  type byte = x: int | 0 <= x < 0x100

  type uint16 = x: int | 0 <= x < 0x1_0000
  type uint32 = x: int | 0 <= x < 0x1_0000_0000
  type int32 = x: int | -0x8000_0000 <= x < 0x8000_0000

  /** The raw bit pattern of a C `double`. */
  type f64 = x: int | 0 <= x < 0x1_0000_0000_0000_0000

  /** Regrouping a concatenation of three byte strings. */
  lemma AppendAssoc(a: seq<byte>, b: seq<byte>, c: seq<byte>)
    ensures a + (b + c) == a + b + c
  {
  }

  /** The second part of a concatenation is the slice that follows the first. */
  lemma TailSlice(a: seq<byte>, b: seq<byte>)
    ensures (a + b)[|a|..|a| + |b|] == b
  {
  }

  /** 256 to the power `n`: the number of distinct values `n` bytes hold. */
  function Pow256(n: nat): (r: nat)
    ensures r >= 1
    ensures n > 0 ==> r >= 256
  {
    if n == 0 then 1 else 256 * Pow256(n - 1)
  }

  /** `static_cast<uint32_t>` of a size: keeps the low 32 bits. */
  function ToUInt32(n: nat): (r: uint32)
    ensures n < 0x1_0000_0000 ==> r == n
    ensures (n - r) % 0x1_0000_0000 == 0
  {
    n % 0x1_0000_0000
  }

  /** Conversion of a size to `int32_t`: the low 32 bits read as two's complement. */
  function ToInt32(n: nat): (r: int32)
    ensures n < 0x8000_0000 ==> r == n
    ensures (n - r) % 0x1_0000_0000 == 0
  {
    var low := n % 0x1_0000_0000;
    if low < 0x8000_0000 then low else low - 0x1_0000_0000
  }

  /** The `n` least significant bytes of `x`, least significant first. */
  function EncodeLE(x: nat, n: nat): (r: seq<byte>)
    requires x < Pow256(n)
    ensures |r| == n
  {
    if n == 0 then [] else [x % 256] + EncodeLE(x / 256, n - 1)
  }

  /** The number whose little-endian image is `s`. */
  function DecodeLE(s: seq<byte>): (r: nat)
    ensures r < Pow256(|s|)
  {
    if |s| == 0 then 0 else s[0] + 256 * DecodeLE(s[1..])
  }

  /** Decoding undoes encoding. */
  lemma {:induction false} DecodeEncodeLE(x: nat, n: nat)
    requires x < Pow256(n)
    ensures DecodeLE(EncodeLE(x, n)) == x
  {
    if n > 0 {
      DecodeEncodeLE(x / 256, n - 1);
      assert EncodeLE(x, n)[1..] == EncodeLE(x / 256, n - 1);
    }
  }

  /** Encoding undoes decoding: every byte string of length `n` is an image. */
  lemma {:induction false} EncodeDecodeLE(s: seq<byte>)
    ensures EncodeLE(DecodeLE(s), |s|) == s
  {
    if |s| > 0 {
      var d := DecodeLE(s[1..]);
      EncodeDecodeLE(s[1..]);
      LowByteSplit(s[0], d);
      assert EncodeLE(DecodeLE(s), |s|) == [s[0]] + EncodeLE(d, |s| - 1);
      assert s == [s[0]] + s[1..];
    }
  }

  /** A low byte and the rest, put together base 256, come apart again. */
  lemma LowByteSplit(lo: byte, hi: nat)
    ensures (lo + 256 * hi) % 256 == lo && (lo + 256 * hi) / 256 == hi
  {
  }

  function EncodeU16(x: uint16): (r: seq<byte>)
    ensures |r| == 2
  {
    EncodeLE(x, 2)
  }

  function EncodeU32(x: uint32): (r: seq<byte>)
    ensures |r| == 4
  {
    EncodeLE(x, 4)
  }

  /** Two's complement image of a signed 32-bit field. */
  function EncodeI32(x: int32): (r: seq<byte>)
    ensures |r| == 4
  {
    EncodeU32(if x < 0 then x + 0x1_0000_0000 else x)
  }

  function EncodeF64(x: f64): (r: seq<byte>)
    ensures |r| == 8
  {
    EncodeLE(x, 8)
  }

  function DecodeU16(s: seq<byte>): uint16
    requires |s| == 2
  {
    DecodeLE(s)
  }

  function DecodeU32(s: seq<byte>): uint32
    requires |s| == 4
  {
    DecodeLE(s)
  }

  function DecodeI32(s: seq<byte>): int32
    requires |s| == 4
  {
    var u := DecodeU32(s);
    if u < 0x8000_0000 then u else u - 0x1_0000_0000
  }

  function DecodeF64(s: seq<byte>): f64
    requires |s| == 8
  {
    DecodeLE(s)
  }

  lemma U16RoundTrip(x: uint16, s: seq<byte>)
    requires |s| == 2
    ensures DecodeU16(EncodeU16(x)) == x
    ensures EncodeU16(DecodeU16(s)) == s
  {
    DecodeEncodeLE(x, 2);
    EncodeDecodeLE(s);
  }

  lemma U32RoundTrip(x: uint32, s: seq<byte>)
    requires |s| == 4
    ensures DecodeU32(EncodeU32(x)) == x
    ensures EncodeU32(DecodeU32(s)) == s
  {
    DecodeEncodeLE(x, 4);
    EncodeDecodeLE(s);
  }

  lemma I32RoundTrip(x: int32, s: seq<byte>)
    requires |s| == 4
    ensures DecodeI32(EncodeI32(x)) == x
    ensures EncodeI32(DecodeI32(s)) == s
  {
    U32RoundTrip(if x < 0 then x + 0x1_0000_0000 else x, s);
  }

  lemma F64RoundTrip(x: f64, s: seq<byte>)
    requires |s| == 8
    ensures DecodeF64(EncodeF64(x)) == x
    ensures EncodeF64(DecodeF64(s)) == s
  {
    DecodeEncodeLE(x, 8);
    EncodeDecodeLE(s);
  }
}
