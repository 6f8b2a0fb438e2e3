/**
 Bytes on the wire (src/util/bytes.h): little-endian integers, clamped views and
 the bounds-checked cursor every decoder reads through.
 */
module Bytes {

  type Byte = b: int | 0 <= b < 256
  type ByteString = seq<Byte>

  datatype Option<+T> = None | Some(value: T)

  function U16(v: int): (r: ByteString)
    ensures |r| == 2
  {
    [v % 256, v / 256 % 256]
  }

  function U32(v: int): (r: ByteString)
    ensures |r| == 4
  {
    [v % 256, v / 256 % 256, v / 256 / 256 % 256, v / 256 / 256 / 256 % 256]
  }

  function Le16(a: int, b: int): int {
    a + 256 * b
  }

  function Le32(a: int, b: int, c: int, d: int): int {
    a + 256 * (b + 256 * (c + 256 * d))
  }

  function Take(b: ByteString, n: nat): ByteString {
    if n <= |b| then b[..n] else b
  }

  /** How far into `bytes` decoding has got, and whether every field so far was
      there. */
  datatype Reader = Reader(bytes: ByteString, off: nat, ok: bool) {
    ghost predicate Valid() {
      off <= |bytes|
    }

    function Remaining(): int {
      |bytes| - off
    }

    predicate Has(n: nat) {
      ok && Remaining() >= n
    }

    function View(n: nat): (v: ByteString)
      ensures |v| == if Has(n) then n else 0
    {
      if Has(n) then bytes[off..off + n] else []
    }

    function Skip(n: nat): (r: Reader)
      ensures Valid() ==> r.Valid()
      ensures !ok ==> !r.ok
    {
      if Has(n) then this.(off := off + n) else this.(ok := false)
    }

    /** The value `u8()` returns; the cursor then moves by `Skip(1)`. */
    function PeekU8(): Byte {
      if Has(1) then bytes[off] else 0
    }

    function PeekU16(): int {
      if Has(2) then Le16(bytes[off], bytes[off + 1]) else 0
    }

    function PeekU32(): int {
      if Has(4) then Le32(bytes[off], bytes[off + 1], bytes[off + 2], bytes[off + 3]) else 0
    }
  }

  function Read(bytes: ByteString): Reader {
    Reader(bytes, 0, true)
  }

  /** Fields can be read one after another and the reader consulted once at the
      end: it is good exactly when all of them were there, and they are
      consecutive. */
  lemma ReadsAddUp(r: Reader, m: nat, n: nat)
    requires r.Valid()
    ensures r.Skip(m).Skip(n).ok <==> r.Has(m + n)
    ensures r.Has(m + n) ==> r.View(m) + r.Skip(m).View(n) == r.View(m + n) && r.Skip(m).Skip(n) == r.Skip(m + n)
  {}

  lemma U16Digits(a: Byte, b: Byte)
    ensures U16(Le16(a, b)) == [a, b]
  {}

  lemma U32Digits(a: Byte, b: Byte, c: Byte, d: Byte)
    ensures U32(Le32(a, b, c, d)) == [a, b, c, d]
  {
    var v := Le32(a, b, c, d);
    var cd := Le16(c, d);
    assert v / 256 == b as int + 256 * cd;
    assert v / 256 / 256 == cd;
  }

  /** A 16-bit value survives being written and read back. */
  lemma U16RoundTrip(v: int)
    requires 0 <= v < 65536
    ensures Le16(U16(v)[0], U16(v)[1]) == v
  {}

  lemma U32RoundTrip(v: int)
    requires 0 <= v < 0x1_0000_0000
    ensures var r := U32(v); Le32(r[0], r[1], r[2], r[3]) == v
  {
    var hi := v / 256;
    assert v == v % 256 + 256 * hi;
    assert hi == hi % 256 + 256 * (hi / 256);
  }
}
