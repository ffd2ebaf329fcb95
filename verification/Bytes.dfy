/** Bytes and the little-endian layout of a 32-bit integer in memory. */
module Bytes {

  newtype Byte = x: int | 0 <= x < 256

  const TWO_32: nat := 0x1_0000_0000

  function EncodeU32(v: nat): (b: seq<Byte>)
    requires v < TWO_32
    ensures |b| == 4
  {
    [(v % 256) as Byte, (v / 0x100 % 256) as Byte, (v / 0x1_0000 % 256) as Byte, (v / 0x100_0000) as Byte]
  }

  function DecodeU32(b: seq<Byte>): (v: nat)
    requires |b| == 4
    ensures v < TWO_32
  {
    b[0] as nat + 0x100 * (b[1] as nat) + 0x1_0000 * (b[2] as nat) + 0x100_0000 * (b[3] as nat)
  }

  lemma U32RoundTrip(v: nat)
    requires v < TWO_32
    ensures DecodeU32(EncodeU32(v)) == v
  {
    assert v / 0x1_0000 == v / 0x100 / 256;
    assert v / 0x100_0000 == v / 0x1_0000 / 256;
  }

  /** The bytes in memory, lowest first. */
  lemma LowestFirst()
    ensures EncodeU32(0x0102_0304) == [4, 3, 2, 1]
  {
  }
}
