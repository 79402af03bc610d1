/** Bytes and the little-endian 16-bit fields of the wire format. */
module Bytes {

  type byte = x: int | 0 <= x < 256

  type u16 = x: int | 0 <= x < 0x1_0000

  /** `(v & 0xFF) as u8`: the low byte of a 16-bit value. */
  function Lo(v: u16): byte { v % 256 }

  /** `(v >> 8) as u8`: the high byte of a 16-bit value. */
  function Hi(v: u16): byte { v / 256 }

  /** The two bytes of `v`, low byte first. */
  function Le16(v: u16): (bs: seq<byte>)
    ensures |bs| == 2 && bs[0] as int + 256 * (bs[1] as int) == v as int
  {
    [Lo(v), Hi(v)]
  }

  /** Zero is sent as two zero bytes. */
  lemma Le16Zero()
    ensures Le16(0) == [0, 0]
  {
    assert Lo(0) == 0 && Hi(0) == 0;
  }

  /** Reads back a little-endian 16-bit value. */
  function ReadLe16(lo: byte, hi: byte): (v: u16)
    ensures Lo(v) == lo && Hi(v) == hi
  {
    lo as int + 256 * (hi as int)
  }

  lemma Le16RoundTrip(v: u16)
    ensures ReadLe16(Lo(v), Hi(v)) == v
  {
  }
}
