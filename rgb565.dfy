/** RGB565 packing (`push_rgb565` and `rgb_to_rgb565` in src/image.rs, the inline packing of
    rust-src/image.rs and src/image.py). A right shift of a non-negative value by k is division by 2^k,
    a left shift is multiplication, the masks `& 0x1F` / `& 0x3F` cannot change an 8-bit value shifted
    right by 3 / 2, and the three fields occupy disjoint bits, so the source's `|` is `+` here. */
module Rgb565 {
  import opened Bytes
  import opened Raster

  /** `(r >> 3) << 11 | (g >> 2) << 5 | (b >> 3)`. */
  function Pack(c: Rgb): u16
  {
    (c.r / 8) * 2048 + (c.g / 4) * 32 + c.b / 8
  }

  /** Bits 15-11 of the packed value hold the top five bits of red, bits 10-5 the top six of green and
      bits 4-0 the top five of blue. */
  lemma PackFields(c: Rgb)
    ensures Pack(c) / 2048 == c.r / 8
    ensures Pack(c) / 32 % 64 == c.g / 4
    ensures Pack(c) % 32 == c.b / 8
  {
    var r5, g6, b5 := c.r / 8, c.g / 4, c.b / 8;
    assert Pack(c) / 2048 == r5 by {
      assert 0 <= g6 * 32 + b5 < 2048;
      assert Pack(c) == r5 * 2048 + (g6 * 32 + b5);
    }
    assert Pack(c) / 32 % 64 == g6 by {
      assert Pack(c) == (r5 * 64 + g6) * 32 + b5;
      assert Pack(c) / 32 == r5 * 64 + g6;
    }
    assert Pack(c) % 32 == b5 by {
      assert Pack(c) == (r5 * 64 + g6) * 32 + b5;
    }
  }

  /** The two bytes pushed for one pixel: low byte, then high byte. */
  function PixelBytes(c: Rgb): (bs: seq<byte>)
    ensures |bs| == 2 && bs[0] as int + 256 * (bs[1] as int) == Pack(c) as int
  {
    Le16(Pack(c))
  }

  /** Unpacks the three fields, each widened back to 8 bits by shifting left. */
  function Unpack(v: u16): Rgb
  {
    Rgb((v / 2048) * 8, (v / 32 % 64) * 4, (v % 32) * 8)
  }

  /** A colour whose low bits are already zero (r, b multiples of 8 and g of 4) survives the round trip;
      every other colour comes back with its dropped low bits cleared. */
  lemma PackUnpack(c: Rgb)
    ensures Unpack(Pack(c)) == Rgb(c.r / 8 * 8, c.g / 4 * 4, c.b / 8 * 8)
    ensures c.r % 8 == 0 && c.g % 4 == 0 && c.b % 8 == 0 ==> Unpack(Pack(c)) == c
  {
    PackFields(c);
  }

  lemma {:induction false} UnpackPack(v: u16)
    ensures Pack(Unpack(v)) == v
  {
    var r5, g6, b5 := v / 2048, v / 32 % 64, v % 32;
    assert v == r5 * 2048 + g6 * 32 + b5 by {
      assert v == (v / 32) * 32 + b5;
      assert v / 32 == r5 * 64 + g6;
    }
    var c := Unpack(v);
    assert c == Rgb(r5 * 8, g6 * 4, b5 * 8);
    assert c.r / 8 == r5 && c.g / 4 == g6 && c.b / 8 == b5;
  }

  /** The five colours of the unit tests: black 0x0000, white 0xFFFF, red 0xF800, green 0x07E0 and
      blue 0x001F, each sent low byte first (the Python tests' comments say big-endian; their assertions
      are little-endian, as here). */
  lemma KnownColours()
    ensures Pack(Black) == 0x0000 && PixelBytes(Black) == [0x00, 0x00]
    ensures Pack(White) == 0xFFFF && PixelBytes(White) == [0xFF, 0xFF]
    ensures Pack(Rgb(255, 0, 0)) == 0xF800 && PixelBytes(Rgb(255, 0, 0)) == [0x00, 0xF8]
    ensures Pack(Rgb(0, 255, 0)) == 0x07E0 && PixelBytes(Rgb(0, 255, 0)) == [0xE0, 0x07]
    ensures Pack(Rgb(0, 0, 255)) == 0x001F && PixelBytes(Rgb(0, 0, 255)) == [0x1F, 0x00]
  {
    BlackIsZero();
    WhiteIsAllOnes();
    RedBits();
    GreenBits();
    BlueBits();
  }

  // One colour per lemma: the solver handles each constant on its own but not all of them at once.
  lemma BlackIsZero()
    ensures Pack(Black) == 0x0000 && PixelBytes(Black) == [0x00, 0x00]
  {
    PackDarkGrey(0);
    Le16Zero();
  }

  /** A grey level below 4 loses all its bits to the packing. */
  lemma PackDarkGrey(v: byte)
    requires v < 4
    ensures Pack(Rgb(v, v, v)) == 0
  {
    assert v / 8 == 0 && v / 4 == 0;
  }

  lemma WhiteIsAllOnes() ensures Pack(White) == 0xFFFF && PixelBytes(White) == [0xFF, 0xFF] {}
  lemma RedBits() ensures Pack(Rgb(255, 0, 0)) == 0xF800 && PixelBytes(Rgb(255, 0, 0)) == [0x00, 0xF8] {}
  lemma GreenBits() ensures Pack(Rgb(0, 255, 0)) == 0x07E0 && PixelBytes(Rgb(0, 255, 0)) == [0xE0, 0x07] {}
  lemma BlueBits() ensures Pack(Rgb(0, 0, 255)) == 0x001F && PixelBytes(Rgb(0, 0, 255)) == [0x1F, 0x00] {}
}
