/** The earlier image pipeline of rust-src/image.rs: a fixed 160x80 canvas sent row by row, with no
    orientation and no rotation. */
module LegacyImage {
  import opened Bytes
  import opened Canvas
  import opened Raster
  import opened Rgb565
  import opened Encoder
  import Arith

  /** The fixed scan: 80 rows of 160 pixels, whatever the image's own size. */
  const FixedScan := RowMajor(DisplayWidth, DisplayHeight)

  /** `create_blank_image`: 160 wide, 80 tall, all black. */
  function CreateBlankImage(): (img: Image)
    ensures img.Valid() && img.width == 160 && img.height == 80
    ensures forall x: nat, y: nat :: x < img.width && y < img.height ==> img.At(x, y) == Black
  {
    Filled(DisplayWidth, DisplayHeight, Black)
  }

  /** `image_to_rgb565_bytes`: every pixel of the top-left 160x80, row by row, low byte first. The
      image must be at least that large (`get_pixel` panics otherwise). */
  method ImageToRgb565Bytes(img: Image) returns (data: seq<byte>)
    requires Covers(img, FixedScan)
    ensures data == Encoded(img, FixedScan) && |data| == 25600
  {
    data := EncodeRowMajor(img, DisplayWidth, DisplayHeight);
    EncodedPixel(img, FixedScan, 0);
  }

  /** Pixel (x, y) of the canvas is at byte offset 2 (160 y + x). */
  lemma FixedOffset(img: Image, x: nat, y: nat)
    requires Covers(img, FixedScan) && x < DisplayWidth && y < DisplayHeight
    ensures y * 160 + x < 12800
    ensures Encoded(img, FixedScan)[2 * (y * 160 + x) .. 2 * (y * 160 + x) + 2] == PixelBytes(img.At(x, y))
  {
    RowMajorOffset(img, DisplayWidth, DisplayHeight, x, y);
  }

  /** No pixel is sent twice: distinct canvas pixels land at distinct offsets. */
  lemma FixedOffsetInjective(x: nat, y: nat, x': nat, y': nat)
    requires x < DisplayWidth && y < DisplayHeight && x' < DisplayWidth && y' < DisplayHeight
    requires y * 160 + x == y' * 160 + x'
    ensures x == x' && y == y'
  {
    Arith.DivModUnique(y, x, 160);
    Arith.DivModUnique(y', x', 160);
  }
}
