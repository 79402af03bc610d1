/** The Python image helpers of src/image.py: a blank canvas of any size and its row-major RGB565 frame
    over the image's own size. */
module PyImage {
  import opened Bytes
  import opened Canvas
  import opened Raster
  import opened Rgb565
  import opened Encoder

  /** `create_blank_image(width=160, height=80, bg_color=(0, 0, 0))`. */
  function CreateBlankImage(width: nat := DisplayWidth, height: nat := DisplayHeight, bg: Rgb := Black): (img: Image)
    ensures img.Valid() && img.width == width && img.height == height
    ensures forall x: nat, y: nat :: x < width && y < height ==> img.At(x, y) == bg
  {
    Filled(width, height, bg)
  }

  /** The defaults: 160 wide, 80 tall, black. */
  lemma DefaultBlankImage()
    ensures CreateBlankImage() == Filled(DisplayWidth, DisplayHeight, Black)
    ensures CreateBlankImage().width == 160 && CreateBlankImage().height == 80
    ensures forall x: nat, y: nat :: x < 160 && y < 80 ==> CreateBlankImage().At(x, y) == Black
  {
  }

  /** The scan `image_to_bytes` uses: every pixel of the image, row by row. */
  function OwnScan(img: Image): Scan
  {
    RowMajor(img.width, img.height)
  }

  /** `image_to_bytes`: w h 2 bytes, pixel (x, y) at offset 2 (y w + x). */
  method ImageToBytes(img: Image) returns (data: seq<byte>)
    requires img.Valid()
    ensures Covers(img, OwnScan(img)) && data == Encoded(img, OwnScan(img))
    ensures |data| == img.width * img.height * 2
  {
    data := EncodeRowMajor(img, img.width, img.height);
    if 0 < img.width * img.height {
      EncodedPixel(img, OwnScan(img), 0);
    }
  }

  /** Every pixel of the image appears at its row-major offset, as its little-endian RGB565. */
  lemma ImageToBytesPixel(img: Image, x: nat, y: nat)
    requires img.Valid() && x < img.width && y < img.height
    ensures y * img.width + x < img.width * img.height
    ensures Encoded(img, OwnScan(img))[2 * (y * img.width + x) .. 2 * (y * img.width + x) + 2]
      == PixelBytes(img.At(x, y))
  {
    RowMajorOffset(img, img.width, img.height, x, y);
  }

  /** A single-colour canvas sends its colour's two bytes for every pixel (00 00 for black, FF FF for
      white and 00 F8 for red, by `Rgb565.KnownColours`). */
  lemma SolidImageBytes(width: nat, height: nat, bg: Rgb, i: nat)
    requires i < width * height
    ensures Covers(CreateBlankImage(width, height, bg), OwnScan(CreateBlankImage(width, height, bg)))
    ensures Encoded(CreateBlankImage(width, height, bg), OwnScan(CreateBlankImage(width, height, bg)))[2 * i .. 2 * i + 2]
      == PixelBytes(bg)
  {
    var img := CreateBlankImage(width, height, bg);
    assert i < Count(OwnScan(img));
    EncodedPixel(img, OwnScan(img), i);
    SourceInImage(img, OwnScan(img), i);
  }
}
