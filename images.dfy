/** Blank canvases and oriented frame encoding of src/image.rs. */
module Images {
  import opened Bytes
  import opened Canvas
  import opened Raster
  import opened Rgb565
  import opened Encoder

  /** `create_blank_image_oriented`: a black canvas of the orientation's logical size. */
  function CreateBlankImageOriented(o: Orientation): (img: Image)
    ensures img.Valid() && img.width == o.Width() && img.height == o.Height()
    ensures forall x: nat, y: nat :: x < img.width && y < img.height ==> img.At(x, y) == Black
  {
    Filled(o.Width(), o.Height(), Black)
  }

  /** `create_blank_image`: the default (Landscape) canvas, 160 wide and 80 tall, all black. */
  function CreateBlankImage(): (img: Image)
    ensures img.Valid() && img.width == DisplayWidth && img.height == DisplayHeight
    ensures forall x: nat, y: nat :: x < img.width && y < img.height ==> img.At(x, y) == Black
  {
    CreateBlankImageOriented(Default)
  }

  /** The scan an orientation uses: Portrait sends the image as it is, Landscape is rotated. */
  function ScanFor(img: Image, o: Orientation): Scan
  {
    match o
    case Portrait => RowMajor(img.width, img.height)
    case Landscape => Rotated
  }

  /** What `image_to_rgb565_bytes_oriented` needs of its image: any well-formed image in Portrait, at
      least 160x80 in Landscape. */
  predicate Encodable(img: Image, o: Orientation)
  {
    img.Valid() && (o == Landscape ==> PhysicalHeight <= img.width && PhysicalWidth <= img.height)
  }

  /** `image_to_rgb565_bytes_oriented`. A Landscape frame always has 80 * 160 * 2 = 25600 bytes; a Portrait
      frame has two bytes per pixel of the image, whatever its size. */
  method ImageToRgb565BytesOriented(img: Image, o: Orientation) returns (data: seq<byte>)
    requires Encodable(img, o)
    ensures Covers(img, ScanFor(img, o)) && data == Encoded(img, ScanFor(img, o))
    ensures o == Landscape ==> |data| == 25600
    ensures o == Portrait ==> |data| == img.width * img.height * 2
  {
    match o {
      case Portrait =>
        data := EncodeRowMajor(img, img.width, img.height);
      case Landscape =>
        data := EncodeRotated(img);
    }
  }

  /** `image_to_rgb565_bytes`: the default orientation, so the image is rotated. */
  method ImageToRgb565Bytes(img: Image) returns (data: seq<byte>)
    requires Encodable(img, Default)
    ensures data == Encoded(img, Rotated) && |data| == 25600
  {
    data := ImageToRgb565BytesOriented(img, Default);
  }

  /** A blank canvas encodes, in either orientation, to 12800 pixels of two zero bytes each. */
  lemma BlankFrameIsZero(o: Orientation, i: nat)
    ensures Encodable(CreateBlankImageOriented(o), o)
    ensures |Encoded(CreateBlankImageOriented(o), ScanFor(CreateBlankImageOriented(o), o))| == 25600
    ensures i < 12800 ==>
      Encoded(CreateBlankImageOriented(o), ScanFor(CreateBlankImageOriented(o), o))[2 * i .. 2 * i + 2] == [0, 0]
  {
    var img := CreateBlankImageOriented(o);
    var s := ScanFor(img, o);
    assert Count(s) == 12800;
    BlackFrameIsZero(img, s, i);
  }

  /** Every pixel of the frame of an all-black image is the two bytes 00 00. */
  lemma BlackFrameIsZero(img: Image, s: Scan, i: nat)
    requires Covers(img, s)
    requires forall x: nat, y: nat :: x < img.width && y < img.height ==> img.At(x, y) == Black
    ensures |Encoded(img, s)| == 2 * Count(s)
    ensures i < Count(s) ==> Encoded(img, s)[2 * i .. 2 * i + 2] == [0, 0]
  {
    if i < Count(s) {
      EncodedPixel(img, s, i);
      SourceInImage(img, s, i);
      assert PixelAt(img, s, i) == Black;
      BlackIsZero();
    }
  }
}
