/** The pixel encoder: RGB565 frames in two scan orders. `image_to_rgb565_bytes_oriented` (src/image.rs)
    scans Portrait images row by row and rotates Landscape images into the panel's 80x160 order;
    `image_to_bytes` (src/image.py) and `image_to_rgb565_bytes` (rust-src/image.rs) scan row by row. */
module Encoder {
  import opened Bytes
  import opened Canvas
  import opened Raster
  import opened Rgb565
  import Arith

  /** A scan order: row by row over the top-left `w` x `h` of the image, or the Landscape rotation that
      visits the panel's 160 rows of 80 pixels. */
  datatype Scan = RowMajor(w: nat, h: nat) | Rotated

  /** Number of pixels a scan visits. */
  function Count(s: Scan): nat
  {
    match s
    case RowMajor(w, h) => w * h
    case Rotated => PhysicalWidth * PhysicalHeight
  }

  /** The logical pixel (x, y) sampled at scan position `i`. For the rotation, position `i` is physical
      row `py = i / 80`, column `px = i % 80`, and samples logical (py, 79 - px). */
  function Source(s: Scan, i: nat): (xy: (nat, nat))
    requires i < Count(s)
  {
    match s
    case RowMajor(w, h) =>
      assert w > 0;
      (i % w, i / w)
    case Rotated =>
      (i / PhysicalWidth, PhysicalWidth - 1 - i % PhysicalWidth)
  }

  /** The image holds every pixel the scan samples (`get_pixel` panics otherwise). */
  predicate Covers(img: Image, s: Scan)
  {
    img.Valid() &&
    match s
    case RowMajor(w, h) => w <= img.width && h <= img.height
    case Rotated => PhysicalHeight <= img.width && PhysicalWidth <= img.height
  }

  lemma SourceInImage(img: Image, s: Scan, i: nat)
    requires Covers(img, s) && i < Count(s)
    ensures Source(s, i).0 < img.width && Source(s, i).1 < img.height
  {
    if s.RowMajor? {
      Arith.DivBelow(i, s.w, s.h);
    }
  }

  /** The pixel at scan position `i`. */
  function PixelAt(img: Image, s: Scan, i: nat): Rgb
    requires Covers(img, s) && i < Count(s)
  {
    SourceInImage(img, s, i);
    img.At(Source(s, i).0, Source(s, i).1)
  }

  /** The bytes pushed for the first `n` scan positions. */
  function ScanBytes(img: Image, s: Scan, n: nat): (bs: seq<byte>)
    requires Covers(img, s) && n <= Count(s)
    ensures |bs| == 2 * n
  {
    if n == 0 then [] else ScanBytes(img, s, n - 1) + PixelBytes(PixelAt(img, s, n - 1))
  }

  /** The whole frame a scan produces. */
  function Encoded(img: Image, s: Scan): seq<byte>
    requires Covers(img, s)
  {
    ScanBytes(img, s, Count(s))
  }

  /** Scan position `i` occupies bytes 2i and 2i+1: the low then the high byte of its pixel's RGB565. */
  lemma {:induction false} ScanBytesAt(img: Image, s: Scan, n: nat, i: nat)
    requires Covers(img, s) && i < n <= Count(s)
    ensures ScanBytes(img, s, n)[2 * i .. 2 * i + 2] == PixelBytes(PixelAt(img, s, i))
  {
    if i < n - 1 {
      var prev := ScanBytes(img, s, n - 1);
      ScanBytesAt(img, s, n - 1, i);
      assert ScanBytes(img, s, n) == prev + PixelBytes(PixelAt(img, s, n - 1));
      assert ScanBytes(img, s, n)[2 * i .. 2 * i + 2] == prev[2 * i .. 2 * i + 2];
    }
  }

  /** A frame is two bytes per scanned pixel, pixel `i` at offset 2i. */
  lemma EncodedPixel(img: Image, s: Scan, i: nat)
    requires Covers(img, s) && i < Count(s)
    ensures |Encoded(img, s)| == 2 * Count(s)
    ensures Encoded(img, s)[2 * i .. 2 * i + 2] == PixelBytes(PixelAt(img, s, i))
  {
    ScanBytesAt(img, s, Count(s), i);
  }

  /** Row-major order: pixel (x, y) is scan position y * w + x. */
  lemma RowMajorSourceAt(w: nat, h: nat, x: nat, y: nat)
    requires x < w && y < h
    ensures y * w + x < Count(RowMajor(w, h))
    ensures Source(RowMajor(w, h), y * w + x) == (x, y)
  {
    Arith.MulLe(y + 1, h, w);
    Arith.DivModUnique(y, x, w);
  }

  /** Row-major frames carry pixel (x, y) at byte offset 2 (y w + x), and are w h 2 bytes long. */
  lemma RowMajorOffset(img: Image, w: nat, h: nat, x: nat, y: nat)
    requires Covers(img, RowMajor(w, h)) && x < w && y < h
    ensures |Encoded(img, RowMajor(w, h))| == 2 * (w * h)
    ensures y * w + x < w * h
    ensures Encoded(img, RowMajor(w, h))[2 * (y * w + x) .. 2 * (y * w + x) + 2] == PixelBytes(img.At(x, y))
  {
    var s, i := RowMajor(w, h), y * w + x;
    RowMajorSourceAt(w, h, x, y);
    EncodedPixel(img, s, i);
    assert Count(s) == w * h;
  }

  /** Where the rotation sends logical Landscape pixel (x, y): physical row x, column 79 - y. */
  function RotatedIndex(x: nat, y: nat): (i: nat)
    requires x < PhysicalHeight && y < PhysicalWidth
  {
    x * PhysicalWidth + (PhysicalWidth - 1 - y)
  }

  /** The rotation is a bijection between the 12800 physical scan positions and the 160x80 logical
      pixels: `RotatedIndex` undoes `Source` and `Source` undoes `RotatedIndex`. */
  lemma RotationIsBijective(i: nat, x: nat, y: nat)
    ensures i < Count(Rotated) ==>
      var (lx, ly) := Source(Rotated, i);
      lx < PhysicalHeight && ly < PhysicalWidth && RotatedIndex(lx, ly) == i
    ensures x < PhysicalHeight && y < PhysicalWidth ==>
      RotatedIndex(x, y) < Count(Rotated) && Source(Rotated, RotatedIndex(x, y)) == (x, y)
  {
  }

  /** Two scan positions never sample the same logical pixel. */
  lemma RotationIsInjective(i: nat, j: nat)
    requires i < Count(Rotated) && j < Count(Rotated) && Source(Rotated, i) == Source(Rotated, j)
    ensures i == j
  {
    RotationIsBijective(i, 0, 0);
    RotationIsBijective(j, 0, 0);
  }

  /** In a Landscape frame the byte pair at offset 2 (py 80 + px) encodes logical pixel (py, 79 - px). */
  lemma LandscapeOffset(img: Image, py: nat, px: nat)
    requires Covers(img, Rotated) && py < PhysicalHeight && px < PhysicalWidth
    ensures |Encoded(img, Rotated)| == 25600
    ensures Encoded(img, Rotated)[2 * (py * 80 + px) .. 2 * (py * 80 + px) + 2]
            == PixelBytes(img.At(py, 79 - px))
  {
    var i := py * PhysicalWidth + px;
    RotatedSourceAt(py, px);
    EncodedPixel(img, Rotated, i);
  }

  /** So the frame grows by the image's pixel (x, y) at that position. */
  lemma RowMajorStep(img: Image, w: nat, h: nat, x: nat, y: nat, n: nat)
    requires Covers(img, RowMajor(w, h)) && x < w && y < h && n == y * w + x
    ensures n < Count(RowMajor(w, h))
    ensures ScanBytes(img, RowMajor(w, h), n + 1) == ScanBytes(img, RowMajor(w, h), n) + PixelBytes(img.At(x, y))
  {
    RowMajorSourceAt(w, h, x, y);
  }

  /** Nested loops over rows and columns pushing two bytes per pixel. */
  method EncodeRowMajor(img: Image, w: nat, h: nat) returns (data: seq<byte>)
    requires Covers(img, RowMajor(w, h))
    ensures data == Encoded(img, RowMajor(w, h))
  {
    data := [];
    ghost var n := 0;
    var y := 0;
    while y < h
      invariant y <= h && n == y * w && n <= Count(RowMajor(w, h))
      invariant data == ScanBytes(img, RowMajor(w, h), n)
    {
      Arith.MulLe(y + 1, h, w);
      assert (y + 1) * w == y * w + w;
      ghost var rowEnd := y * w + w;
      var x := 0;
      while x < w
        invariant x <= w && n == y * w + x && rowEnd <= Count(RowMajor(w, h))
        invariant data == ScanBytes(img, RowMajor(w, h), n)
      {
        RowMajorStep(img, w, h, x, y, n);
        data := data + PixelBytes(img.At(x, y));
        n := n + 1;
        x := x + 1;
      }
      y := y + 1;
    }
    assert n == Count(RowMajor(w, h));
  }

  /** Physical row `py`, column `px` is scan position 80 py + px, and samples logical (py, 79 - px). */
  lemma RotatedSourceAt(py: nat, px: nat)
    requires py < PhysicalHeight && px < PhysicalWidth
    ensures py * PhysicalWidth + px < Count(Rotated)
    ensures Source(Rotated, py * PhysicalWidth + px) == (py, PhysicalWidth - 1 - px)
  {
    Arith.DivModUnique(py, px, PhysicalWidth);
  }

  /** So the frame grows by the image's pixel (py, 79 - px) at that position. */
  lemma RotatedStep(img: Image, py: nat, px: nat, n: nat)
    requires Covers(img, Rotated) && py < PhysicalHeight && px < PhysicalWidth && n == py * PhysicalWidth + px
    ensures n < Count(Rotated)
    ensures ScanBytes(img, Rotated, n + 1) == ScanBytes(img, Rotated, n) + PixelBytes(img.At(py, PhysicalWidth - 1 - px))
  {
    RotatedSourceAt(py, px);
  }

  /** The Landscape loops: physical rows `py` in 0..160, columns `px` in 0..80, sampling (py, 79 - px). */
  method EncodeRotated(img: Image) returns (data: seq<byte>)
    requires Covers(img, Rotated)
    ensures data == Encoded(img, Rotated)
  {
    data := [];
    ghost var n := 0;
    var py := 0;
    while py < PhysicalHeight
      invariant py <= PhysicalHeight && n == py * PhysicalWidth
      invariant data == ScanBytes(img, Rotated, n)
    {
      var px := 0;
      while px < PhysicalWidth
        invariant px <= PhysicalWidth && n == py * PhysicalWidth + px
        invariant data == ScanBytes(img, Rotated, n)
      {
        var lx := py;
        var ly := (PhysicalWidth - 1) - px;
        RotatedStep(img, py, px, n);
        data := data + PixelBytes(img.At(lx, ly));
        n := n + 1;
        px := px + 1;
      }
      py := py + 1;
    }
  }
}
