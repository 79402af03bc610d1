/** The in-memory RGB image the text is drawn into (an `RgbImage` in Rust, a PIL `RGB` image in Python). */
module Raster {
  import opened Bytes

  datatype Rgb = Rgb(r: byte, g: byte, b: byte)

  const Black: Rgb := Rgb(0, 0, 0)
  const White: Rgb := Rgb(255, 255, 255)

  /** A `width` x `height` grid stored row by row; `rows[y][x]` is the pixel at column `x`, row `y`. */
  datatype Image = Image(width: nat, height: nat, rows: seq<seq<Rgb>>)
  {
    predicate Valid()
    {
      |rows| == height && forall y :: 0 <= y < height ==> |rows[y]| == width
    }

    /** `get_pixel(x, y)` / `pixels[x, y]`. */
    function At(x: nat, y: nat): Rgb
      requires Valid() && x < width && y < height
    {
      rows[y][x]
    }
  }

  /** `RgbImage::from_pixel(w, h, c)` / `Image.new("RGB", (w, h), c)`. */
  function Filled(width: nat, height: nat, colour: Rgb): (img: Image)
    ensures img.Valid() && img.width == width && img.height == height
    ensures forall x: nat, y: nat :: x < width && y < height ==> img.At(x, y) == colour
  {
    Image(width, height, seq(height, _ => seq(width, _ => colour)))
  }
}
