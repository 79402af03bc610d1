/** Where text is drawn: the centring arithmetic of `draw_text_oriented` (src/image.rs) and `draw_text`
    (rust-src/image.rs). The glyphs themselves are rasterised by `imageproc`; the model records the origin
    each line would be drawn at. */
module Placement {
  import opened Canvas
  import opened Glyphs

  const I32Max: int := 0x7FFF_FFFF
  const I32Min: int := -0x8000_0000

  /** `v as i32` for a `u32`: values of 2^31 and above wrap to negatives. */
  function AsI32(v: nat): (r: int)
    requires v <= U32Max
    ensures I32Min <= r <= I32Max
    ensures v <= I32Max ==> r == v
  {
    if v <= I32Max then v else v - 0x1_0000_0000
  }

  /** Integer `/ 2`, rounding toward zero as Rust does. */
  function TruncHalf(n: int): (q: int)
    ensures n >= 0 ==> 0 <= 2 * q <= n < 2 * q + 2
    ensures n < 0 ==> 2 * q - 2 < n <= 2 * q <= 0
  {
    if n >= 0 then n / 2 else -((-n) / 2)
  }

  /** `((canvas as i32 - extent as i32) / 2).max(0)`: the offset that centres an extent on a canvas,
      or 0 when it does not fit. */
  function CenterOffset(canvas: nat, extent: nat): (x: nat)
    requires canvas <= I32Max && extent <= U32Max
    ensures extent <= I32Max && canvas <= extent ==> x == 0
    ensures extent < canvas ==> 2 * x + extent <= canvas <= 2 * x + extent + 1
  {
    var d := TruncHalf(canvas - AsI32(extent));
    if d > 0 then d else 0
  }

  /** A float `as i32`: toward zero, saturating at the type's bounds. */
  function F32ToI32(x: real): (n: int)
    ensures I32Min <= n <= I32Max
    ensures 0.0 <= x ==> n == CastFloor(x, I32Max)
    ensures x <= 0.0 ==> n == -(CastFloor(-x, 0x8000_0000) as int)
  {
    if x >= 0.0 then CastFloor(x, I32Max) else -(CastFloor(-x, 0x8000_0000) as int)
  }

  /** The top of the text block: half the free height, or 0 when the block is taller than the canvas. */
  function StartY(canvasHeight: nat, totalHeight: real): (y: int)
    requires canvasHeight <= I32Max
    ensures 0 <= y
    ensures 0.0 <= totalHeight <= canvasHeight as real ==>
      2.0 * y as real <= canvasHeight as real - totalHeight < 2.0 * y as real + 2.0
    ensures canvasHeight as real <= totalHeight ==> y == 0
  {
    var free := (canvasHeight as real - totalHeight) / 2.0;
    F32ToI32(if free > 0.0 then free else 0.0)
  }

  /** The origin of line `i` of `draw_text_oriented`: centred horizontally on its own measured width,
      and `i * line_height` below the block's top. */
  function LineOrigin(font: Font, line: string, i: nat, top: int, size: real, o: Orientation): (int, int)
  {
    (CenterOffset(o.Width(), TextWidth(font, line, size)), LineY(top, i, font.lineHeight(size)))
  }

  /** `start_y + (i as f32 * line_height) as i32`. */
  function LineY(top: int, i: nat, lineHeight: real): int
  {
    top + F32ToI32(i as real * lineHeight)
  }

  /** `line_height * lines.len() as f32`. */
  function BlockHeight(lineHeight: real, count: nat): real
  {
    lineHeight * count as real
  }

  /** The top of the block of `draw_text_oriented`: centred on the line height times the line count. */
  function BlockTop(font: Font, lines: seq<string>, size: real, o: Orientation): int
  {
    StartY(o.Height(), BlockHeight(font.lineHeight(size), |lines|))
  }

  /** The origins of all lines of a text. */
  function LineOrigins(font: Font, lines: seq<string>, size: real, o: Orientation): (origins: seq<(int, int)>)
    ensures |origins| == |lines|
  {
    seq(|lines|, i requires 0 <= i < |lines| => LineOrigin(font, lines[i], i, BlockTop(font, lines, size, o), size, o))
  }

  /** Every line starts inside the canvas's left edge, a line narrower than the canvas is centred, the
      first line is at the block's top and, with a non-negative line height, no line is above it. */
  lemma LineOriginsPlacement(font: Font, lines: seq<string>, size: real, o: Orientation, i: nat)
    requires i < |lines|
    ensures 0 <= LineOrigins(font, lines, size, o)[i].0
    ensures TextWidth(font, lines[i], size) < o.Width() ==>
      2 * LineOrigins(font, lines, size, o)[i].0 + TextWidth(font, lines[i], size) <= o.Width() <=
      2 * LineOrigins(font, lines, size, o)[i].0 + TextWidth(font, lines[i], size) + 1
    ensures LineOrigins(font, lines, size, o)[0].1 == BlockTop(font, lines, size, o)
    ensures 0.0 <= font.lineHeight(size) ==> BlockTop(font, lines, size, o) <= LineOrigins(font, lines, size, o)[i].1
  {
    var lh := font.lineHeight(size);
    assert 0 as real * lh == 0.0;
    if 0.0 <= lh {
      assert 0.0 <= i as real * lh;
    }
  }

  /** The loop of `draw_text_oriented` over `text.lines()`: each line measured with `measure_text`, then
      its origin worked out; the drawing itself is not modelled. */
  method DrawTextOriented(font: Font, text: string, size: real, o: Orientation) returns (origins: seq<(int, int)>)
    ensures origins == LineOrigins(font, Lines(text), size, o)
  {
    var lines := Lines(text);
    var lineHeight := font.lineHeight(size);
    var startY := StartY(o.Height(), BlockHeight(lineHeight, |lines|));
    origins := [];
    for i := 0 to |lines|
      invariant |origins| == i
      invariant forall j :: 0 <= j < i ==> origins[j] == LineOrigin(font, lines[j], j, startY, size, o)
    {
      var lineWidth, _ := MeasureText(font, lines[i], size);
      var x := CenterOffset(o.Width(), lineWidth);
      var y := LineY(startY, i, lineHeight);
      assert (x, y) == LineOrigin(font, lines[i], i, startY, size, o);
      origins := origins + [(x, y)];
    }
    assert startY == BlockTop(font, lines, size, o);
  }

  /** `draw_text` of rust-src/image.rs: one line centred on the fixed 160x80 canvas by its measured width
      and line height. */
  method DrawText(font: Font, text: string, size: real) returns (x: nat, y: nat)
    ensures x == CenterOffset(DisplayWidth, TextWidth(font, text, size))
    ensures y == CenterOffset(DisplayHeight, LineHeightPx(font, size))
  {
    var textWidth, textHeight := MeasureText(font, text, size);
    x := CenterOffset(DisplayWidth, textWidth);
    y := CenterOffset(DisplayHeight, textHeight);
  }

  /** The legacy origin is never negative, is 0 for text at least as wide (tall) as the canvas, and
      centres narrower text to within a pixel. */
  lemma DrawTextCentres(font: Font, text: string, size: real)
    ensures var w := TextWidth(font, text, size);
      (w <= I32Max && DisplayWidth <= w ==> CenterOffset(DisplayWidth, w) == 0) &&
      (w < DisplayWidth ==> 2 * CenterOffset(DisplayWidth, w) + w <= 160 <= 2 * CenterOffset(DisplayWidth, w) + w + 1)
    ensures var h := LineHeightPx(font, size);
      (h <= I32Max && DisplayHeight <= h ==> CenterOffset(DisplayHeight, h) == 0) &&
      (h < DisplayHeight ==> 2 * CenterOffset(DisplayHeight, h) + h <= 80 <= 2 * CenterOffset(DisplayHeight, h) + h + 1)
  {
  }
}
