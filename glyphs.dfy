/** Text measurement of src/image.rs and rust-src/image.rs. Glyph shapes come from an embedded TrueType
    font through `ab_glyph`; here the font is reduced to the two numbers the measurements read: the
    horizontal advance of a character at a pixel size and the line height at a size. Sizes and advances
    are `f32` in the source and exact reals here. */
module Glyphs {
  import opened Canvas
  import opened Seqs

  /** The scaled font: `h_advance(glyph_id(c))` and `height()` at a pixel size. */
  datatype Font = Font(advance: (char, real) -> real, lineHeight: real -> real)

  const U32Max: nat := 0xFFFF_FFFF
  const UsizeMax: nat := 0xFFFF_FFFF_FFFF_FFFF

  /** Rust's `x as u32` / `x as usize` from a float: rounds toward zero, sends negatives to 0 and
      saturates at the type's maximum. */
  function CastFloor(x: real, max: nat): (n: nat)
    ensures n <= max
    ensures x <= 0.0 ==> n == 0
    ensures 0.0 <= x < max as real ==> n as real <= x < n as real + 1.0
    ensures max as real <= x ==> n == max
  {
    if x <= 0.0 then 0 else if x.Floor >= max then max else x.Floor
  }

  lemma CastFloorMonotone(x: real, y: real, max: nat)
    requires x <= y
    ensures CastFloor(x, max) <= CastFloor(y, max)
  {
    if 0.0 < x && y < max as real {
      assert CastFloor(x, max) as real <= x;
      assert y < CastFloor(y, max) as real + 1.0;
    }
  }

  /** The advances of the characters of `s` at `size`, summed in order. */
  function AdvanceSum(font: Font, s: string, size: real): real
  {
    if |s| == 0 then 0.0 else AdvanceSum(font, s[..|s| - 1], size) + font.advance(s[|s| - 1], size)
  }

  lemma {:induction false} AdvanceSumAppend(font: Font, a: string, b: string, size: real)
    ensures AdvanceSum(font, a + b, size) == AdvanceSum(font, a, size) + AdvanceSum(font, b, size)
  {
    if |b| == 0 {
      assert a + b == a;
    } else {
      assert (a + b)[..|a + b| - 1] == a + b[..|b| - 1];
      AdvanceSumAppend(font, a, b[..|b| - 1], size);
    }
  }

  /** The width `measure_text` reports: the summed advances cast to `u32`. */
  function TextWidth(font: Font, s: string, size: real): nat
  {
    CastFloor(AdvanceSum(font, s, size), U32Max)
  }

  /** The height `measure_text` reports: the line height cast to `u32`. */
  function LineHeightPx(font: Font, size: real): nat
  {
    CastFloor(font.lineHeight(size), U32Max)
  }

  /** Fonts whose advances are never negative (every real font). */
  ghost predicate NonNegative(font: Font)
  {
    forall c: char, size: real :: font.advance(c, size) >= 0.0
  }

  /** With non-negative advances, a longer text is never narrower: in particular a text is at least as
      wide as any of its prefixes. */
  lemma WidthOfExtension(font: Font, a: string, b: string, size: real)
    requires NonNegative(font)
    ensures TextWidth(font, a, size) <= TextWidth(font, a + b, size)
  {
    AdvanceSumAppend(font, a, b, size);
    AdvanceSumNonNegative(font, b, size);
    CastFloorMonotone(AdvanceSum(font, a, size), AdvanceSum(font, a + b, size), U32Max);
  }

  /** Nor is a suffix: a text is at least as wide as its last part. */
  lemma WidthOfSuffix(font: Font, a: string, b: string, size: real)
    requires NonNegative(font)
    ensures TextWidth(font, b, size) <= TextWidth(font, a + b, size)
  {
    AdvanceSumAppend(font, a, b, size);
    AdvanceSumNonNegative(font, a, size);
    CastFloorMonotone(AdvanceSum(font, b, size), AdvanceSum(font, a + b, size), U32Max);
  }

  lemma {:induction false} AdvanceSumNonNegative(font: Font, s: string, size: real)
    requires NonNegative(font)
    ensures AdvanceSum(font, s, size) >= 0.0
  {
    if |s| > 0 {
      AdvanceSumNonNegative(font, s[..|s| - 1], size);
      assert font.advance(s[|s| - 1], size) >= 0.0;
    }
  }

  /** `measure_text` (src/image.rs and rust-src/image.rs): the advance of every character added up in
      order, then both dimensions cast to `u32`. The height does not depend on the text. */
  method MeasureText(font: Font, text: string, size: real) returns (width: nat, height: nat)
    ensures width == TextWidth(font, text, size)
    ensures height == LineHeightPx(font, size)
  {
    var w := 0.0;
    for i := 0 to |text|
      invariant w == AdvanceSum(font, text[..i], size)
    {
      assert text[..i + 1][..i] == text[..i];
      w := w + font.advance(text[i], size);
    }
    assert text[..|text|] == text;
    width := CastFloor(w, U32Max);
    height := CastFloor(font.lineHeight(size), U32Max);
  }

  /** A line without its `\r` terminator, if it has one. */
  function StripCr(line: string): (r: string)
    ensures r == line || line == r + ['\r']
  {
    if |line| > 0 && line[|line| - 1] == '\r' then line[..|line| - 1] else line
  }

  /** Rust's `str::lines`: the pieces between `\n`s, each `\n`-terminated piece without a final `\r`, and
      no empty piece after a final `\n`. An empty text has no lines. */
  function Lines(s: string): (ls: seq<string>)
    ensures |ls| == 0 <==> s == []
    ensures forall i :: 0 <= i < |ls| ==> '\n' !in ls[i]
  {
    var parts := Split(s, '\n');
    var last := parts[|parts| - 1];
    var ended := seq(|parts| - 1, i requires 0 <= i < |parts| - 1 => StripCr(parts[i]));
    assert forall i :: 0 <= i < |ended| ==> '\n' !in parts[i] && ended[i] == StripCr(parts[i]);
    ended + (if last == [] then [] else [last])
  }

  /** The widest of a non-empty list of lines. */
  function MaxWidth(font: Font, lines: seq<string>, size: real): (m: nat)
    requires lines != []
    ensures forall i :: 0 <= i < |lines| ==> TextWidth(font, lines[i], size) <= m
    ensures exists i :: 0 <= i < |lines| && m == TextWidth(font, lines[i], size)
  {
    if |lines| == 1 then TextWidth(font, lines[0], size)
    else
      var rest := MaxWidth(font, lines[1..], size);
      assert forall i :: 1 <= i < |lines| ==> lines[i] == lines[1..][i - 1];
      if TextWidth(font, lines[0], size) >= rest then TextWidth(font, lines[0], size) else rest
  }

  /** `measure_multiline_text`: (0, 0) for a text without lines; otherwise the width of the widest line
      and the line height times the number of lines, cast to `u32`. */
  function MeasureMultiline(font: Font, text: string, size: real): (nat, nat)
  {
    var lines := Lines(text);
    if lines == [] then (0, 0)
    else (MaxWidth(font, lines, size), CastFloor(font.lineHeight(size) * |lines| as real, U32Max))
  }

  /** The block is (0, 0) exactly for the empty text; its width bounds every line's width and is the
      width of one of them. */
  lemma MultilineWidth(font: Font, text: string, size: real)
    ensures text == [] <==> MeasureMultiline(font, text, size) == (0, 0) && Lines(text) == []
    ensures forall i :: 0 <= i < |Lines(text)| ==> TextWidth(font, Lines(text)[i], size) <= MeasureMultiline(font, text, size).0
    ensures text != [] ==>
      exists i :: 0 <= i < |Lines(text)| && MeasureMultiline(font, text, size).0 == TextWidth(font, Lines(text)[i], size)
  {
    if text != [] {
      var m := MaxWidth(font, Lines(text), size);
    }
  }

  /** A one-line text measures as `measure_text` does, except that its height is cast once more from the
      line height times one. */
  lemma SingleLineMeasure(font: Font, text: string, size: real)
    requires Lines(text) == [text]
    ensures MeasureMultiline(font, text, size) == (TextWidth(font, text, size), LineHeightPx(font, size))
  {
    assert font.lineHeight(size) * 1 as real == font.lineHeight(size);
  }

  /** How many whole `unit`s fit in `total`, as `(total / unit).floor() as usize`, or 0 when `unit` is not
      positive. */
  function FloorQuotient(total: real, unit: real): (n: nat)
    ensures unit <= 0.0 || total <= 0.0 ==> n == 0
  {
    if unit > 0.0 then CastFloor(total / unit, UsizeMax) else 0
  }

  /** `n` units fit in `total` and, unless the count saturated, `n + 1` do not. */
  lemma FloorQuotientBounds(total: real, unit: real)
    requires 0.0 < unit && 0.0 <= total
    ensures FloorQuotient(total, unit) as real * unit <= total
    ensures FloorQuotient(total, unit) == UsizeMax || total < (FloorQuotient(total, unit) as real + 1.0) * unit
  {
    var q := total / unit;
    var n := FloorQuotient(total, unit);
    assert q * unit == total;
    assert q >= 0.0;
    assert n as real <= q;
    assert n as real * unit <= q * unit;
    if q < UsizeMax as real {
      var gap := n as real + 1.0 - q;
      assert gap > 0.0;
      assert gap * unit > 0.0;
      assert (n as real + 1.0) * unit == q * unit + gap * unit;
    }
  }

  /** `calculate_max_lines_oriented`: whole lines of the font's height that fit in the canvas height. */
  function MaxLinesOriented(font: Font, size: real, o: Orientation): nat
  {
    FloorQuotient(o.Height() as real, font.lineHeight(size))
  }

  /** `calculate_max_lines`: the default orientation. */
  function MaxLines(font: Font, size: real): nat
  {
    MaxLinesOriented(font, size, Default)
  }

  /** `calculate_max_chars_per_line_oriented`: whole advances of `x` that fit in the canvas width. */
  function MaxCharsPerLineOriented(font: Font, size: real, o: Orientation): nat
  {
    FloorQuotient(o.Width() as real, font.advance('x', size))
  }

  /** `calculate_max_chars_per_line`: the default orientation. */
  function MaxCharsPerLine(font: Font, size: real): nat
  {
    MaxCharsPerLineOriented(font, size, Default)
  }

  /** The line count is 0 for a non-positive line height; otherwise that many lines fit in the canvas
      height and, unless the count saturated, one more would not. */
  lemma MaxLinesBounds(font: Font, size: real, o: Orientation)
    ensures font.lineHeight(size) <= 0.0 ==> MaxLinesOriented(font, size, o) == 0
    ensures font.lineHeight(size) > 0.0 ==>
      MaxLinesOriented(font, size, o) as real * font.lineHeight(size) <= o.Height() as real &&
      (MaxLinesOriented(font, size, o) == UsizeMax ||
       o.Height() as real < (MaxLinesOriented(font, size, o) as real + 1.0) * font.lineHeight(size))
  {
    var lh := font.lineHeight(size);
    if lh > 0.0 {
      FloorQuotientBounds(o.Height() as real, lh);
    }
  }

  /** The character count is 0 for a non-positive advance of `x`; otherwise that many `x`s fit in the
      canvas width and, unless the count saturated, one more would not. */
  lemma MaxCharsBounds(font: Font, size: real, o: Orientation)
    ensures font.advance('x', size) <= 0.0 ==> MaxCharsPerLineOriented(font, size, o) == 0
    ensures font.advance('x', size) > 0.0 ==>
      MaxCharsPerLineOriented(font, size, o) as real * font.advance('x', size) <= o.Width() as real &&
      (MaxCharsPerLineOriented(font, size, o) == UsizeMax ||
       o.Width() as real < (MaxCharsPerLineOriented(font, size, o) as real + 1.0) * font.advance('x', size))
  {
    var a := font.advance('x', size);
    if a > 0.0 {
      FloorQuotientBounds(o.Width() as real, a);
    }
  }
}
