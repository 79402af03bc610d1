/** `calculate_auto_fit_size_oriented` (src/image.rs): a binary search for the largest font size in
    [8, 72] at which the text's measured block fits the canvas less its padding. The interval starts 64
    wide and stops once it is at most 0.5 wide, so it is halved exactly seven times and every midpoint is
    a multiple of 1/2: the `f32` arithmetic of the source is exact and reals model it faithfully.
    The search sees the text only through `measure_multiline_text(text, size)`, given here as an oracle
    from size to (width, height); `Glyphs.MeasureMultiline` is that function for a font. */
module AutoFit {
  import opened Canvas
  import Glyphs

  /** `measure_multiline_text` of a fixed text, as a function of the font size. */
  type Measure = real -> (nat, nat)

  const MinFontSize: real := 8.0
  const MaxFontSize: real := 72.0
  const HorizontalPadding: nat := 8
  const VerticalPadding: nat := 4

  /** The number of halvings the search performs on a non-empty text. */
  const Halvings: nat := 7

  /** The fit test: the measured block is at most the canvas width less 8 and height less 4. */
  predicate Fits(measure: Measure, o: Orientation, size: real)
  {
    measure(size).0 <= o.Width() - HorizontalPadding && measure(size).1 <= o.Height() - VerticalPadding
  }

  /** The width of the search interval after `k` halvings. */
  function Span(k: nat): real
  {
    if k == 0 then MaxFontSize - MinFontSize else Span(k - 1) / 2.0
  }

  /** The loop condition `high - low > 0.5` holds after fewer than seven halvings and fails after seven. */
  lemma SpanTable(k: nat)
    requires k <= Halvings
    ensures Span(k) > 0.5 <==> k < Halvings
    ensures k == Halvings ==> Span(k) == 0.5
  {
    if k == 0 {
    } else if k == 1 {
    } else if k == 2 {
    } else if k == 3 {
    } else if k == 4 {
    } else if k == 5 {
    } else if k == 6 {
    } else {
      assert Span(7) == 0.5;
    }
  }

  /** One step of the search: the midpoint replaces `low` if it passes the fit test, `high` otherwise. */
  function Step(measure: Measure, o: Orientation, low: real, high: real): (real, real)
  {
    var mid := (low + high) / 2.0;
    if Fits(measure, o, mid) then (mid, high) else (low, mid)
  }

  /** The interval after `k` more steps. */
  function Search(measure: Measure, o: Orientation, low: real, high: real, k: nat): (real, real)
    decreases k
  {
    if k == 0 then (low, high)
    else
      var next := Step(measure, o, low, high);
      Search(measure, o, next.0, next.1, k - 1)
  }

  /** The first of `k` steps tests the midpoint. */
  lemma SearchStep(measure: Measure, o: Orientation, low: real, high: real, k: nat, mid: real)
    requires k > 0 && mid == (low + high) / 2.0
    ensures Search(measure, o, low, high, k) ==
      if Fits(measure, o, mid) then Search(measure, o, mid, high, k - 1) else Search(measure, o, low, mid, k - 1)
  {
  }

  /** The size the source returns: 8 for an empty text, else `low` after seven halvings. */
  function AutoFitSize(measure: Measure, text: string, o: Orientation): real
  {
    if text == [] then MinFontSize
    else Search(measure, o, MinFontSize, MaxFontSize, Halvings).0
  }

  /** What the loop keeps of `low` and `high`: `low` is 8 or a size that passed the test, `high` is 72 or
      a size that failed it, and the interval lies inside [8, 72]. */
  predicate Bracket(measure: Measure, o: Orientation, low: real, high: real)
  {
    MinFontSize <= low < high <= MaxFontSize &&
    (low == MinFontSize || Fits(measure, o, low)) &&
    (high == MaxFontSize || !Fits(measure, o, high))
  }

  /** `d` halved `k` times. */
  function Halve(d: real, k: nat): real
  {
    if k == 0 then d else Halve(d, k - 1) / 2.0
  }

  lemma {:induction false} HalveShift(d: real, k: nat)
    requires k > 0
    ensures Halve(d / 2.0, k - 1) == Halve(d, k)
  {
    if k > 1 {
      HalveShift(d, k - 1);
    }
  }

  /** `k` steps keep the bracket and halve its width `k` times. */
  lemma {:induction false} SearchKeepsBracket(measure: Measure, o: Orientation, low: real, high: real, k: nat)
    requires Bracket(measure, o, low, high)
    ensures Bracket(measure, o, Search(measure, o, low, high, k).0, Search(measure, o, low, high, k).1)
    ensures Search(measure, o, low, high, k).1 - Search(measure, o, low, high, k).0 == Halve(high - low, k)
    decreases k
  {
    if k > 0 {
      var next := Step(measure, o, low, high);
      assert next.1 - next.0 == (high - low) / 2.0;
      SearchKeepsBracket(measure, o, next.0, next.1, k - 1);
      HalveShift(high - low, k);
    }
  }

  lemma {:induction false} HalveIsSpan(k: nat)
    ensures Halve(MaxFontSize - MinFontSize, k) == Span(k)
  {
    if k > 0 {
      HalveIsSpan(k - 1);
    }
  }

  /** The result of the search: 8 for an empty text; otherwise between 8 and 71.5, either 8 or a size
      at which the text fits, and half a point more is 72 or a size at which it does not. */
  lemma AutoFitSizeProperties(measure: Measure, text: string, o: Orientation)
    ensures text == [] ==> AutoFitSize(measure, text, o) == MinFontSize
    ensures MinFontSize <= AutoFitSize(measure, text, o) <= MaxFontSize - 0.5
    ensures AutoFitSize(measure, text, o) == MinFontSize || Fits(measure, o, AutoFitSize(measure, text, o))
    ensures text != [] ==>
      AutoFitSize(measure, text, o) + 0.5 == MaxFontSize || !Fits(measure, o, AutoFitSize(measure, text, o) + 0.5)
  {
    if text != [] {
      SearchKeepsBracket(measure, o, MinFontSize, MaxFontSize, Halvings);
      HalveIsSpan(Halvings);
      SpanTable(Halvings);
    }
  }

  /** `measure_multiline_text` of `text` in `font`, as a function of the size. */
  function MeasureWith(font: Glyphs.Font, text: string): Measure
  {
    size => Glyphs.MeasureMultiline(font, text, size)
  }

  /** The search for a font, measuring each tried size with `measure_multiline_text` of that font; its
      properties are those `AutoFitSizeProperties` states for the measure `MeasureWith(font, text)`. */
  function AutoFitFor(font: Glyphs.Font, text: string, o: Orientation): real
  {
    AutoFitSize(MeasureWith(font, text), text, o)
  }

  /** `calculate_auto_fit_size_oriented`, loop as written: `high - low > 0.5` is tested before each
      halving, and the text is measured once per halving. */
  method CalculateAutoFitSizeOriented(measure: Measure, text: string, o: Orientation) returns (size: real)
    ensures size == AutoFitSize(measure, text, o)
  {
    if |text| == 0 {
      return MinFontSize;
    }
    var maxTextWidth := o.Width() - HorizontalPadding;
    var maxTextHeight := o.Height() - VerticalPadding;
    var low, high := MinFontSize, MaxFontSize;
    ghost var k: nat := 0;
    while high - low > 0.5
      invariant k <= Halvings && high - low == Span(k)
      invariant Search(measure, o, low, high, Halvings - k) == Search(measure, o, MinFontSize, MaxFontSize, Halvings)
      decreases Halvings - k
    {
      SpanTable(k);
      var mid := (low + high) / 2.0;
      var dims := measure(mid);
      SearchStep(measure, o, low, high, Halvings - k, mid);
      assert Fits(measure, o, mid) <==> dims.0 <= maxTextWidth && dims.1 <= maxTextHeight;
      if dims.0 <= maxTextWidth && dims.1 <= maxTextHeight {
        low := mid;
      } else {
        high := mid;
      }
      k := k + 1;
    }
    SpanTable(k);
    size := low;
  }

  /** `calculate_auto_fit_size`: the default orientation. */
  method CalculateAutoFitSize(measure: Measure, text: string) returns (size: real)
    ensures size == AutoFitSize(measure, text, Default)
  {
    size := CalculateAutoFitSizeOriented(measure, text, Default);
  }
}
