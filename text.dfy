/** Word wrap, truncation and pagination of src/text.rs. Widths come from `Glyphs.TextWidth` at the
    chosen font size, and a line fits when it is at most `DISPLAY_WIDTH` (160) wide, whatever the
    orientation. */
module TextLayout {
  import opened Canvas
  import opened Glyphs
  import opened Seqs

  /** Rust's `char::is_whitespace`: the Unicode White_Space property. */
  predicate IsWhitespace(c: char)
  {
    var n := c as int;
    (0x09 <= n <= 0x0D) || n == 0x20 || n == 0x85 || n == 0xA0 || n == 0x1680 ||
    (0x2000 <= n <= 0x200A) || n == 0x2028 || n == 0x2029 || n == 0x202F || n == 0x205F || n == 0x3000
  }

  /** A word: non-empty and free of whitespace. */
  predicate IsWord(w: string)
  {
    w != [] && forall i :: 0 <= i < |w| ==> !IsWhitespace(w[i])
  }

  /** The characters of `s` that are not whitespace, in order. */
  function NonWhitespace(s: string): string
  {
    if s == [] then [] else (if IsWhitespace(s[0]) then [] else [s[0]]) + NonWhitespace(s[1..])
  }

  /** The words of `cur + s`, where `cur` is a word begun before `s`. */
  function WordsAfter(s: string, cur: string): seq<string>
    decreases |s|
  {
    if s == [] then
      if cur == [] then [] else [cur]
    else if IsWhitespace(s[0]) then
      (if cur == [] then [] else [cur]) + WordsAfter(s[1..], [])
    else
      WordsAfter(s[1..], cur + [s[0]])
  }

  /** Those are words, and together they hold `cur` and then the non-whitespace characters of `s`. */
  lemma WordsAfterSpec(s: string, cur: string)
    requires cur == [] || IsWord(cur)
    ensures forall i :: 0 <= i < |WordsAfter(s, cur)| ==> IsWord(WordsAfter(s, cur)[i])
    ensures Flatten(WordsAfter(s, cur)) == cur + NonWhitespace(s)
  {
    WordsAfterAreWords(s, cur);
    WordsAfterFlatten(s, cur);
  }

  lemma {:induction false} WordsAfterAreWords(s: string, cur: string)
    requires cur == [] || IsWord(cur)
    ensures forall i :: 0 <= i < |WordsAfter(s, cur)| ==> IsWord(WordsAfter(s, cur)[i])
    decreases |s|
  {
    if s != [] && IsWhitespace(s[0]) {
      WordsAfterAreWords(s[1..], []);
    } else if s != [] {
      var cur' := cur + [s[0]];
      assert IsWord(cur') by {
        assert forall i :: 0 <= i < |cur| ==> cur'[i] == cur[i];
      }
      WordsAfterAreWords(s[1..], cur');
    }
  }

  lemma {:induction false} WordsAfterFlatten(s: string, cur: string)
    ensures Flatten(WordsAfter(s, cur)) == cur + NonWhitespace(s)
    decreases |s|
  {
    var head: seq<string> := if cur == [] then [] else [cur];
    assert Flatten(head) == cur by {
      if cur != [] {
        assert Flatten([cur]) == cur + Flatten([]);
      }
    }
    if s == [] {
      assert cur + NonWhitespace(s) == cur;
    } else if IsWhitespace(s[0]) {
      var rest := WordsAfter(s[1..], []);
      assert WordsAfter(s, cur) == head + rest;
      WordsAfterFlatten(s[1..], []);
      FlattenAppend(head, rest);
      assert NonWhitespace(s) == NonWhitespace(s[1..]);
      assert [] + NonWhitespace(s[1..]) == NonWhitespace(s[1..]);
    } else {
      var cur' := cur + [s[0]];
      WordsAfterFlatten(s[1..], cur');
      assert NonWhitespace(s) == [s[0]] + NonWhitespace(s[1..]);
      assert cur' + NonWhitespace(s[1..]) == cur + NonWhitespace(s);
    }
  }

  /** `split_whitespace`: the maximal runs of non-whitespace characters, in order. */
  function Words(s: string): seq<string>
  {
    WordsAfter(s, [])
  }

  /** The words are words, and together they are the text's non-whitespace characters. */
  lemma WordsSpec(s: string)
    ensures forall i :: 0 <= i < |Words(s)| ==> IsWord(Words(s)[i])
    ensures Flatten(Words(s)) == NonWhitespace(s)
  {
    WordsAfterSpec(s, []);
    assert [] + NonWhitespace(s) == NonWhitespace(s);
  }

  /** A text with no non-whitespace characters has no words, and every other text has some. */
  lemma {:induction false} WordsEmpty(s: string)
    ensures Words(s) == [] <==> NonWhitespace(s) == []
  {
    WordsSpec(s);
    if Words(s) != [] {
      FlattenWordsNonEmpty(Words(s));
    }
  }

  lemma {:induction false} FlattenWordsNonEmpty(ws: seq<string>)
    requires ws != [] && forall i :: 0 <= i < |ws| ==> IsWord(ws[i])
    ensures Flatten(ws) != []
  {
    assert Flatten(ws) == ws[0] + Flatten(ws[1..]);
    assert |ws[0]| > 0;
  }

  /** Splitting at whitespace: the words of `a + [c] + b`, for a space or newline `c`, are those of `a`
      followed by those of `b`. */
  lemma {:induction false} WordsAroundBreak(a: string, cur: string, c: char, b: string)
    requires cur == [] || IsWord(cur)
    requires IsWhitespace(c)
    ensures WordsAfter(a + [c] + b, cur) == WordsAfter(a, cur) + Words(b)
    decreases |a|
  {
    if a == [] {
      assert a + [c] + b == [c] + b;
      assert ([c] + b)[1..] == b;
    } else {
      assert (a + [c] + b)[0] == a[0];
      assert (a + [c] + b)[1..] == a[1..] + [c] + b;
      if IsWhitespace(a[0]) {
        WordsAroundBreak(a[1..], [], c, b);
      } else {
        WordsAroundBreak(a[1..], cur + [a[0]], c, b);
      }
    }
  }

  /** A word is its own only word. */
  lemma {:induction false} WordsOfWord(w: string, cur: string)
    requires forall i :: 0 <= i < |w| ==> !IsWhitespace(w[i])
    requires IsWord(cur) || (cur == [] && w != [])
    ensures WordsAfter(w, cur) == [cur + w]
    decreases |w|
  {
    if w == [] {
      assert cur + w == cur;
    } else {
      var next := cur + [w[0]];
      assert IsWord(next) by {
        assert forall i :: 0 <= i < |cur| ==> next[i] == cur[i];
        assert next[|cur|] == w[0];
      }
      assert forall i :: 0 <= i < |w[1..]| ==> w[1..][i] == w[i + 1];
      WordsOfWord(w[1..], next);
      assert next + w[1..] == cur + w;
    }
  }

  /** The byte length of a character in UTF-8. */
  function Utf8Width(c: char): (n: nat)
    ensures 1 <= n <= 4
  {
    if c as int < 0x80 then 1 else if c as int < 0x800 then 2 else if c as int < 0x1_0000 then 3 else 4
  }

  /** `str::len`: the UTF-8 byte length, at least the character count. */
  function Utf8Len(s: string): (n: nat)
    ensures |s| <= n <= 4 * |s|
  {
    if s == [] then 0 else Utf8Width(s[0]) + Utf8Len(s[1..])
  }

  /** `s.chars().take(n)`. */
  function Take(s: string, n: nat): (r: string)
    ensures |r| == if n < |s| then n else |s|
    ensures r == s[..|r|]
  {
    if n < |s| then s[..n] else s
  }

  /** `fits_in_width`: the measured width is at most `DISPLAY_WIDTH`. */
  predicate Fits(font: Font, s: string, size: real)
  {
    TextWidth(font, s, size) <= DisplayWidth
  }

  lemma EmptyFits(font: Font, size: real)
    ensures Fits(font, [], size)
  {
    assert AdvanceSum(font, [], size) == 0.0;
  }

  /** The single cut `truncate_to_fit` can make: `limit.saturating_sub(1)` characters, where
      `limit = max_chars.min(word.len())` counts bytes. */
  function Cut(word: string, maxChars: nat): nat
  {
    var limit := if maxChars < Utf8Len(word) then maxChars else Utf8Len(word);
    if limit == 0 then 0 else limit - 1
  }

  /** What `truncate_to_fit` returns when it returns: the word if it is empty or fits, otherwise its first
      `Cut` characters. */
  function TruncateResult(font: Font, size: real, maxChars: nat, word: string): string
  {
    if word == [] || Fits(font, word, size) then word else Take(word, Cut(word, maxChars))
  }

  /** The words on which `truncate_to_fit` returns at all: its loop never changes `limit`, so after one cut
      the result must be empty or fit, or the loop runs forever. */
  predicate TruncationSettles(font: Font, size: real, maxChars: nat, word: string)
  {
    word == [] || Fits(font, word, size) ||
    Take(word, Cut(word, maxChars)) == [] || Fits(font, Take(word, Cut(word, maxChars)), size)
  }

  /** `truncate_to_fit`, as written. */
  method TruncateToFit(font: Font, size: real, maxChars: nat, word: string) returns (result: string)
    requires TruncationSettles(font, size, maxChars, word)
    ensures result == TruncateResult(font, size, maxChars, word)
  {
    result := word;
    var limit := if maxChars < Utf8Len(word) then maxChars else Utf8Len(word);
    while result != [] && !Fits(font, result, size)
      invariant result == word ||
        (word != [] && !Fits(font, word, size) && result == Take(word, Cut(word, maxChars)) &&
         (result == [] || Fits(font, result, size)))
      decreases if result == [] || Fits(font, result, size) then 0 else 1
    {
      result := Take(result, if limit == 0 then 0 else limit - 1);
    }
  }

  /** A truncation is a prefix of its word, and on the words where the loop returns, the result fits. */
  lemma TruncateResultFits(font: Font, size: real, maxChars: nat, word: string)
    ensures word[..|TruncateResult(font, size, maxChars, word)|] == TruncateResult(font, size, maxChars, word)
    ensures TruncationSettles(font, size, maxChars, word) ==> Fits(font, TruncateResult(font, size, maxChars, word), size)
  {
    EmptyFits(font, size);
  }

  /** Off the words where `truncate_to_fit` settles, its loop spins: the one cut is non-empty and too wide,
      so the loop test still holds, and the loop body (`take(limit - 1)` with the same `limit`) gives the
      cut back unchanged. */
  lemma TruncationHangs(font: Font, size: real, maxChars: nat, word: string)
    requires !TruncationSettles(font, size, maxChars, word)
    ensures var r := Take(word, Cut(word, maxChars));
      r != [] && !Fits(font, r, size) && Take(r, Cut(word, maxChars)) == r
    ensures word != [] && !Fits(font, word, size)
  {
  }

  /** A text whose characters all advance by `a` is `|s| * a` wide before the cast. */
  lemma {:induction false} UniformAdvance(font: Font, s: string, size: real, a: real)
    requires forall i :: 0 <= i < |s| ==> font.advance(s[i], size) == a
    ensures AdvanceSum(font, s, size) == |s| as real * a
  {
    if s != [] {
      var prefix := s[..|s| - 1];
      assert forall i :: 0 <= i < |prefix| ==> prefix[i] == s[i];
      UniformAdvance(font, prefix, size, a);
    }
  }

  /** A font in which `x` advances 10 pixels and every other character 20, at every size. */
  function WideFont(): Font
  {
    Font((c: char, size: real) => if c == 'x' then 10.0 else 20.0, (size: real) => 12.0)
  }

  /** `truncate_to_fit` as written can hang: with `WideFont`, `max_chars` is 160 / 10 = 16, so a word of
      twenty `W`s (400 pixels) is cut to its first 15 characters, which are 300 pixels wide and still do
      not fit; the next round cuts to 15 characters again, and so on forever. */
  lemma TruncationCanHang()
    ensures MaxCharsPerLine(WideFont(), 12.0) == 16
    ensures !TruncationSettles(WideFont(), 12.0, MaxCharsPerLine(WideFont(), 12.0), seq(20, _ => 'W'))
    ensures var r := Take(seq(20, _ => 'W'), 15);
      Cut(seq(20, _ => 'W'), 16) == 15 && r != [] && !Fits(WideFont(), r, 12.0) && Take(r, 15) == r
  {
    var font := WideFont();
    var word: string := seq(20, _ => 'W');
    assert font.advance('x', 12.0) == 10.0;
    assert 160.0 / 10.0 == 16.0;
    assert MaxCharsPerLine(font, 12.0) == 16;
    assert Utf8Len(word) == 20 by {
      Utf8LenAscii(word);
    }
    assert Cut(word, 16) == 15;
    var cut := Take(word, 15);
    assert forall i :: 0 <= i < |word| ==> font.advance(word[i], 12.0) == 20.0;
    assert forall i :: 0 <= i < |cut| ==> font.advance(cut[i], 12.0) == 20.0;
    UniformAdvance(font, word, 12.0, 20.0);
    UniformAdvance(font, cut, 12.0, 20.0);
    assert TextWidth(font, word, 12.0) == 400;
    assert TextWidth(font, cut, 12.0) == 300;
    TruncationHangs(font, 12.0, 16, word);
  }

  /** Every ASCII character is one byte. */
  lemma {:induction false} Utf8LenAscii(s: string)
    requires forall i :: 0 <= i < |s| ==> s[i] as int < 0x80
    ensures Utf8Len(s) == |s|
  {
    if s != [] {
      assert forall i :: 0 <= i < |s[1..]| ==> s[1..][i] == s[i + 1];
      Utf8LenAscii(s[1..]);
    }
  }

  /** `truncate_to_fit` as evidently intended: one character fewer each round, starting from
      `limit - 1`, until the result fits. It returns the longest prefix of at most `limit - 1` characters
      that fits, or the word itself when that fits. */
  method TruncateToFitCorrected(font: Font, size: real, maxChars: nat, word: string) returns (result: string)
    ensures Fits(font, result, size)
    ensures |result| <= |word| && result == word[..|result|]
    ensures Fits(font, word, size) ==> result == word
    ensures !Fits(font, word, size) ==>
      |result| <= Cut(word, maxChars) &&
      forall m :: |result| < m <= Cut(word, maxChars) ==> !Fits(font, Take(word, m), size)
  {
    EmptyFits(font, size);
    result := word;
    var limit: nat := if maxChars < Utf8Len(word) then maxChars else Utf8Len(word);
    ghost var limit0 := limit;
    while result != [] && !Fits(font, result, size)
      invariant limit <= limit0
      invariant (result == word && limit == limit0) || (result == Take(word, limit) && (limit < limit0 || limit == 0))
      invariant |result| <= |word| && result == word[..|result|]
      invariant result != word ==> !Fits(font, word, size)
      invariant forall m :: limit < m < limit0 ==> !Fits(font, Take(word, m), size)
      decreases limit + (if result == word then 1 else 0)
    {
      limit := if limit == 0 then 0 else limit - 1;
      result := Take(word, limit);
    }
    assert limit0 == 0 || Cut(word, maxChars) == limit0 - 1;
  }

  /** The state of the word loop of `wrap_text`: the lines pushed so far and `current_line`. */
  datatype Wrapping = Wrapping(done: seq<string>, current: string)

  /** One iteration of the word loop. A word joins the current line after one space if the joined line
      fits; otherwise the current line is pushed and the word starts the next one, or is truncated and
      pushed on a line of its own when it does not fit alone. */
  function WrapWord(font: Font, size: real, maxChars: nat, st: Wrapping, word: string): Wrapping
  {
    if st.current == [] then
      if Fits(font, word, size) then Wrapping(st.done, word)
      else Wrapping(st.done + [TruncateResult(font, size, maxChars, word)], [])
    else
      var testLine := st.current + [' '] + word;
      if Fits(font, testLine, size) then Wrapping(st.done, testLine)
      else if Fits(font, word, size) then Wrapping(st.done + [st.current], word)
      else Wrapping(st.done + [st.current, TruncateResult(font, size, maxChars, word)], [])
  }

  /** The word loop over the first `|words|` words. */
  function WrapWords(font: Font, size: real, maxChars: nat, words: seq<string>): Wrapping
  {
    if words == [] then Wrapping([], [])
    else WrapWord(font, size, maxChars, WrapWords(font, size, maxChars, words[..|words| - 1]), words[|words| - 1])
  }

  /** The lines one `\n`-separated paragraph contributes: one empty line for an empty or blank paragraph,
      otherwise the pushed lines and the last line if it is not empty. */
  function WrapParagraph(font: Font, size: real, maxChars: nat, paragraph: string): seq<string>
  {
    if paragraph == [] then [[]]
    else
      var words := Words(paragraph);
      if words == [] then [[]]
      else
        var st := WrapWords(font, size, maxChars, words);
        st.done + (if st.current == [] then [] else [st.current])
  }

  /** The lines of the first `|paragraphs|` paragraphs, in order. */
  function WrapParagraphs(font: Font, size: real, maxChars: nat, paragraphs: seq<string>): seq<string>
  {
    if paragraphs == [] then []
    else WrapParagraphs(font, size, maxChars, paragraphs[..|paragraphs| - 1]) + WrapParagraph(font, size, maxChars, paragraphs[|paragraphs| - 1])
  }

  /** The lines `wrap_text` returns: none for an empty text. */
  function Wrapped(font: Font, size: real, text: string): seq<string>
  {
    if text == [] then [] else WrapParagraphs(font, size, MaxCharsPerLine(font, size), Split(text, '\n'))
  }

  /** The texts on which `wrap_text` returns: `truncate_to_fit` settles on every word. */
  predicate WrapSettles(font: Font, size: real, text: string)
  {
    var paragraphs := Split(text, '\n');
    forall i, j :: 0 <= i < |paragraphs| && 0 <= j < |Words(paragraphs[i])| ==>
      TruncationSettles(font, size, MaxCharsPerLine(font, size), Words(paragraphs[i])[j])
  }

  /** Every line of a list fits in the display width. */
  predicate AllFit(font: Font, size: real, lines: seq<string>)
  {
    forall i :: 0 <= i < |lines| ==> Fits(font, lines[i], size)
  }

  /** The words of a list of lines, line after line. */
  function LineWords(lines: seq<string>): seq<string>
  {
    if lines == [] then [] else LineWords(lines[..|lines| - 1]) + Words(lines[|lines| - 1])
  }

  /** The word loop always leaves a pushed line or a current line behind once it has seen a word. */
  lemma {:induction false} WrapWordsLeavesLine(font: Font, size: real, maxChars: nat, words: seq<string>)
    requires words != [] && forall j :: 0 <= j < |words| ==> IsWord(words[j])
    ensures WrapWords(font, size, maxChars, words).done != [] || WrapWords(font, size, maxChars, words).current != []
  {
    var prefix := words[..|words| - 1];
    if prefix != [] {
      WrapWordsLeavesLine(font, size, maxChars, prefix);
    }
  }

  /** When `truncate_to_fit` settles on every word, every pushed line and the current line fit. */
  lemma {:induction false} WrapWordsFit(font: Font, size: real, maxChars: nat, words: seq<string>)
    requires forall j :: 0 <= j < |words| ==> TruncationSettles(font, size, maxChars, words[j])
    ensures AllFit(font, size, WrapWords(font, size, maxChars, words).done)
    ensures Fits(font, WrapWords(font, size, maxChars, words).current, size)
  {
    EmptyFits(font, size);
    if words != [] {
      var prefix := words[..|words| - 1];
      var word := words[|words| - 1];
      WrapWordsFit(font, size, maxChars, prefix);
      TruncateResultFits(font, size, maxChars, word);
    }
  }

  /** What a word leaves on the lines: the word itself when it fits on a line of its own, otherwise the
      words of its truncation (its one cut, or nothing when the cut is empty). */
  lemma PlacedWord(font: Font, size: real, maxChars: nat, word: string)
    requires IsWord(word)
    ensures Fits(font, word, size) ==> Words(TruncateResult(font, size, maxChars, word)) == [word]
    ensures !Fits(font, word, size) ==>
      var cut := Take(word, Cut(word, maxChars));
      cut == word[..|cut|] && Words(TruncateResult(font, size, maxChars, word)) == (if cut == [] then [] else [cut])
  {
    var r := TruncateResult(font, size, maxChars, word);
    var empty: string := [];
    if r != [] {
      assert r == word[..|r|];
      WordsOfWord(r, empty);
      assert empty + r == r;
    }
  }

  /** The words the lines carry for one word: those of its truncation. */
  function Placed(font: Font, size: real, maxChars: nat): string -> seq<string>
  {
    word => Words(TruncateResult(font, size, maxChars, word))
  }

  /** The words the lines carry for `words`, one truncation per word, in order. */
  function PlacedWords(font: Font, size: real, maxChars: nat, words: seq<string>): seq<string>
  {
    FlatMap(Placed(font, size, maxChars), words)
  }

  lemma PlacedWordsSnoc(font: Font, size: real, maxChars: nat, words: seq<string>)
    requires words != []
    ensures PlacedWords(font, size, maxChars, words) ==
      PlacedWords(font, size, maxChars, words[..|words| - 1]) + Words(TruncateResult(font, size, maxChars, words[|words| - 1]))
  {
  }

  /** Words that each fit on a line of their own are placed unchanged. */
  lemma {:induction false} PlacedWordsFitting(font: Font, size: real, maxChars: nat, words: seq<string>)
    requires forall j :: 0 <= j < |words| ==> IsWord(words[j]) && Fits(font, words[j], size)
    ensures PlacedWords(font, size, maxChars, words) == words
  {
    if words != [] {
      var prefix := words[..|words| - 1];
      assert forall j :: 0 <= j < |prefix| ==> prefix[j] == words[j];
      PlacedWordsFitting(font, size, maxChars, prefix);
      PlacedWord(font, size, maxChars, words[|words| - 1]);
      PlacedWordsSnoc(font, size, maxChars, words);
      assert prefix + [words[|words| - 1]] == words;
    }
  }

  /** One iteration of the word loop puts the word's truncation, whole, after the words already placed.
      A word that joins the current line after a space fits on its own: under non-negative advances a
      line is at least as wide as its last word. */
  lemma WrapWordKeepsWords(font: Font, size: real, maxChars: nat, st: Wrapping, word: string)
    requires IsWord(word) && (NonNegative(font) || Fits(font, word, size))
    ensures var next := WrapWord(font, size, maxChars, st, word);
      LineWords(next.done) + Words(next.current) ==
      LineWords(st.done) + Words(st.current) + Words(TruncateResult(font, size, maxChars, word))
  {
    if st.current == [] {
      StartLineKeepsWords(font, size, maxChars, st, word);
    } else if Fits(font, st.current + [' '] + word, size) {
      JoinLineKeepsWords(font, size, maxChars, st, word);
    } else {
      BreakLineKeepsWords(font, size, maxChars, st, word);
    }
  }

  /** The word starts the line: kept whole when it fits, otherwise pushed as its cut. */
  lemma StartLineKeepsWords(font: Font, size: real, maxChars: nat, st: Wrapping, word: string)
    requires IsWord(word) && st.current == []
    ensures var next := WrapWord(font, size, maxChars, st, word);
      LineWords(next.done) + Words(next.current) ==
      LineWords(st.done) + Words(st.current) + Words(TruncateResult(font, size, maxChars, word))
  {
    var t := TruncateResult(font, size, maxChars, word);
    var empty: string := [];
    assert Words(empty) == [];
    if Fits(font, word, size) {
      assert WrapWord(font, size, maxChars, st, word) == Wrapping(st.done, word);
      assert t == word;
    } else {
      assert WrapWord(font, size, maxChars, st, word) == Wrapping(st.done + [t], []);
      LineWordsSnoc(st.done, t);
    }
  }

  /** The word joins the line after a space; it then fits on its own. */
  lemma JoinLineKeepsWords(font: Font, size: real, maxChars: nat, st: Wrapping, word: string)
    requires IsWord(word) && (NonNegative(font) || Fits(font, word, size))
    requires st.current != [] && Fits(font, st.current + [' '] + word, size)
    ensures var next := WrapWord(font, size, maxChars, st, word);
      LineWords(next.done) + Words(next.current) ==
      LineWords(st.done) + Words(st.current) + Words(TruncateResult(font, size, maxChars, word))
  {
    var empty: string := [];
    assert Words(word) == [word] by {
      WordsOfWord(word, empty);
      assert empty + word == word;
    }
    if !Fits(font, word, size) {
      WidthOfSuffix(font, st.current + [' '], word, size);
    }
    assert TruncateResult(font, size, maxChars, word) == word;
    assert WrapWord(font, size, maxChars, st, word) == Wrapping(st.done, st.current + [' '] + word);
    WordsAroundBreak(st.current, [], ' ', word);
  }

  /** The line is pushed and the word starts the next one, or is pushed as its cut. */
  lemma BreakLineKeepsWords(font: Font, size: real, maxChars: nat, st: Wrapping, word: string)
    requires IsWord(word) && st.current != [] && !Fits(font, st.current + [' '] + word, size)
    ensures var next := WrapWord(font, size, maxChars, st, word);
      LineWords(next.done) + Words(next.current) ==
      LineWords(st.done) + Words(st.current) + Words(TruncateResult(font, size, maxChars, word))
  {
    var t := TruncateResult(font, size, maxChars, word);
    var empty: string := [];
    LineWordsSnoc(st.done, st.current);
    if Fits(font, word, size) {
      assert WrapWord(font, size, maxChars, st, word) == Wrapping(st.done + [st.current], word);
      assert t == word;
    } else {
      assert WrapWord(font, size, maxChars, st, word) == Wrapping(st.done + [st.current, t], empty);
      LineWordsSnoc(st.done + [st.current], t);
      assert st.done + [st.current, t] == st.done + [st.current] + [t];
      assert Words(empty) == [];
    }
  }

  lemma LineWordsSnoc(lines: seq<string>, line: string)
    ensures LineWords(lines + [line]) == LineWords(lines) + Words(line)
  {
    assert (lines + [line])[..|lines|] == lines;
  }

  /** The words of the lines are the input words, each placed whole or as its one cut, in order: no word
      is lost, reordered or split across lines, and a word that fits on its own is never shortened. */
  lemma {:induction false} WrapWordsKeepsWords(font: Font, size: real, maxChars: nat, words: seq<string>)
    requires forall j :: 0 <= j < |words| ==> IsWord(words[j])
    requires NonNegative(font) || forall j :: 0 <= j < |words| ==> Fits(font, words[j], size)
    ensures LineWords(WrapWords(font, size, maxChars, words).done) + Words(WrapWords(font, size, maxChars, words).current) ==
      PlacedWords(font, size, maxChars, words)
  {
    if words != [] {
      var prefix := words[..|words| - 1];
      var word := words[|words| - 1];
      assert forall j :: 0 <= j < |prefix| ==> prefix[j] == words[j];
      WrapWordsKeepsWords(font, size, maxChars, prefix);
      var st := WrapWords(font, size, maxChars, prefix);
      WrapWordKeepsWords(font, size, maxChars, st, word);
      PlacedWordsSnoc(font, size, maxChars, words);
    }
  }

  /** An empty or blank paragraph gives exactly one empty line; every paragraph gives at least one line. */
  lemma WrapParagraphShape(font: Font, size: real, maxChars: nat, paragraph: string)
    ensures |WrapParagraph(font, size, maxChars, paragraph)| >= 1
    ensures NonWhitespace(paragraph) == [] ==> WrapParagraph(font, size, maxChars, paragraph) == [[]]
  {
    WordsEmpty(paragraph);
    WordsSpec(paragraph);
    if paragraph != [] && Words(paragraph) != [] {
      WrapWordsLeavesLine(font, size, maxChars, Words(paragraph));
    }
  }

  /** The lines of a paragraph on which truncation settles all fit. */
  lemma WrapParagraphFits(font: Font, size: real, maxChars: nat, paragraph: string)
    requires forall j :: 0 <= j < |Words(paragraph)| ==>
      TruncationSettles(font, size, maxChars, Words(paragraph)[j])
    ensures AllFit(font, size, WrapParagraph(font, size, maxChars, paragraph))
  {
    EmptyFits(font, size);
    if paragraph != [] && Words(paragraph) != [] {
      WrapWordsFit(font, size, maxChars, Words(paragraph));
    }
  }

  /** A paragraph comes back as its words, in order, each whole or as its one cut. */
  lemma WrapParagraphKeepsWords(font: Font, size: real, maxChars: nat, paragraph: string)
    requires NonNegative(font) || forall j :: 0 <= j < |Words(paragraph)| ==> Fits(font, Words(paragraph)[j], size)
    ensures LineWords(WrapParagraph(font, size, maxChars, paragraph)) == PlacedWords(font, size, maxChars, Words(paragraph))
  {
    var empty: string := [];
    assert LineWords([empty]) == LineWords([]) + Words(empty);
    if paragraph != [] && Words(paragraph) != [] {
      var st := WrapWords(font, size, maxChars, Words(paragraph));
      WordsSpec(paragraph);
      WrapWordsKeepsWords(font, size, maxChars, Words(paragraph));
      if st.current != [] {
        var lines := st.done + [st.current];
        assert lines[..|st.done|] == st.done;
        assert LineWords(lines) == LineWords(st.done) + Words(st.current);
      } else {
        assert Words(st.current) == [];
        assert LineWords(st.done) + Words(st.current) == LineWords(st.done);
        assert WrapParagraph(font, size, maxChars, paragraph) == st.done + [];
        assert st.done + [] == st.done;
      }
    }
  }

  /** The words of a paragraph on which `truncate_to_fit` settles. */
  predicate ParagraphSettles(font: Font, size: real, maxChars: nat, paragraph: string)
  {
    forall j :: 0 <= j < |Words(paragraph)| ==>
      TruncationSettles(font, size, maxChars, Words(paragraph)[j])
  }

  /** The body of the paragraph loop of `wrap_text`: the lines one paragraph pushes. */
  method WrapParagraphLines(font: Font, size: real, maxChars: nat, paragraph: string) returns (lines: seq<string>)
    requires ParagraphSettles(font, size, maxChars, paragraph)
    ensures lines == WrapParagraph(font, size, maxChars, paragraph)
  {
    if |paragraph| == 0 {
      return [[]];
    }
    var words := Words(paragraph);
    if |words| == 0 {
      return [[]];
    }
    lines := [];
    var currentLine := [];
    for w := 0 to |words|
      invariant lines == WrapWords(font, size, maxChars, words[..w]).done
      invariant currentLine == WrapWords(font, size, maxChars, words[..w]).current
    {
      assert words[..w + 1][..w] == words[..w];
      var word := words[w];
      if |currentLine| == 0 {
        if Fits(font, word, size) {
          currentLine := word;
        } else {
          currentLine := TruncateToFit(font, size, maxChars, word);
          lines := lines + [currentLine];
          currentLine := [];
        }
      } else {
        var testLine := currentLine + [' '] + word;
        if Fits(font, testLine, size) {
          currentLine := testLine;
        } else {
          lines := lines + [currentLine];
          if Fits(font, word, size) {
            currentLine := word;
          } else {
            currentLine := TruncateToFit(font, size, maxChars, word);
            lines := lines + [currentLine];
            currentLine := [];
          }
        }
      }
    }
    assert words[..|words|] == words;
    if |currentLine| != 0 {
      lines := lines + [currentLine];
    }
  }

  /** `wrap_text`: the paragraphs in order, each wrapped word by word. */
  method WrapText(font: Font, size: real, text: string) returns (result: seq<string>)
    requires WrapSettles(font, size, text)
    ensures result == Wrapped(font, size, text)
  {
    if |text| == 0 {
      return [];
    }
    result := [];
    var maxChars := MaxCharsPerLine(font, size);
    var paragraphs := Split(text, '\n');
    for p := 0 to |paragraphs|
      invariant result == WrapParagraphs(font, size, maxChars, paragraphs[..p])
    {
      assert paragraphs[..p + 1][..p] == paragraphs[..p];
      assert ParagraphSettles(font, size, maxChars, paragraphs[p]);
      var lines := WrapParagraphLines(font, size, maxChars, paragraphs[p]);
      result := result + lines;
    }
    assert paragraphs[..|paragraphs|] == paragraphs;
  }

  /** The words of the first `|paragraphs|` paragraphs, paragraph after paragraph. */
  function ParagraphWords(paragraphs: seq<string>): seq<string>
  {
    if paragraphs == [] then [] else ParagraphWords(paragraphs[..|paragraphs| - 1]) + Words(paragraphs[|paragraphs| - 1])
  }

  /** The words of a text are the words of its `\n`-separated paragraphs, in order. */
  lemma {:induction false} WordsOfParagraphs(paragraphs: seq<string>)
    requires paragraphs != []
    ensures Words(Join(paragraphs, ['\n'])) == ParagraphWords(paragraphs)
  {
    if |paragraphs| > 1 {
      var prefix := paragraphs[..|paragraphs| - 1];
      var last := paragraphs[|paragraphs| - 1];
      WordsOfParagraphs(prefix);
      JoinAppend(prefix, [last], ['\n']);
      assert prefix + [last] == paragraphs;
      WordsAroundBreak(Join(prefix, ['\n']), [], '\n', last);
    } else {
      assert ParagraphWords(paragraphs) == ParagraphWords([]) + Words(paragraphs[0]);
    }
  }

  lemma {:induction false} LineWordsAppend(a: seq<string>, b: seq<string>)
    ensures LineWords(a + b) == LineWords(a) + LineWords(b)
  {
    if b == [] {
      assert a + b == a;
    } else {
      var c, b' := a + b, b[..|b| - 1];
      assert c[..|c| - 1] == a + b';
      assert c[|c| - 1] == b[|b| - 1];
      LineWordsAppend(a, b');
    }
  }

  /** The paragraphs' lines: at least one per paragraph, all fitting when truncation settles on every
      word, and carrying the paragraphs' words in order, each whole or as its one cut. */
  lemma {:induction false} WrapParagraphsProperties(font: Font, size: real, maxChars: nat, paragraphs: seq<string>)
    ensures |WrapParagraphs(font, size, maxChars, paragraphs)| >= |paragraphs|
    ensures (forall i :: 0 <= i < |paragraphs| ==> ParagraphSettles(font, size, maxChars, paragraphs[i])) ==>
      AllFit(font, size, WrapParagraphs(font, size, maxChars, paragraphs))
    ensures (NonNegative(font) ||
             forall i, j :: 0 <= i < |paragraphs| && 0 <= j < |Words(paragraphs[i])| ==> Fits(font, Words(paragraphs[i])[j], size)) ==>
      LineWords(WrapParagraphs(font, size, maxChars, paragraphs)) == PlacedWords(font, size, maxChars, ParagraphWords(paragraphs))
  {
    if paragraphs != [] {
      var prefix := paragraphs[..|paragraphs| - 1];
      var last := paragraphs[|paragraphs| - 1];
      WrapParagraphsProperties(font, size, maxChars, prefix);
      WrapParagraphShape(font, size, maxChars, last);
      if forall i :: 0 <= i < |paragraphs| ==> ParagraphSettles(font, size, maxChars, paragraphs[i]) {
        assert ParagraphSettles(font, size, maxChars, last);
        WrapParagraphFits(font, size, maxChars, last);
      }
    }
    if NonNegative(font) ||
       forall i, j :: 0 <= i < |paragraphs| && 0 <= j < |Words(paragraphs[i])| ==> Fits(font, Words(paragraphs[i])[j], size) {
      WrapParagraphsKeepWords(font, size, maxChars, paragraphs);
    }
  }

  lemma {:induction false} WrapParagraphsKeepWords(font: Font, size: real, maxChars: nat, paragraphs: seq<string>)
    requires NonNegative(font) ||
      forall i, j :: 0 <= i < |paragraphs| && 0 <= j < |Words(paragraphs[i])| ==> Fits(font, Words(paragraphs[i])[j], size)
    ensures LineWords(WrapParagraphs(font, size, maxChars, paragraphs)) == PlacedWords(font, size, maxChars, ParagraphWords(paragraphs))
  {
    if paragraphs != [] {
      var prefix := paragraphs[..|paragraphs| - 1];
      var last := paragraphs[|paragraphs| - 1];
      WrapParagraphsKeepWords(font, size, maxChars, prefix);
      WrapParagraphKeepsWords(font, size, maxChars, last);
      LineWordsAppend(WrapParagraphs(font, size, maxChars, prefix), WrapParagraph(font, size, maxChars, last));
      FlatMapAppend(Placed(font, size, maxChars), ParagraphWords(prefix), Words(last));
    }
  }

  /** `wrap_text` gives no lines for an empty text and at least one per paragraph otherwise; when
      truncation settles every line fits in 160 pixels. Under non-negative advances the lines hold the
      text's words in order, each whole or, when it does not fit on a line of its own, as its one cut; and
      when every word fits on its own the lines hold exactly the text's words. */
  lemma WrappedProperties(font: Font, size: real, text: string)
    ensures text == [] <==> Wrapped(font, size, text) == []
    ensures text != [] ==> |Wrapped(font, size, text)| >= |Split(text, '\n')|
    ensures WrapSettles(font, size, text) ==> AllFit(font, size, Wrapped(font, size, text))
    ensures NonNegative(font) ==>
      LineWords(Wrapped(font, size, text)) == PlacedWords(font, size, MaxCharsPerLine(font, size), Words(text))
    ensures (forall j :: 0 <= j < |Words(text)| ==> Fits(font, Words(text)[j], size)) ==>
      LineWords(Wrapped(font, size, text)) == Words(text)
  {
    if text != [] {
      var paragraphs := Split(text, '\n');
      WrapParagraphsProperties(font, size, MaxCharsPerLine(font, size), paragraphs);
      WordsOfParagraphs(paragraphs);
      if forall j :: 0 <= j < |Words(text)| ==> Fits(font, Words(text)[j], size) {
        AllParagraphWordsFit(font, size, paragraphs);
        WordsSpec(text);
        PlacedWordsFitting(font, size, MaxCharsPerLine(font, size), Words(text));
      }
    }
  }

  /** Every word of a paragraph is a word of the whole text. */
  lemma AllParagraphWordsFit(font: Font, size: real, paragraphs: seq<string>)
    requires paragraphs != []
    requires forall j :: 0 <= j < |Words(Join(paragraphs, ['\n']))| ==> Fits(font, Words(Join(paragraphs, ['\n']))[j], size)
    ensures forall i, j :: 0 <= i < |paragraphs| && 0 <= j < |Words(paragraphs[i])| ==> Fits(font, Words(paragraphs[i])[j], size)
  {
    WordsOfParagraphs(paragraphs);
    forall i, j | 0 <= i < |paragraphs| && 0 <= j < |Words(paragraphs[i])|
      ensures Fits(font, Words(paragraphs[i])[j], size)
    {
      ParagraphWordsContain(paragraphs, i, j);
    }
  }

  lemma {:induction false} ParagraphWordsContain(paragraphs: seq<string>, i: nat, j: nat)
    requires i < |paragraphs| && j < |Words(paragraphs[i])|
    ensures Words(paragraphs[i])[j] in ParagraphWords(paragraphs)
  {
    var prefix := paragraphs[..|paragraphs| - 1];
    if i < |paragraphs| - 1 {
      ParagraphWordsContain(prefix, i, j);
    }
  }

  /** The pages of a list of lines: consecutive runs of `maxLines` lines, the last possibly shorter, each
      joined with `\n`. */
  function Pages(lines: seq<string>, maxLines: nat): seq<string>
    requires maxLines > 0
  {
    var chunks := Chunks(lines, maxLines);
    seq(|chunks|, i requires 0 <= i < |chunks| => Join(chunks[i], ['\n']))
  }

  /** Joining the pages with `\n` gives back all the lines joined with `\n`. */
  lemma {:induction false} PagesJoin(lines: seq<string>, maxLines: nat)
    requires maxLines > 0
    ensures Join(Pages(lines, maxLines), ['\n']) == Join(lines, ['\n'])
    decreases |lines|
  {
    if |lines| > maxLines {
      var head, rest := lines[..maxLines], lines[maxLines..];
      PagesJoin(rest, maxLines);
      assert Pages(lines, maxLines) == [Join(head, ['\n'])] + Pages(rest, maxLines);
      assert Pages(lines, maxLines)[1..] == Pages(rest, maxLines);
      JoinAppend(head, rest, ['\n']);
      assert head + rest == lines;
    }
  }

  /** Each page is the join of one to `maxLines` consecutive lines, and the runs, in order, are the lines. */
  lemma PagesShape(lines: seq<string>, maxLines: nat)
    requires maxLines > 0
    ensures |Pages(lines, maxLines)| == |Chunks(lines, maxLines)|
    ensures forall i :: 0 <= i < |Pages(lines, maxLines)| ==>
      Pages(lines, maxLines)[i] == Join(Chunks(lines, maxLines)[i], ['\n']) &&
      1 <= |Chunks(lines, maxLines)[i]| <= maxLines
    ensures Flatten(Chunks(lines, maxLines)) == lines
    ensures lines == [] <==> Pages(lines, maxLines) == []
  {
    ChunksSpec(lines, maxLines);
    if lines != [] {
      assert |Chunks(lines, maxLines)| > 0;
    }
  }

  /** What `split_into_pages` returns: no pages when not even one line fits the canvas height or when the
      text wraps to no lines, otherwise the pages of the wrapped lines. */
  function PagesOf(font: Font, size: real, text: string): seq<string>
  {
    var maxLines := MaxLines(font, size);
    if maxLines == 0 then []
    else
      var lines := Wrapped(font, size, text);
      if lines == [] then [] else Pages(lines, maxLines)
  }

  /** `split_into_pages`. */
  method SplitIntoPages(font: Font, size: real, text: string) returns (pages: seq<string>)
    requires MaxLines(font, size) > 0 ==> WrapSettles(font, size, text)
    ensures pages == PagesOf(font, size, text)
  {
    var maxLines := MaxLines(font, size);
    if maxLines == 0 {
      return [];
    }
    var lines := WrapText(font, size, text);
    if |lines| == 0 {
      return [];
    }
    pages := Pages(lines, maxLines);
  }

  /** An empty text, or a font whose line is taller than the canvas, gives no pages; any other text gives
      at least one, and the pages joined with `\n` are the wrapped lines joined with `\n`. */
  lemma PagesOfProperties(font: Font, size: real, text: string)
    ensures text == [] || MaxLines(font, size) == 0 ==> PagesOf(font, size, text) == []
    ensures text != [] && MaxLines(font, size) > 0 ==> PagesOf(font, size, text) != []
    ensures Join(PagesOf(font, size, text), ['\n']) ==
      if MaxLines(font, size) == 0 then [] else Join(Wrapped(font, size, text), ['\n'])
  {
    WrappedProperties(font, size, text);
    if MaxLines(font, size) > 0 && text != [] {
      PagesJoin(Wrapped(font, size, text), MaxLines(font, size));
      PagesShape(Wrapped(font, size, text), MaxLines(font, size));
    }
  }
}
