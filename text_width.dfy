/**
 * Display width of text in a terminal (`TextWidthCalculator`): the width of
 * a grapheme cluster, of a string as the sum over its clusters, the walks
 * between display columns and byte indices, and line wrapping.
 *
 * The Unicode data the code relies on through libraries is a parameter
 * (`Tables`): the per-character width of `unicode_width` (None for a control
 * character) and the extended grapheme clusters of `unicode_segmentation`.
 */
module TextWidth {
  import opened Wrappers
  import opened Unicode

  datatype EmojiWidth = One | Two | Standard

  datatype Calculator = Calculator(eastAsianAware: bool, emojiWidth: EmojiWidth)

  /** `TextWidthCalculator::new()`. */
  const DefaultCalculator: Calculator := Calculator(true, Standard)

  /** `UnicodeWidthChar::width` and `UnicodeSegmentation::graphemes(true)`. */
  datatype Tables = Tables(charWidth: char -> Option<nat>, graphemes: string -> seq<string>)

  /** The clusters of every string spell it. */
  ghost predicate Segments(t: Tables) {
    forall s :: Concat(t.graphemes(s)) == s
  }

  // ---------------------------------------------------------------------
  // Code-point classes

  /** `is_fullwidth_by_codepoint`: CJK ideographs and their extensions A and B,
      compatibility ideographs, hiragana, katakana, Hangul syllables, and the
      halfwidth and fullwidth forms block except its halfwidth katakana. */
  predicate IsFullwidthByCodepoint(c: char) {
    var x := c as int;
    (0x4E00 <= x <= 0x9FFF) || (0x3400 <= x <= 0x4DBF) || (0x20000 <= x <= 0x2A6DF)
    || (0xF900 <= x <= 0xFAFF) || (0x3040 <= x <= 0x309F) || (0x30A0 <= x <= 0x30FF)
    || (0xAC00 <= x <= 0xD7AF) || ((0xFF00 <= x <= 0xFFEF) && !(0xFF61 <= x <= 0xFF9F))
  }

  /** Inside the halfwidth and fullwidth forms block, exactly the halfwidth
      katakana are not fullwidth. */
  lemma FullwidthForms(c: char)
    requires 0xFF00 <= c as int <= 0xFFEF
    ensures IsFullwidthByCodepoint(c) <==> !(0xFF61 <= c as int <= 0xFF9F)
  {
  }

  /** `is_fullwidth_char`: width 2 is fullwidth, width 1 (or no width) is not,
      and any other width falls back to the code-point ranges. */
  predicate IsFullwidthChar(t: Tables, c: char) {
    var w := t.charWidth(c).GetOr(1);
    if w == 2 then true else if w == 1 then false else IsFullwidthByCodepoint(c)
  }

  predicate IsVariationSelector(c: char) {
    0xFE00 <= c as int <= 0xFE0F
  }

  predicate IsZeroWidthJoiner(c: char) {
    c as int == 0x200D
  }

  /** The five skin-tone modifiers U+1F3FB..U+1F3FF. */
  predicate IsSkinTone(c: char) {
    0x1F3FB <= c as int <= 0x1F3FF
  }

  /** Emoticons, pictographs, transport symbols and the other ranges `is_emoji`
      tests each character against. */
  predicate IsEmojiChar(c: char) {
    var x := c as int;
    (0x1F600 <= x <= 0x1F64F) || (0x1F300 <= x <= 0x1F5FF) || (0x1F680 <= x <= 0x1F6FF)
    || (0x1F1E0 <= x <= 0x1F1FF) || (0x2600 <= x <= 0x26FF) || (0x2700 <= x <= 0x27BF)
    || IsVariationSelector(c) || IsZeroWidthJoiner(c)
  }

  /** `is_emoji`: some character is in an emoji range, or the text contains a
      skin-tone modifier. */
  predicate IsEmoji(text: string) {
    (exists i :: 0 <= i < |text| && IsEmojiChar(text[i]))
    || (exists i :: 0 <= i < |text| && IsSkinTone(text[i]))
  }

  /** `is_wide_emoji_sequence`: a zero-width joiner followed by an emoticon,
      a pictograph or a transport symbol. */
  predicate IsWideEmojiSequence(c: char, next: Option<char>) {
    IsZeroWidthJoiner(c) && next.Some?
    && var x := next.value as int;
       (0x1F600 <= x <= 0x1F64F) || (0x1F300 <= x <= 0x1F5FF) || (0x1F680 <= x <= 0x1F6FF)
  }

  // ---------------------------------------------------------------------
  // Width of one grapheme cluster

  function EmojiSequenceWidth(cfg: Calculator): nat {
    match cfg.emojiWidth
    case One => 1
    case Two => 2
    case Standard => 2
  }

  /** The width `calculate_east_asian_width` gives character `i` of `g`. */
  function CharWidthAt(t: Tables, cfg: Calculator, g: string, i: nat): nat
    requires i < |g|
  {
    var c := g[i];
    if IsFullwidthChar(t, c) then 2
    else if IsWideEmojiSequence(c, if i + 1 < |g| then Some(g[i + 1]) else None) then EmojiSequenceWidth(cfg)
    else t.charWidth(c).GetOr(1)
  }

  /** The total width of the characters of `g` from index `i` on. */
  function EastAsianWidthFrom(t: Tables, cfg: Calculator, g: string, i: nat): nat
    requires i <= |g|
    decreases |g| - i
  {
    if i == |g| then 0 else CharWidthAt(t, cfg, g, i) + EastAsianWidthFrom(t, cfg, g, i + 1)
  }

  /** `calculate_east_asian_width`. */
  method CalculateEastAsianWidth(t: Tables, cfg: Calculator, g: string) returns (total: nat)
    ensures total == EastAsianWidthFrom(t, cfg, g, 0)
  {
    total := 0;
    var i := 0;
    while i < |g|
      invariant i <= |g|
      invariant total + EastAsianWidthFrom(t, cfg, g, i) == EastAsianWidthFrom(t, cfg, g, 0)
    {
      total := total + CharWidthAt(t, cfg, g, i);
      i := i + 1;
    }
  }

  /** Characters of width 1 (and no joiner among them) count one column each. */
  lemma {:induction false} EastAsianWidthOfNarrow(t: Tables, cfg: Calculator, g: string, i: nat)
    requires i <= |g|
    requires forall k :: i <= k < |g| ==> t.charWidth(g[k]) == Some(1) && !IsZeroWidthJoiner(g[k])
    ensures EastAsianWidthFrom(t, cfg, g, i) == |g| - i
    decreases |g| - i
  {
    if i < |g| {
      EastAsianWidthOfNarrow(t, cfg, g, i + 1);
    }
  }

  /** Characters of width 2 count two columns each. */
  lemma {:induction false} EastAsianWidthOfWide(t: Tables, cfg: Calculator, g: string, i: nat)
    requires i <= |g|
    requires forall k :: i <= k < |g| ==> t.charWidth(g[k]) == Some(2)
    ensures EastAsianWidthFrom(t, cfg, g, i) == 2 * (|g| - i)
    decreases |g| - i
  {
    if i < |g| {
      EastAsianWidthOfWide(t, cfg, g, i + 1);
    }
  }

  /** The sum of `width().unwrap_or(1)` over the characters of `s`. */
  function PlainWidth(t: Tables, s: string): nat
  {
    if s == [] then 0 else PlainWidth(t, s[..|s| - 1]) + t.charWidth(s[|s| - 1]).GetOr(1)
  }

  predicate AllControl(g: string) {
    forall i :: 0 <= i < |g| ==> IsControl(g[i])
  }

  /** `grapheme_width`. */
  function GraphemeWidth(t: Tables, cfg: Calculator, g: string): (w: nat)
    ensures g == [] || AllControl(g) ==> w == 0
    ensures !AllControl(g) && IsEmoji(g) && cfg.emojiWidth == One ==> w == 1
    ensures !AllControl(g) && IsEmoji(g) && cfg.emojiWidth == Two ==> w == 2
    ensures !AllControl(g) && IsEmoji(g) && cfg.emojiWidth == Standard && |g| > 1 ==> w == 2
    ensures !AllControl(g) && !IsEmoji(g) ==>
              w == if cfg.eastAsianAware then EastAsianWidthFrom(t, cfg, g, 0) else PlainWidth(t, g)
  {
    if g == [] then 0
    else if AllControl(g) then 0
    else if IsEmoji(g) then
      match cfg.emojiWidth
      case One => 1
      case Two => 2
      case Standard => if |g| > 1 then 2 else t.charWidth(g[0]).GetOr(1)
    else if cfg.eastAsianAware then EastAsianWidthFrom(t, cfg, g, 0)
    else PlainWidth(t, g)
  }

  // ---------------------------------------------------------------------
  // Width of a string

  /** The sum of the widths of a sequence of clusters. */
  function WidthSum(t: Tables, cfg: Calculator, gs: seq<string>): nat
  {
    if gs == [] then 0 else WidthSum(t, cfg, gs[..|gs| - 1]) + GraphemeWidth(t, cfg, gs[|gs| - 1])
  }

  lemma {:induction false} WidthSumAppend(t: Tables, cfg: Calculator, a: seq<string>, b: seq<string>)
    ensures WidthSum(t, cfg, a + b) == WidthSum(t, cfg, a) + WidthSum(t, cfg, b)
    decreases |b|
  {
    if b == [] {
      assert a + b == a;
    } else {
      var b' := b[..|b| - 1];
      assert (a + b)[..|a + b| - 1] == a + b';
      WidthSumAppend(t, cfg, a, b');
    }
  }

  /** A longer prefix of clusters is never narrower. */
  lemma WidthSumMonotone(t: Tables, cfg: Calculator, gs: seq<string>, i: nat, j: nat)
    requires i <= j <= |gs|
    ensures WidthSum(t, cfg, gs[..i]) <= WidthSum(t, cfg, gs[..j])
  {
    assert gs[..j] == gs[..i] + gs[i..j];
    WidthSumAppend(t, cfg, gs[..i], gs[i..j]);
  }

  /** `str_width`: 0 for the empty string, otherwise the sum of the widths of its clusters. */
  function StrWidth(t: Tables, cfg: Calculator, text: string): (w: nat)
    ensures text == [] ==> w == 0
    ensures text != [] ==> w == WidthSum(t, cfg, t.graphemes(text))
  {
    if text == [] then 0 else WidthSum(t, cfg, t.graphemes(text))
  }

  /** The number of bytes of a sequence of clusters. */
  function GraphemeBytes(gs: seq<string>): nat
  {
    if gs == [] then 0 else GraphemeBytes(gs[..|gs| - 1]) + ByteLen(gs[|gs| - 1])
  }

  lemma {:induction false} GraphemeBytesConcat(gs: seq<string>)
    ensures GraphemeBytes(gs) == ByteLen(Concat(gs))
  {
    if gs != [] {
      GraphemeBytesConcat(gs[..|gs| - 1]);
      ByteLenAppend(Concat(gs[..|gs| - 1]), gs[|gs| - 1]);
    }
  }

  lemma {:induction false} GraphemeBytesAppend(a: seq<string>, b: seq<string>)
    ensures GraphemeBytes(a + b) == GraphemeBytes(a) + GraphemeBytes(b)
    decreases |b|
  {
    if b == [] {
      assert a + b == a;
    } else {
      var b' := b[..|b| - 1];
      assert (a + b)[..|a + b| - 1] == a + b';
      GraphemeBytesAppend(a, b');
    }
  }

  /** Clusters without bytes are empty and have no width. */
  lemma {:induction false} NoBytesNoWidth(t: Tables, cfg: Calculator, gs: seq<string>)
    requires GraphemeBytes(gs) == 0
    ensures WidthSum(t, cfg, gs) == 0
  {
    if gs != [] {
      LengthBounds(gs[|gs| - 1]);
      NoBytesNoWidth(t, cfg, gs[..|gs| - 1]);
    }
  }

  // ---------------------------------------------------------------------
  // Columns and byte indices

  /** The number of leading clusters `col_to_char_index` walks over, searching
      from cluster `k`: it stops before the first cluster that would take the
      width past `col`. */
  function FitFrom(t: Tables, cfg: Calculator, gs: seq<string>, col: nat, k: nat): (r: nat)
    requires k <= |gs| && WidthSum(t, cfg, gs[..k]) <= col
    ensures k <= r <= |gs| && WidthSum(t, cfg, gs[..r]) <= col
    ensures r < |gs| ==> WidthSum(t, cfg, gs[..r + 1]) > col
    decreases |gs| - k
  {
    if k == |gs| || WidthSum(t, cfg, gs[..k + 1]) > col then k
    else FitFrom(t, cfg, gs, col, k + 1)
  }

  function FitCount(t: Tables, cfg: Calculator, gs: seq<string>, col: nat): nat
  {
    assert gs[..0] == [];
    FitFrom(t, cfg, gs, col, 0)
  }

  /** The prefix `col_to_char_index` walks over is the longest one that fits. */
  lemma FitCountIsLongest(t: Tables, cfg: Calculator, gs: seq<string>, col: nat, j: nat)
    requires j <= |gs|
    ensures j <= FitCount(t, cfg, gs, col) ==> WidthSum(t, cfg, gs[..j]) <= col
    ensures j > FitCount(t, cfg, gs, col) ==> WidthSum(t, cfg, gs[..j]) > col
  {
    var k := FitCount(t, cfg, gs, col);
    if j <= k {
      WidthSumMonotone(t, cfg, gs, j, k);
    } else {
      WidthSumMonotone(t, cfg, gs, k + 1, j);
    }
  }

  function Min(a: nat, b: nat): nat {
    if a <= b then a else b
  }

  /** The index `col_to_char_index` returns: the byte length of the longest
      cluster prefix whose width is at most `col`, capped at the byte length of
      the text. */
  function ColByteIndex(t: Tables, cfg: Calculator, text: string, col: nat): nat
  {
    Min(GraphemeBytes(t.graphemes(text)[..FitCount(t, cfg, t.graphemes(text), col)]), ByteLen(text))
  }

  /** `col_to_char_index`. */
  method ColToCharIndex(t: Tables, cfg: Calculator, text: string, col: nat) returns (r: nat)
    ensures r == ColByteIndex(t, cfg, text, col)
    ensures r <= ByteLen(text)
  {
    var gs := t.graphemes(text);
    var currentWidth := 0;
    var charIndex := 0;
    var i := 0;
    assert gs[..0] == [];
    while i < |gs|
      invariant i <= |gs| && i <= FitCount(t, cfg, gs, col)
      invariant currentWidth == WidthSum(t, cfg, gs[..i])
      invariant charIndex == GraphemeBytes(gs[..i])
    {
      var w := GraphemeWidth(t, cfg, gs[i]);
      assert gs[..i + 1][..i] == gs[..i];
      if currentWidth + w > col {
        FitCountIsLongest(t, cfg, gs, col, i + 1);
        break;
      }
      FitCountIsLongest(t, cfg, gs, col, i + 1);
      currentWidth := currentWidth + w;
      charIndex := charIndex + ByteLen(gs[i]);
      i := i + 1;
    }
    assert i == FitCount(t, cfg, gs, col) by {
      if i < FitCount(t, cfg, gs, col) {
        FitCountIsLongest(t, cfg, gs, col, i + 1);
      }
    }
    r := Min(charIndex, ByteLen(text));
  }

  /** The number of leading clusters `char_index_to_col` adds up, searching
      from cluster `k`: it stops once it has passed `index` bytes. */
  function StopFrom(gs: seq<string>, index: nat, k: nat): (r: nat)
    requires k <= |gs|
    ensures k <= r <= |gs|
    ensures r < |gs| ==> GraphemeBytes(gs[..r]) >= index
    ensures forall j :: k <= j < r ==> GraphemeBytes(gs[..j]) < index
    decreases |gs| - k
  {
    if k == |gs| || GraphemeBytes(gs[..k]) >= index then k else StopFrom(gs, index, k + 1)
  }

  /** The column `char_index_to_col` computes. */
  function ColumnAt(t: Tables, cfg: Calculator, gs: seq<string>, index: nat): nat
  {
    WidthSum(t, cfg, gs[..StopFrom(gs, index, 0)])
  }

  /** `char_index_to_col`. */
  method CharIndexToCol(t: Tables, cfg: Calculator, text: string, index: nat) returns (w: nat)
    ensures w == ColumnAt(t, cfg, t.graphemes(text), index)
  {
    var gs := t.graphemes(text);
    w := 0;
    var processed := 0;
    var i := 0;
    assert gs[..0] == [];
    while i < |gs|
      invariant i <= StopFrom(gs, index, 0)
      invariant w == WidthSum(t, cfg, gs[..i])
      invariant processed == GraphemeBytes(gs[..i])
    {
      if processed >= index {
        break;
      }
      assert gs[..i + 1][..i] == gs[..i];
      w := w + GraphemeWidth(t, cfg, gs[i]);
      processed := processed + ByteLen(gs[i]);
      i := i + 1;
    }
  }

  /** A later byte index never gives an earlier column. */
  lemma ColumnAtMonotone(t: Tables, cfg: Calculator, gs: seq<string>, i: nat, j: nat)
    requires i <= j
    ensures ColumnAt(t, cfg, gs, i) <= ColumnAt(t, cfg, gs, j)
  {
    var a, b := StopFrom(gs, i, 0), StopFrom(gs, j, 0);
    WidthSumMonotone(t, cfg, gs, a, b);
  }

  /** From the byte length of the text on, the column is the width of the text. */
  lemma ColumnAtEnd(t: Tables, cfg: Calculator, text: string, index: nat)
    requires Concat(t.graphemes(text)) == text && index >= ByteLen(text)
    ensures ColumnAt(t, cfg, t.graphemes(text), index) == StrWidth(t, cfg, text)
  {
    var gs := t.graphemes(text);
    var k := StopFrom(gs, index, 0);
    GraphemeBytesConcat(gs);
    assert gs == gs[..k] + gs[k..];
    GraphemeBytesAppend(gs[..k], gs[k..]);
    WidthSumAppend(t, cfg, gs[..k], gs[k..]);
    if k < |gs| {
      NoBytesNoWidth(t, cfg, gs[k..]);
    }
    if text == [] {
      assert gs[..|gs|] == gs;
      NoBytesNoWidth(t, cfg, gs);
    }
  }

  // ---------------------------------------------------------------------
  // Wrapping

  /** The clusters other than "\n". */
  function NonNewline(gs: seq<string>): seq<string>
  {
    if gs == [] then []
    else NonNewline(gs[..|gs| - 1]) + (if gs[|gs| - 1] == "\n" then [] else [gs[|gs| - 1]])
  }

  /** The last cluster among the first `n` whose trimmed text is empty, as the
      number of clusters up to and including it. */
  function LastBlank(gs: seq<string>, n: nat): (r: Option<nat>)
    requires n <= |gs|
    ensures r.Some? ==> 1 <= r.value <= n && Trim(gs[r.value - 1]) == []
    ensures r.Some? ==> forall j :: r.value <= j < n ==> Trim(gs[j]) != []
    ensures r.None? ==> forall j :: 0 <= j < n ==> Trim(gs[j]) != []
  {
    if n == 0 then None
    else if Trim(gs[n - 1]) == [] then Some(n)
    else
      var r := LastBlank(gs, n - 1);
      assert forall j :: (if r.Some? then r.value else 0) <= j < n - 1 ==> Trim(gs[j]) != [];
      r
  }

  /** The preferred break of `find_wrap_position`: after the last blank cluster
      among those that fit in `maxWidth`. */
  function BlankBreak(t: Tables, line: string, maxWidth: nat): (r: Option<nat>)
    ensures r.Some? ==> 1 <= r.value <= FitCount(t, DefaultCalculator, t.graphemes(line), maxWidth)
  {
    var gs := t.graphemes(line);
    LastBlank(gs, FitCount(t, DefaultCalculator, gs, maxWidth))
  }

  /** The width of the characters of `line` up to and including character `j`. */
  function WidthThrough(t: Tables, line: string, j: nat): nat
    requires j < |line|
  {
    PlainWidth(t, line[..j + 1])
  }

  /** The fallback of `find_wrap_position`, searching from character `k`: the
      first character whose width takes the running total past `maxWidth`. */
  function CharBreakFrom(t: Tables, line: string, maxWidth: nat, k: nat): (r: Option<nat>)
    requires k <= |line|
    ensures r.Some? ==> k <= r.value < |line| && WidthThrough(t, line, r.value) > maxWidth
    ensures r.Some? ==> forall j :: k <= j < r.value ==> WidthThrough(t, line, j) <= maxWidth
    ensures r.None? ==> forall j :: k <= j < |line| ==> WidthThrough(t, line, j) <= maxWidth
    decreases |line| - k
  {
    if k == |line| then None
    else if WidthThrough(t, line, k) > maxWidth then Some(k)
    else CharBreakFrom(t, line, maxWidth, k + 1)
  }

  /** `find_wrap_position` with its preferred position taken as the end of the
      blank cluster, in characters. */
  function WrapPosition(t: Tables, line: string, maxWidth: nat): Option<nat>
  {
    match BlankBreak(t, line, maxWidth)
    case Some(k) => Some(|Concat(t.graphemes(line)[..k])|)
    case None => CharBreakFrom(t, line, maxWidth, 0)
  }

  /** A wrap position lies within the line. */
  lemma WrapPositionInLine(t: Tables, line: string, maxWidth: nat)
    requires Concat(t.graphemes(line)) == line
    ensures WrapPosition(t, line, maxWidth).Some? ==> WrapPosition(t, line, maxWidth).value <= |line|
  {
    var gs := t.graphemes(line);
    match BlankBreak(t, line, maxWidth)
    case Some(k) =>
      assert gs == gs[..k] + gs[k..];
      ConcatAppend(gs[..k], gs[k..]);
    case None =>
  }

  /** `find_wrap_position` as written, in bytes: the preferred position is the
      index of the blank cluster plus its byte length, and the fallback the
      byte index of the first character that overflows. */
  function WrapPositionAsWritten(t: Tables, line: string, maxWidth: nat): Option<nat>
  {
    var gs := t.graphemes(line);
    match BlankBreak(t, line, maxWidth)
    case Some(k) => Some((k - 1) + ByteLen(gs[k - 1]))
    case None =>
      match CharBreakFrom(t, line, maxWidth, 0)
      case Some(j) => Some(ByteLen(line[..j]))
      case None => None
  }

  /** `find_wrap_position`, with the preferred position at the end of the blank cluster. */
  method FindWrapPosition(t: Tables, line: string, maxWidth: nat) returns (r: Option<nat>)
    ensures r == WrapPosition(t, line, maxWidth)
  {
    var gs := t.graphemes(line);
    var best: Option<nat> := None;
    var currentWidth := 0;
    var i := 0;
    assert gs[..0] == [];
    while i < |gs|
      invariant i <= |gs| && i <= FitCount(t, DefaultCalculator, gs, maxWidth)
      invariant currentWidth == WidthSum(t, DefaultCalculator, gs[..i])
      invariant best == BlankEnd(gs, i)
    {
      FitStep(t, gs, maxWidth, i);
      currentWidth := currentWidth + GraphemeWidth(t, DefaultCalculator, gs[i]);
      if currentWidth > maxWidth {
        break;
      }
      if Trim(gs[i]) == [] {
        best := Some(|Concat(gs[..i + 1])|);
      }
      i := i + 1;
    }
    if best.Some? {
      return best;
    }
    r := CharBreak(t, line, maxWidth);
  }

  /** One more cluster adds its width, and takes the total past `col` exactly
      when the walk of `col_to_char_index` stops before it. */
  lemma FitStep(t: Tables, gs: seq<string>, col: nat, i: nat)
    requires i < |gs| && i <= FitCount(t, DefaultCalculator, gs, col)
    ensures WidthSum(t, DefaultCalculator, gs[..i + 1])
         == WidthSum(t, DefaultCalculator, gs[..i]) + GraphemeWidth(t, DefaultCalculator, gs[i])
    ensures WidthSum(t, DefaultCalculator, gs[..i + 1]) > col <==> i == FitCount(t, DefaultCalculator, gs, col)
  {
    assert gs[..i + 1][..i] == gs[..i];
    FitCountIsLongest(t, DefaultCalculator, gs, col, i + 1);
  }

  /** The end, in characters, of the last blank cluster among the first `n`. */
  function BlankEnd(gs: seq<string>, n: nat): Option<nat>
    requires n <= |gs|
  {
    match LastBlank(gs, n)
    case Some(k) => Some(|Concat(gs[..k])|)
    case None => None
  }

  /** The character-by-character fallback of `find_wrap_position`. */
  method CharBreak(t: Tables, line: string, maxWidth: nat) returns (r: Option<nat>)
    ensures r == CharBreakFrom(t, line, maxWidth, 0)
  {
    var width := 0;
    var k := 0;
    while k < |line|
      invariant k <= |line|
      invariant width == PlainWidth(t, line[..k])
      invariant CharBreakFrom(t, line, maxWidth, 0) == CharBreakFrom(t, line, maxWidth, k)
    {
      assert line[..k + 1][..k] == line[..k];
      width := width + t.charWidth(line[k]).GetOr(1);
      if width > maxWidth {
        return Some(k);
      }
      k := k + 1;
    }
    return None;
  }

  /** `wrap_text`: split `text` into lines on "\n" clusters and before a
      cluster that would take a line past `maxWidth`. The lines spell the text
      without its "\n" clusters. */
  method WrapText(t: Tables, text: string, maxWidth: nat) returns (lines: seq<string>)
    requires Segments(t)
    ensures Concat(lines) == Concat(NonNewline(t.graphemes(text)))
  {
    var gs := t.graphemes(text);
    lines := [];
    var currentLine: string := [];
    var currentWidth := 0;
    var i := 0;
    while i < |gs|
      invariant i <= |gs|
      invariant Concat(lines) + currentLine == Concat(NonNewline(gs[..i]))
    {
      var g := gs[i];
      var w := GraphemeWidth(t, DefaultCalculator, g);
      ghost var done := Concat(lines) + currentLine;
      KeptText(gs, i, done);
      ConcatSnoc(lines, currentLine);
      if g == "\n" {
        lines := lines + [currentLine];
        currentLine := [];
        currentWidth := 0;
        assert Concat(lines) + currentLine == done;
      } else {
        if currentWidth + w > maxWidth {
          var pushed, carried, width := BreakLine(t, currentLine, g, w, maxWidth);
          ConcatSnoc(lines, pushed);
          SpliceKeepsText(Concat(lines), currentLine, |pushed|, g);
          lines := lines + [pushed];
          currentLine := carried;
          currentWidth := width;
        } else {
          currentLine := currentLine + g;
          currentWidth := currentWidth + w;
        }
        assert Concat(lines) + currentLine == done + g;
      }
      i := i + 1;
    }
    assert gs[..i] == gs;
    if currentLine != [] {
      ConcatSnoc(lines, currentLine);
      lines := lines + [currentLine];
    }
  }

  /** The break `wrap_text` makes before a cluster `g` that does not fit:
      the line up to the wrap position is pushed and its rest carries on
      with `g`; without a wrap position the whole line is pushed. */
  method BreakLine(t: Tables, line: string, g: string, w: nat, maxWidth: nat)
    returns (pushed: string, carried: string, width: nat)
    requires Segments(t)
    ensures |pushed| <= |line| && pushed == line[..|pushed|] && carried == line[|pushed|..] + g
    ensures WrapPosition(t, line, maxWidth).Some? ==> |pushed| == WrapPosition(t, line, maxWidth).value
    ensures WrapPosition(t, line, maxWidth).None? ==> pushed == line
  {
    var p := FindWrapPosition(t, line, maxWidth);
    WrapPositionInLine(t, line, maxWidth);
    if p.Some? {
      pushed := line[..p.value];
      carried := line[p.value..] + g;
      width := StrWidth(t, DefaultCalculator, carried);
    } else {
      pushed := line;
      carried := g;
      width := w;
      assert line[|pushed|..] == [];
    }
  }

  /** The text the lines spell after cluster `i`: the text before it, and
      the cluster itself unless it is a newline. */
  lemma KeptText(gs: seq<string>, i: nat, done: string)
    requires i < |gs| && Concat(NonNewline(gs[..i])) == done
    ensures gs[i] == "\n" ==> Concat(NonNewline(gs[..i + 1])) == done
    ensures gs[i] != "\n" ==> Concat(NonNewline(gs[..i + 1])) == done + gs[i]
  {
    NonNewlineStep(gs, i);
    if gs[i] == "\n" {
      assert NonNewline(gs[..i]) + [] == NonNewline(gs[..i]);
    } else {
      ConcatSnoc(NonNewline(gs[..i]), gs[i]);
    }
  }

  lemma NonNewlineStep(gs: seq<string>, i: nat)
    requires i < |gs|
    ensures NonNewline(gs[..i + 1]) == NonNewline(gs[..i]) + (if gs[i] == "\n" then [] else [gs[i]])
  {
    assert gs[..i + 1][..i] == gs[..i];
  }

  lemma SpliceKeepsText(done: string, line: string, p: nat, g: string)
    requires p <= |line|
    ensures (done + line[..p]) + (line[p..] + g) == done + line + g
  {
    assert line == line[..p] + line[p..];
  }

  /** A character of one of the pieces occurs in their concatenation. */
  lemma {:induction false} ConcatHolds(parts: seq<string>, i: nat, c: char)
    requires i < |parts| && c in parts[i]
    ensures c in Concat(parts)
  {
    var init := parts[..|parts| - 1];
    if i < |parts| - 1 {
      ConcatHolds(init, i, c);
    }
  }

  /** So when "\n" is always a cluster of its own, no line holds a line feed. */
  lemma WrappedLinesHaveNoNewline(lines: seq<string>, gs: seq<string>)
    requires Concat(lines) == Concat(NonNewline(gs))
    requires forall i :: 0 <= i < |gs| ==> gs[i] == "\n" || '\n' !in gs[i]
    ensures forall i :: 0 <= i < |lines| ==> '\n' !in lines[i]
  {
    NonNewlineHasNoNewline(gs);
    forall i | 0 <= i < |lines| ensures '\n' !in lines[i] {
      if '\n' in lines[i] {
        ConcatHolds(lines, i, '\n');
      }
    }
  }

  lemma {:induction false} NonNewlineHasNoNewline(gs: seq<string>)
    requires forall i :: 0 <= i < |gs| ==> gs[i] == "\n" || '\n' !in gs[i]
    ensures '\n' !in Concat(NonNewline(gs))
  {
    if gs != [] {
      var init := gs[..|gs| - 1];
      NonNewlineHasNoNewline(init);
      var last := if gs[|gs| - 1] == "\n" then [] else [gs[|gs| - 1]];
      ConcatAppend(NonNewline(init), last);
      if last != [] {
        assert Concat(last) == gs[|gs| - 1] by {
          assert last[..0] == [];
        }
      }
    }
  }

  // ---------------------------------------------------------------------
  // The preferred wrap position as written

  /** Widths and clusters that agree with the Unicode data on the text below:
      U+4E16 is two columns wide, and each character is a cluster of its own. */
  const SampleTables: Tables :=
    Tables(c => if c == '世' then Some(2) else Some(1), s => seq(|s|, i requires 0 <= i < |s| => [s[i]]))

  lemma SampleWidths()
    ensures GraphemeWidth(SampleTables, DefaultCalculator, "世") == 2
    ensures GraphemeWidth(SampleTables, DefaultCalculator, " ") == 1
    ensures GraphemeWidth(SampleTables, DefaultCalculator, "a") == 1
  {
    assert !IsControl("世"[0]) && !IsControl(" "[0]) && !IsControl("a"[0]);
    assert !IsEmoji("世") && !IsEmoji(" ") && !IsEmoji("a");
  }

  lemma SampleClusters()
    ensures SampleTables.graphemes("世 a") == ["世", " ", "a"]
  {
  }

  /** The byte lengths of the prefixes of "世 a": 0, 3, 4 and 5. */
  lemma SampleBytes()
    ensures ByteLen("世 a"[..0]) == 0 && ByteLen("世 a"[..1]) == 3
    ensures ByteLen("世 a"[..2]) == 4 && ByteLen("世 a"[..3]) == 5
  {
    var line := "世 a";
    assert line[..1][..0] == line[..0] == [];
    assert line[..2][..1] == line[..1];
    assert line[..3][..2] == line[..2];
  }

  lemma SampleConcat()
    ensures Concat(["世", " "]) == "世 "
  {
    SingletonConcat("世");
    ConcatSnoc(["世"], " ");
  }

  lemma SampleFit()
    ensures FitCount(SampleTables, DefaultCalculator, SampleTables.graphemes("世 a"), 4) == 3
  {
    SampleClusters();
    SampleWidths();
    WidthSumOfThree(SampleTables, DefaultCalculator, "世", " ", "a");
    FitWhole(SampleTables, DefaultCalculator, ["世", " ", "a"], 4);
  }

  /** A line whose clusters all fit in the column is walked to its end. */
  lemma FitWhole(t: Tables, cfg: Calculator, gs: seq<string>, col: nat)
    requires WidthSum(t, cfg, gs) <= col
    ensures FitCount(t, cfg, gs, col) == |gs|
  {
    assert gs[..|gs|] == gs;
    FitCountIsLongest(t, cfg, gs, col, |gs|);
  }

  /** The width of three clusters is the sum of their widths. */
  lemma WidthSumOfThree(t: Tables, cfg: Calculator, a: string, b: string, c: string)
    ensures WidthSum(t, cfg, [a, b, c]) == GraphemeWidth(t, cfg, a) + GraphemeWidth(t, cfg, b) + GraphemeWidth(t, cfg, c)
  {
    assert [a, b, c][..2] == [a, b];
    assert [a, b][..1] == [a];
    assert [a][..0] == [];
    assert WidthSum(t, cfg, [a]) == GraphemeWidth(t, cfg, a);
    assert WidthSum(t, cfg, [a, b]) == WidthSum(t, cfg, [a]) + GraphemeWidth(t, cfg, b);
    assert WidthSum(t, cfg, [a, b, c]) == WidthSum(t, cfg, [a, b]) + GraphemeWidth(t, cfg, c);
  }


  lemma SampleBlankBreak()
    ensures BlankBreak(SampleTables, "世 a", 4) == Some(2)
  {
    var gs := SampleTables.graphemes("世 a");
    SampleClusters();
    SampleFit();
    assert Trim(" ") == [];
    assert Trim("a") != [];
    assert LastBlank(gs, 3) == LastBlank(gs, 2);
  }

  /** On "世 a" with width 4, the preferred break of `find_wrap_position` as
      written is byte 2, inside the three bytes of U+4E16, so slicing the line
      there panics. */
  lemma WrapPositionSplitsChar()
    ensures WrapPositionAsWritten(SampleTables, "世 a", 4) == Some(2)
    ensures forall k :: 0 <= k <= 3 ==> ByteLen("世 a"[..k]) != 2
  {
    SampleClusters();
    SampleBlankBreak();
    SampleBytes();
    assert ByteLen(" ") == 1 by {
      assert " "[..0] == [];
    }
    forall k | 0 <= k <= 3
      ensures ByteLen("世 a"[..k]) != 2
    {
      assert k == 0 || k == 1 || k == 2 || k == 3;
    }
  }

  /** The corrected position on the same line is the end of the blank cluster:
      character 2, which is byte 4, a character boundary. */
  lemma WrapPositionOnSample()
    ensures WrapPosition(SampleTables, "世 a", 4) == Some(2) && ByteLen("世 a"[..2]) == 4
  {
    SampleClusters();
    SampleBlankBreak();
    SampleBytes();
    assert SampleTables.graphemes("世 a")[..2] == ["世", " "];
    SampleConcat();
  }
}
