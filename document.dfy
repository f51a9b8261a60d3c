/**
 * `Document` of the LSP plugin: a text with its URI, language id and
 * version, the conversion between LSP positions and offsets into the text,
 * text edits, and the word under a position.
 *
 * The conversions are modelled as written: `get_position_offset` adds a
 * count of UTF-8 bytes within the line to the character index of the line
 * start, and `offset_to_position` subtracts a character index and then walks
 * the line in bytes. Both are exact on ASCII text only; the lemmas below say
 * what holds in general and what holds on ASCII.
 */
module LspDocument {
  import opened Wrappers
  import opened Unicode
  import opened Ints
  import opened Rope
  import opened LspTypes

  // ---------------------------------------------------------------------
  // From a position to an offset

  /** The walk of `get_position_offset` from character `i` of the line on: the
      first index whose prefix covers at least `units` UTF-16 code units, or the
      end of the line. From 0 it gives the shortest such prefix. */
  function Utf16Walk(line: string, units: nat, i: nat): (n: nat)
    requires i <= |line|
    ensures i <= n <= |line|
    ensures n == |line| || units <= Utf16Length(line[..n])
    ensures forall m :: i <= m < n ==> Utf16Length(line[..m]) < units
    decreases |line| - i
  {
    if i == |line| || Utf16Length(line[..i]) >= units then i else Utf16Walk(line, units, i + 1)
  }

  /** `get_position_offset`: None past the last line; otherwise the character
      index of the line start plus the UTF-8 length of the covered prefix. */
  function PositionOffset(text: string, p: Position): (r: Option<nat>)
    ensures r.None? <==> p.line >= LineCount(text)
    ensures r.Some? ==>
      LineStart(text, p.line) <= r.value <= LineStart(text, p.line) + ByteLen(Lines(text)[p.line])
  {
    if p.line >= LineCount(text) then None
    else
      var line := Lines(text)[p.line];
      var k := Utf16Walk(line, p.character, 0);
      PrefixLengthsMonotone(line, k, |line|);
      assert line[..|line|] == line;
      Some(LineStart(text, p.line) + ByteLen(line[..k]))
  }

  /** A `character` that falls between the two halves of a surrogate pair
      rounds up past the pair. */
  lemma SurrogatePairRoundsUp(line: string, m: nat, units: nat)
    requires m < |line| && (line[m] as int) > 0xFFFF
    requires units == Utf16Length(line[..m]) + 1
    ensures Utf16Walk(line, units, 0) == m + 1
  {
    var n := Utf16Walk(line, units, 0);
    assert line[..m + 1][..m] == line[..m];
    if n <= m {
      if n < m {
        PrefixLengthsMonotone(line, n, m);
      }
    }
  }

  /** On ASCII a prefix of `units` code units is `units` characters long. */
  lemma {:induction false} AsciiPrefixChars(line: string, units: nat)
    requires AllAscii(line) && units <= |line|
    ensures Utf16Walk(line, units, 0) == units
    ensures ByteWalk(line, units, 0) == units
    ensures ByteLen(line[..units]) == units && Utf16Length(line[..units]) == units
  {
    var n := Utf16Walk(line, units, 0);
    assert AllAscii(line[..n]);
    AsciiLengths(line[..n]);
    var k := ByteWalk(line, units, 0);
    assert AllAscii(line[..k]);
    AsciiLengths(line[..k]);
    assert AllAscii(line[..units]);
    AsciiLengths(line[..units]);
  }

  /** On ASCII text the offset is the line start plus `character`, capped at
      the line's length. */
  lemma AsciiPositionOffset(text: string, p: Position)
    requires AllAscii(text) && p.line < LineCount(text)
    ensures PositionOffset(text, p) == Some(AsciiOffset(text, p))
  {
    var line := Lines(text)[p.line];
    AsciiLine(text, p.line);
    var c := Min(p.character, |line|);
    if p.character <= |line| {
      AsciiPrefixChars(line, p.character);
    } else {
      AsciiPrefixCharsBeyond(line, p.character);
      assert line[..|line|] == line;
    }
    PositionOffsetAt(text, p, c);
  }

  /** A position whose walk takes `c` characters of its line, `c` bytes long,
      is `c` bytes past the line's start. */
  lemma PositionOffsetAt(text: string, p: Position, c: nat)
    requires p.line < LineCount(text) && c <= |Lines(text)[p.line]|
    requires Utf16Walk(Lines(text)[p.line], p.character, 0) == c
    requires ByteLen(Lines(text)[p.line][..c]) == c
    ensures PositionOffset(text, p) == Some(LineStart(text, p.line) + c)
  {
  }

  /** Past the end of an ASCII line, the walk takes the whole line. */
  lemma AsciiPrefixCharsBeyond(line: string, units: nat)
    requires AllAscii(line) && units > |line|
    ensures Utf16Walk(line, units, 0) == |line| && ByteLen(line) == |line|
  {
    var n := Utf16Walk(line, units, 0);
    AsciiLengths(line);
    if n < |line| {
      assert AllAscii(line[..n]);
      AsciiLengths(line[..n]);
    }
  }


  function Min(a: nat, b: nat): nat {
    if a <= b then a else b
  }

  /** The offset of a position in ASCII text: the line start plus `character`,
      capped at the line's length. */
  function AsciiOffset(text: string, p: Position): (o: nat)
    requires p.line < LineCount(text)
    ensures LineStart(text, p.line) <= o <= LineStart(text, p.line + 1) <= |text|
  {
    LineSlice(text, p.line);
    LineStart(text, p.line) + Min(p.character, |Lines(text)[p.line]|)
  }

  lemma AsciiLine(text: string, l: nat)
    requires AllAscii(text) && l < LineCount(text)
    ensures AllAscii(Lines(text)[l])
  {
    LineSlice(text, l);
    var line := Lines(text)[l];
    forall k | 0 <= k < |line| ensures IsAscii(line[k]) {
      assert line[k] == text[LineStart(text, l) + k];
    }
  }

  // ---------------------------------------------------------------------
  // From an offset to a position

  /** One more character adds its own lengths to the prefix's. */
  lemma PrefixStep(line: string, i: nat)
    requires i < |line|
    ensures Utf16Length(line[..i + 1]) == Utf16Length(line[..i]) + Utf16Len(line[i])
    ensures ByteLen(line[..i + 1]) == ByteLen(line[..i]) + Utf8Len(line[i])
  {
    assert line[..i + 1][..i] == line[..i];
  }

  /** The walk of `offset_to_position` from character `i` of the line on: the
      first index whose prefix covers at least `bytes` UTF-8 bytes, or the end
      of the line. From 0 it gives the shortest such prefix. */
  function ByteWalk(line: string, bytes: nat, i: nat): (n: nat)
    requires i <= |line|
    ensures i <= n <= |line|
    ensures n == |line| || bytes <= ByteLen(line[..n])
    ensures forall m :: i <= m < n ==> ByteLen(line[..m]) < bytes
    decreases |line| - i
  {
    if i == |line| || ByteLen(line[..i]) >= bytes then i else ByteWalk(line, bytes, i + 1)
  }

  /** `offset_to_position`: the line holding the offset, and the UTF-16 length
      of the line prefix covering at least `offset - line start` bytes; both
      truncated to `u32`. */
  function OffsetPosition(text: string, offset: nat): (p: Position)
    requires offset <= |text|
    ensures p.line == TruncU32(CharToLine(text, offset))
    ensures p.character <= Utf16Length(Lines(text)[CharToLine(text, offset)])
  {
    var l := CharToLine(text, offset);
    var line := Lines(text)[l];
    var k := ByteWalk(line, offset - LineStart(text, l), 0);
    PrefixLengthsMonotone(line, k, |line|);
    assert line[..|line|] == line;
    Position(TruncU32(l), TruncU32(Utf16Length(line[..k])))
  }

  /** On ASCII text, a position inside a line (up to the end of its content)
      survives the conversion to an offset and back. */
  lemma AsciiPositionRoundTrip(text: string, p: Position)
    requires AllAscii(text) && p.line < LineCount(text)
    requires p.character <= ContentLength(Lines(text)[p.line])
    ensures PositionOffset(text, p).Some? && PositionOffset(text, p).value <= |text|
    ensures OffsetPosition(text, PositionOffset(text, p).value) == p
  {
    AsciiPositionOffset(text, p);
    AsciiOffsetLine(text, p);
    AsciiLine(text, p.line);
    AsciiPrefixChars(Lines(text)[p.line], p.character);
    OffsetPositionAt(text, AsciiOffset(text, p), p.line, p.character);
  }

  /** An offset on line `l` whose bytes into the line are `c` characters
      that take `c` UTF-16 units is position (`l`, `c`). */
  lemma OffsetPositionAt(text: string, offset: nat, l: u32, c: u32)
    requires offset <= |text| && CharToLine(text, offset) == l
    requires offset == LineStart(text, l) + c
    requires ByteWalk(Lines(text)[l], c, 0) == c && Utf16Length(Lines(text)[l][..c]) == c
    ensures OffsetPosition(text, offset) == Position(l, c)
  {
  }


  /** The ASCII offset of a position inside a line lies on that line. */
  lemma AsciiOffsetLine(text: string, p: Position)
    requires p.line < LineCount(text)
    requires p.character <= ContentLength(Lines(text)[p.line])
    ensures AsciiOffset(text, p) == LineStart(text, p.line) + p.character
    ensures CharToLine(text, AsciiOffset(text, p)) == p.line
  {
    var l: nat := p.line;
    var line := Lines(text)[l];
    LineSlice(text, l);
    LinesShape(text);
    if l + 1 < LineCount(text) {
      assert IsBreak(line[|line| - 1]);
      assert p.character < |line|;
    }
    CharToLineUnique(text, AsciiOffset(text, p), l);
  }

  // ---------------------------------------------------------------------
  // Text edits

  /** `apply_text_edit`: when both ends resolve, remove the text from `start` up to `end` and insert
      the new text at `start`; otherwise nothing changes. None stands for the
      panic of `Rope::remove` on a reversed or out-of-range span. */
  function ApplyEdit(text: string, edit: TextEdit): (r: Option<string>)
  {
    match (PositionOffset(text, edit.range.start), PositionOffset(text, edit.range.end))
    case (Some(s), Some(e)) =>
      if s <= e <= |text| then Some(text[..s] + edit.newText + text[e..]) else None
    case _ => Some(text)
  }

  /** An edit with a start or an end past the last line leaves the text unchanged. */
  lemma UnresolvedEditIsIgnored(text: string, edit: TextEdit)
    requires edit.range.start.line >= LineCount(text) || edit.range.end.line >= LineCount(text)
    ensures ApplyEdit(text, edit) == Some(text)
  {
  }

  /** A resolvable edit on ASCII text splices the new text between the resolved offsets. */
  lemma AsciiEditSplices(text: string, edit: TextEdit)
    requires AllAscii(text)
    requires edit.range.start.line < LineCount(text) && edit.range.end.line < LineCount(text)
    ensures var s := AsciiOffset(text, edit.range.start);
            var e := AsciiOffset(text, edit.range.end);
            ApplyEdit(text, edit) == if s <= e then Some(text[..s] + edit.newText + text[e..]) else None
  {
    AsciiPositionOffset(text, edit.range.start);
    AsciiPositionOffset(text, edit.range.end);
  }

  /** Edits applied one after the other; None when one of them panics. */
  function ApplyAll(text: string, edits: seq<TextEdit>): Option<string>
    decreases |edits|
  {
    if edits == [] then Some(text)
    else
      match ApplyEdit(text, edits[0])
      case None => None
      case Some(t) => ApplyAll(t, edits[1..])
  }
  /** When a list of edits applies, so does its first edit. */
  lemma ApplyAllFirst(text: string, edits: seq<TextEdit>)
    requires edits != [] && ApplyAll(text, edits).Some?
    ensures ApplyEdit(text, edits[0]).Some?
  {
  }

  /** Applying a list of edits is applying the first, then the rest. */
  lemma ApplyAllRest(text: string, edits: seq<TextEdit>, after: string)
    requires edits != [] && ApplyEdit(text, edits[0]) == Some(after)
    ensures ApplyAll(after, edits[1..]) == ApplyAll(text, edits)
  {
  }



  /** The sort key of `apply_text_edits`: the start of the range. */
  predicate StartsBefore(a: TextEdit, b: TextEdit) {
    a.range.start.line < b.range.start.line
    || (a.range.start.line == b.range.start.line && a.range.start.character < b.range.start.character)
  }

  predicate SameStart(a: TextEdit, b: TextEdit) {
    a.range.start == b.range.start
  }

  /** Non-increasing start positions. */
  predicate SortedDescending(edits: seq<TextEdit>) {
    forall i, j :: 0 <= i < j < |edits| ==> !StartsBefore(edits[i], edits[j])
  }

  /** Places `x` after every edit that starts at or after it. */
  function InsertEdit(x: TextEdit, sorted: seq<TextEdit>): (r: seq<TextEdit>)
    ensures multiset(r) == multiset(sorted) + multiset{x}
    ensures |r| == |sorted| + 1
  {
    if sorted == [] then [x]
    else if StartsBefore(sorted[0], x) then [x] + sorted
    else
      assert sorted == [sorted[0]] + sorted[1..];
      [sorted[0]] + InsertEdit(x, sorted[1..])
  }

  /** `sort_by` with the reversed (line, character) comparison: a stable sort
      into non-increasing start order, modelled as an insertion sort. */
  function SortEdits(edits: seq<TextEdit>): (r: seq<TextEdit>)
    ensures multiset(r) == multiset(edits)
  {
    if edits == [] then []
    else
      assert edits == edits[..|edits| - 1] + [edits[|edits| - 1]];
      InsertEdit(edits[|edits| - 1], SortEdits(edits[..|edits| - 1]))
  }

  lemma {:induction false} InsertEditSorted(x: TextEdit, sorted: seq<TextEdit>)
    requires SortedDescending(sorted)
    ensures SortedDescending(InsertEdit(x, sorted))
  {
    if sorted != [] && !StartsBefore(sorted[0], x) {
      InsertEditSorted(x, sorted[1..]);
      var r := InsertEdit(x, sorted[1..]);
      forall y | y in multiset(r) ensures !StartsBefore(sorted[0], y) {
        if y != x {
          assert y in multiset(sorted[1..]);
          var j :| 1 <= j < |sorted| && sorted[j] == y;
        }
      }
      forall j | 0 <= j < |r| ensures !StartsBefore(sorted[0], r[j]) {
        assert r[j] in multiset(r);
      }
    }
  }

  /** The order `apply_text_edits` works in: non-increasing starts, a permutation
      of the given edits. */
  lemma {:induction false} SortEditsSorted(edits: seq<TextEdit>)
    ensures SortedDescending(SortEdits(edits))
    ensures multiset(SortEdits(edits)) == multiset(edits)
  {
    if edits != [] {
      SortEditsSorted(edits[..|edits| - 1]);
      InsertEditSorted(edits[|edits| - 1], SortEdits(edits[..|edits| - 1]));
    }
  }

  /** The edits of a sequence that start where `x` starts, in their order. */
  function SameStartAs(x: TextEdit, edits: seq<TextEdit>): seq<TextEdit>
  {
    if edits == [] then []
    else SameStartAs(x, edits[..|edits| - 1])
         + (if SameStart(edits[|edits| - 1], x) then [edits[|edits| - 1]] else [])
  }

  lemma {:induction false} SameStartAsAppend(x: TextEdit, a: seq<TextEdit>, b: seq<TextEdit>)
    ensures SameStartAs(x, a + b) == SameStartAs(x, a) + SameStartAs(x, b)
    decreases |b|
  {
    if b == [] {
      assert a + b == a;
    } else {
      assert (a + b)[..|a + b| - 1] == a + b[..|b| - 1];
      SameStartAsAppend(x, a, b[..|b| - 1]);
    }
  }

  lemma SameStartAsSingleton(x: TextEdit, y: TextEdit)
    ensures SameStartAs(x, [y]) == if SameStart(y, x) then [y] else []
  {
    assert [y][..0] == [];
  }

  /** No edit of a sorted sequence whose first start is before `x`'s starts where `x` does. */
  lemma {:induction false} NoneStartLikeAfter(x: TextEdit, sorted: seq<TextEdit>)
    requires SortedDescending(sorted) && sorted != [] && StartsBefore(sorted[0], x)
    ensures SameStartAs(x, sorted) == []
    decreases |sorted|
  {
    var last := sorted[|sorted| - 1];
    assert !StartsBefore(sorted[0], last) || |sorted| == 1;
    if |sorted| > 1 {
      NoneStartLikeAfter(x, sorted[..|sorted| - 1]);
    }
  }

  lemma {:induction false} InsertEditStable(x: TextEdit, sorted: seq<TextEdit>, y: TextEdit)
    requires SortedDescending(sorted)
    ensures SameStartAs(y, InsertEdit(x, sorted))
         == SameStartAs(y, sorted) + SameStartAs(y, [x])
    decreases |sorted|
  {
    if sorted == [] {
      SameStartAsSingleton(y, x);
    } else if StartsBefore(sorted[0], x) {
      InsertInFrontStable(x, sorted, y);
    } else {
      var head, tail := sorted[0], sorted[1..];
      assert sorted == [head] + tail;
      assert InsertEdit(x, sorted) == [head] + InsertEdit(x, tail);
      InsertEditStable(x, tail, y);
      SameStartAsAppend(y, [head], InsertEdit(x, tail));
      SameStartAsAppend(y, [head], tail);
    }
  }

  lemma InsertInFrontStable(x: TextEdit, sorted: seq<TextEdit>, y: TextEdit)
    requires SortedDescending(sorted) && sorted != [] && StartsBefore(sorted[0], x)
    ensures SameStartAs(y, [x] + sorted) == SameStartAs(y, sorted) + SameStartAs(y, [x])
  {
    SameStartAsSingleton(y, x);
    SameStartAsAppend(y, [x], sorted);
    if SameStart(x, y) {
      NoneStartLikeAfter(y, sorted);
    }
  }

  /** The sort is stable: edits that start at the same position keep their order. */
  lemma {:induction false} SortEditsStable(edits: seq<TextEdit>, y: TextEdit)
    ensures SameStartAs(y, SortEdits(edits)) == SameStartAs(y, edits)
  {
    if edits != [] {
      var init := edits[..|edits| - 1];
      var last := edits[|edits| - 1];
      SortEditsStable(init, y);
      SortEditsSorted(init);
      InsertEditStable(last, SortEdits(init), y);
      SameStartAsSingleton(y, last);
    }
  }

  // ---------------------------------------------------------------------
  // Word under a position

  predicate IsWordChar(alnum: char -> bool, c: char) {
    alnum(c) || c == '_'
  }

  /** Where the run of word characters ending at `i` begins. */
  function RunStart(line: string, i: nat, alnum: char -> bool): (s: nat)
    requires i <= |line|
    ensures s <= i
    ensures forall k :: s <= k < i ==> IsWordChar(alnum, line[k])
    ensures s == 0 || !IsWordChar(alnum, line[s - 1])
  {
    if i > 0 && IsWordChar(alnum, line[i - 1]) then RunStart(line, i - 1, alnum) else i
  }

  /** Where the run of word characters starting at `i` ends. */
  function RunEnd(line: string, i: nat, alnum: char -> bool): (e: nat)
    requires i <= |line|
    ensures i <= e <= |line|
    ensures forall k :: i <= k < e ==> IsWordChar(alnum, line[k])
    ensures e == |line| || !IsWordChar(alnum, line[e])
    decreases |line| - i
  {
    if i < |line| && IsWordChar(alnum, line[i]) then RunEnd(line, i + 1, alnum) else i
  }

  /** `get_word_at_position`, with `alnum` standing for `char::is_alphanumeric`. */
  function WordAt(text: string, p: Position, alnum: char -> bool): Option<string>
  {
    if p.line >= LineCount(text) then None
    else
      var line := Lines(text)[p.line];
      if p.character >= |line| then None
      else
        var s := RunStart(line, p.character, alnum);
        var e := RunEnd(line, p.character, alnum);
        if s == e then None else Some(line[s..e])
  }

  /** The word is the maximal run of word characters around the position:
      any such run determines the result. */
  lemma WordAtIsMaximalRun(text: string, p: Position, alnum: char -> bool, s: nat, e: nat)
    requires p.line < LineCount(text)
    requires p.character < |Lines(text)[p.line]|
    requires s <= p.character <= e <= |Lines(text)[p.line]|
    requires forall k :: s <= k < e ==> IsWordChar(alnum, Lines(text)[p.line][k])
    requires s == 0 || !IsWordChar(alnum, Lines(text)[p.line][s - 1])
    requires e == |Lines(text)[p.line]| || !IsWordChar(alnum, Lines(text)[p.line][e])
    ensures WordAt(text, p, alnum) == if s == e then None else Some(Lines(text)[p.line][s..e])
  {
    var line := Lines(text)[p.line];
    var s' := RunStart(line, p.character, alnum);
    var e' := RunEnd(line, p.character, alnum);
    assert s' == s;
    assert e' == e;
  }

  /** There is no word at a position past the end of its line. */
  lemma NoWordPastLineEnd(text: string, p: Position, alnum: char -> bool)
    requires p.line < LineCount(text) && p.character >= |Lines(text)[p.line]|
    ensures WordAt(text, p, alnum) == None
  {
  }

  // ---------------------------------------------------------------------
  // The document object

  class Document {
    var uri: string
    var languageId: string
    var version: i32
    var content: string

    /** `Document::new`. */
    constructor(uri: string, content: string, languageId: string, version: i32)
      ensures this.uri == uri && this.content == content
      ensures this.languageId == languageId && this.version == version
    {
      this.uri := uri;
      this.languageId := languageId;
      this.version := version;
      this.content := content;
    }

    /** `update`: replaces the text and the version. */
    method Update(content: string, version: i32)
      modifies this
      ensures this.content == content && this.version == version
      ensures uri == old(uri) && languageId == old(languageId)
    {
      this.content := content;
      this.version := version;
    }

    /** `get_line`: the line with its terminator, or None past the last line. */
    function GetLine(line: nat): (r: Option<string>)
      reads this
      ensures r.Some? <==> line < LineCount(content)
      ensures r.Some? ==> r.value == Lines(content)[line]
    {
      if line < LineCount(content) then
        Some(Lines(content)[line])
      else None
    }

    /** `get_position_offset`. */
    method GetPositionOffset(p: Position) returns (r: Option<nat>)
      ensures r == PositionOffset(content, p)
    {
      if p.line >= LineCount(content) {
        return None;
      }
      var lineStart := LineStart(content, p.line);
      var line := Lines(content)[p.line];
      var utf16Pos, bytePos := 0, 0;
      var i := 0;
      while i < |line|
        invariant i <= |line|
        invariant utf16Pos == Utf16Length(line[..i]) && bytePos == ByteLen(line[..i])
        invariant Utf16Walk(line, p.character, i) == Utf16Walk(line, p.character, 0)
        decreases |line| - i
      {
        if utf16Pos >= p.character {
          break;
        }
        PrefixStep(line, i);
        utf16Pos := utf16Pos + Utf16Len(line[i]);
        bytePos := bytePos + Utf8Len(line[i]);
        i := i + 1;
      }
      return Some(lineStart + bytePos);
    }

    /** `offset_to_position`; `char_to_line` panics on an offset past the end. */
    method OffsetToPosition(offset: nat) returns (p: Position)
      requires offset <= |content|
      ensures p == OffsetPosition(content, offset)
    {
      var l := CharToLine(content, offset);
      var column := offset - LineStart(content, l);
      var line := Lines(content)[l];
      var utf16Col, byteCount := 0, 0;
      var i := 0;
      while i < |line|
        invariant i <= |line|
        invariant utf16Col == Utf16Length(line[..i]) && byteCount == ByteLen(line[..i])
        invariant ByteWalk(line, column, i) == ByteWalk(line, column, 0)
        decreases |line| - i
      {
        if byteCount >= column {
          break;
        }
        PrefixStep(line, i);
        byteCount := byteCount + Utf8Len(line[i]);
        utf16Col := utf16Col + Utf16Len(line[i]);
        i := i + 1;
      }
      return Position(TruncU32(l), TruncU32(utf16Col));
    }

    /** `apply_text_edit`; requires that the edit does not panic. */
    method ApplyTextEdit(edit: TextEdit)
      requires ApplyEdit(content, edit).Some?
      modifies this
      ensures content == ApplyEdit(old(content), edit).value
      ensures uri == old(uri) && languageId == old(languageId) && version == old(version)
    {
      var s := GetPositionOffset(edit.range.start);
      var e := GetPositionOffset(edit.range.end);
      if s.Some? && e.Some? {
        content := content[..s.value] + content[e.value..];
        content := content[..s.value] + edit.newText + content[s.value..];
      }
    }

    /** `apply_text_edits`: applies the edits from the last start to the first,
        bumps the version by one (wrapping) and returns the new text; requires
        that no edit panics. */
    method ApplyTextEdits(edits: seq<TextEdit>) returns (r: string)
      requires ApplyAll(content, SortEdits(edits)).Some?
      modifies this
      ensures content == ApplyAll(old(content), SortEdits(edits)).value
      ensures version == IncI32(old(version))
      ensures r == content
      ensures uri == old(uri) && languageId == old(languageId)
    {
      var sorted := SortEdits(edits);
      ApplyInOrder(sorted);
      version := IncI32(version);
      r := content;
    }

    /** The loop of `apply_text_edits`: each edit in turn, through `apply_text_edit`. */
    method ApplyInOrder(edits: seq<TextEdit>)
      requires ApplyAll(content, edits).Some?
      modifies this
      ensures content == ApplyAll(old(content), edits).value
      ensures uri == old(uri) && languageId == old(languageId) && version == old(version)
    {
      var rest := edits;
      while rest != []
        invariant ApplyAll(content, rest) == ApplyAll(old(content), edits)
        invariant uri == old(uri) && languageId == old(languageId) && version == old(version)
        decreases |rest|
      {
        ghost var before := content;
        ApplyAllFirst(before, rest);
        ApplyTextEdit(rest[0]);
        ApplyAllRest(before, rest, content);
        rest := rest[1..];
      }
    }


    /** `get_word_at_position`. */
    method GetWordAtPosition(p: Position, alnum: char -> bool) returns (r: Option<string>)
      ensures r == WordAt(content, p, alnum)
    {
      var lineOpt := GetLine(p.line);
      if lineOpt.None? {
        return None;
      }
      var chars := lineOpt.value;
      if p.character >= |chars| {
        return None;
      }
      var start: nat := p.character;
      while start > 0 && IsWordChar(alnum, chars[start - 1])
        invariant start <= p.character
        invariant RunStart(chars, start, alnum) == RunStart(chars, p.character, alnum)
      {
        start := start - 1;
      }
      var end := p.character;
      while end < |chars| && IsWordChar(alnum, chars[end])
        invariant p.character <= end <= |chars|
        invariant RunEnd(chars, end, alnum) == RunEnd(chars, p.character, alnum)
        decreases |chars| - end
      {
        end := end + 1;
      }
      if start == end {
        return None;
      }
      return Some(chars[start..end]);
    }
  }
}
