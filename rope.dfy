/**
 * The text of a `ropey::Rope` as a sequence of characters, and the line
 * structure ropey (with its default features) lays over it: a line ends
 * after LF, VT, FF, CR, NEL (U+0085), LS (U+2028) or PS (U+2029), and CR LF
 * counts as one break. A text with k breaks has k + 1 lines, the last one
 * possibly empty.
 */
module Rope {
  import opened Unicode

  predicate IsBreak(c: char) {
    var x := c as int;
    (0x0A <= x <= 0x0D) || x == 0x85 || x == 0x2028 || x == 0x2029
  }

  /** The index of the first break at or after `from`, or `|s|`. */
  function BreakIndex(s: string, from: nat): (i: nat)
    requires from <= |s|
    ensures from <= i <= |s|
    ensures i < |s| ==> IsBreak(s[i])
    ensures forall k :: from <= k < i ==> !IsBreak(s[k])
    decreases |s| - from
  {
    if from == |s| || IsBreak(s[from]) then from else BreakIndex(s, from + 1)
  }

  /** The length of the first line of `s`, its terminator included. */
  function FirstLineLength(s: string): (n: nat)
    ensures n <= |s|
    ensures BreakIndex(s, 0) < |s| ==> 0 < n
  {
    var i := BreakIndex(s, 0);
    if i == |s| then |s|
    else if s[i] == '\r' && i + 1 < |s| && s[i + 1] == '\n' then i + 2
    else i + 1
  }

  /** `Rope::lines`: the lines of a text, each with its terminator. */
  function Lines(s: string): (ls: seq<string>)
    ensures |ls| >= 1
    decreases |s|
  {
    if BreakIndex(s, 0) == |s| then [s]
    else
      var n := FirstLineLength(s);
      [s[..n]] + Lines(s[n..])
  }

  /** The lines spell the text. */
  lemma {:induction false} LinesConcat(s: string)
    ensures Concat(Lines(s)) == s
    decreases |s|
  {
    if BreakIndex(s, 0) == |s| {
      SingletonConcat(s);
    } else {
      var n := FirstLineLength(s);
      var head, tail := s[..n], s[n..];
      assert Lines(s) == [head] + Lines(tail);
      LinesConcat(tail);
      ConcatAppend([head], Lines(tail));
      SingletonConcat(head);
      assert head + tail == s;
    }
  }

  /** Every line but the last ends with a break; the last has none. */
  lemma {:induction false} LinesShape(s: string)
    ensures forall i :: 0 <= i < |Lines(s)| - 1 ==>
      Lines(s)[i] != [] && IsBreak(Lines(s)[i][|Lines(s)[i]| - 1])
    ensures BreakIndex(Lines(s)[|Lines(s)| - 1], 0) == |Lines(s)[|Lines(s)| - 1]|
    decreases |s|
  {
    if BreakIndex(s, 0) != |s| {
      var n := FirstLineLength(s);
      LinesShape(s[n..]);
      assert Lines(s) == [s[..n]] + Lines(s[n..]);
    }
  }

  /** `len_lines`. */
  function LineCount(s: string): (n: nat)
    ensures n >= 1
  {
    |Lines(s)|
  }

  /** `line_to_char(i)`: the index of the first character of line `i`;
      `LineCount(s)` is accepted and gives `|s|`. */
  function LineStart(s: string, i: nat): nat
    requires i <= LineCount(s)
  {
    |Concat(Lines(s)[..i])|
  }

  /** Line `i` occupies `s[LineStart(s, i)..LineStart(s, i + 1)]`. */
  lemma LineSlice(s: string, i: nat)
    requires i < LineCount(s)
    ensures LineStart(s, i) + |Lines(s)[i]| == LineStart(s, i + 1) <= |s|
    ensures s[LineStart(s, i)..LineStart(s, i + 1)] == Lines(s)[i]
  {
    var ls := Lines(s);
    var a := Concat(ls[..i]);
    assert ls[..i + 1][..i] == ls[..i];
    assert Concat(ls[..i + 1]) == a + ls[i];
    ConcatAppend(ls[..i + 1], ls[i + 1..]);
    assert ls[..i + 1] + ls[i + 1..] == ls;
    LinesConcat(s);
    assert s == a + ls[i] + Concat(ls[i + 1..]);
    assert s[|a|..|a| + |ls[i]|] == ls[i];
  }

  /** The characters of line `i`, from `line_to_char(i)` to `line_to_char(i + 1)`. */
  function LineRange(s: string, i: nat): (r: (nat, nat))
    requires i < LineCount(s)
    ensures r == (LineStart(s, i), LineStart(s, i + 1))
    ensures r.0 <= r.1 <= |s| && s[r.0..r.1] == Lines(s)[i]
  {
    LineSlice(s, i);
    (LineStart(s, i), LineStart(s, i + 1))
  }

  lemma LineStartBounds(s: string, i: nat)
    requires i <= LineCount(s)
    ensures LineStart(s, i) <= |s|
    ensures LineStart(s, 0) == 0 && LineStart(s, LineCount(s)) == |s|
  {
    LinesConcat(s);
    assert Lines(s)[..LineCount(s)] == Lines(s);
    if i < LineCount(s) {
      LineSlice(s, i);
    }
  }

  lemma {:induction false} LineStartMonotone(s: string, i: nat, j: nat)
    requires i <= j <= LineCount(s)
    ensures LineStart(s, i) <= LineStart(s, j)
    decreases j - i
  {
    if i < j {
      LineStartMonotone(s, i, j - 1);
      LineSlice(s, j - 1);
    }
  }

  /** `char_to_line` by scanning forward from line `l`. */
  function CharToLineFrom(s: string, off: nat, l: nat): (r: nat)
    requires l < LineCount(s) && LineStart(s, l) <= off
    ensures l <= r < LineCount(s) && LineStart(s, r) <= off
    ensures r + 1 < LineCount(s) ==> off < LineStart(s, r + 1)
    decreases LineCount(s) - l
  {
    if l + 1 < LineCount(s) && LineStart(s, l + 1) <= off then CharToLineFrom(s, off, l + 1)
    else l
  }

  /** `char_to_line(off)`: the line holding character `off`; `|s|` lies on the last line. */
  function CharToLine(s: string, off: nat): (l: nat)
    requires off <= |s|
    ensures l < LineCount(s) && LineStart(s, l) <= off
    ensures l + 1 < LineCount(s) ==> off < LineStart(s, l + 1)
  {
    LineStartBounds(s, 0);
    CharToLineFrom(s, off, 0)
  }

  /** The line holding an offset is unique. */
  lemma CharToLineUnique(s: string, off: nat, l: nat)
    requires off <= |s| && l < LineCount(s) && LineStart(s, l) <= off
    requires l + 1 < LineCount(s) ==> off < LineStart(s, l + 1)
    ensures CharToLine(s, off) == l
  {
    var r := CharToLine(s, off);
    if r < l {
      LineStartMonotone(s, r + 1, l);
    } else if r > l {
      LineStartMonotone(s, l + 1, r);
    }
  }

  /** The length of a line's terminator: 2 for CR LF, 1 for another break, 0 for none. */
  function TerminatorLength(line: string): (n: nat)
    ensures n <= |line|
  {
    if |line| >= 2 && line[|line| - 2] == '\r' && line[|line| - 1] == '\n' then 2
    else if |line| >= 1 && IsBreak(line[|line| - 1]) then 1
    else 0
  }

  /** `RopeSlice::len_chars` of a line minus its terminator. */
  function ContentLength(line: string): nat
  {
    |line| - TerminatorLength(line)
  }
}
