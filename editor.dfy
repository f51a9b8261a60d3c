/**
 * The editing buffer (`Editor`): the text, the cursor as a line and a display
 * column, the viewport, the clipboard, the visual selection and the bounded
 * undo history.
 *
 * The rope is a `string` split into lines as `Rope.Lines` does. Where the
 * rope would panic (an index past the end, a line past the last), the method
 * requires that it does not happen.
 */
module EditorCore {
  import opened Wrappers
  import opened Ints
  import opened Unicode
  import opened Rope
  import opened TextWidth

  // ---------------------------------------------------------------------
  // History

  /** `EditorState`: one entry of the undo history. */
  datatype EditorState = EditorState(
    content: string,
    cursorLine: nat,
    cursorCol: nat,
    visualStartLine: Option<nat>,
    visualStartCol: Option<nat>)

  /** The largest number of entries the history keeps. */
  const HistoryLimit: nat := 100

  /** The history and the index of its current entry. */
  datatype History = History(entries: seq<EditorState>, index: nat)

  predicate ValidHistory(h: History) {
    1 <= |h.entries| <= HistoryLimit && h.index < |h.entries|
  }

  /** `save_state` on the history: when the content differs from the current
      entry, the entries after the current one are dropped, the state is
      appended and becomes current, and past the limit the oldest entry goes. */
  function Record(h: History, s: EditorState): (r: History)
    requires ValidHistory(h)
    ensures ValidHistory(r)
    ensures r.entries[r.index].content == s.content
    ensures h.entries[h.index].content == s.content ==> r == h
    ensures h.entries[h.index].content != s.content ==>
      r.index == |r.entries| - 1 && r.entries[r.index] == s
  {
    if h.entries[h.index].content == s.content then h
    else
      var kept := h.entries[..h.index + 1] + [s];
      if |kept| > HistoryLimit then History(kept[1..], h.index) else History(kept, h.index + 1)
  }

  /** The entries before the new one are those up to the old current entry,
      less the oldest when the limit is reached. */
  lemma RecordKeepsUndoChain(h: History, s: EditorState)
    requires ValidHistory(h) && h.entries[h.index].content != s.content
    ensures var r := Record(h, s);
      r.entries[..r.index] ==
        (if h.index + 2 > HistoryLimit then h.entries[1..h.index + 1] else h.entries[..h.index + 1])
  {
  }

  /** `undo` on the history. */
  function UndoHistory(h: History): (r: History)
    requires ValidHistory(h)
    ensures ValidHistory(r) && r.entries == h.entries
  {
    if h.index > 0 then h.(index := h.index - 1) else h
  }

  /** `redo` on the history. */
  function RedoHistory(h: History): (r: History)
    requires ValidHistory(h)
    ensures ValidHistory(r) && r.entries == h.entries
  {
    if h.index + 1 < |h.entries| then h.(index := h.index + 1) else h
  }

  /** A redo returns to the entry an undo left. */
  lemma RedoAfterUndo(h: History)
    requires ValidHistory(h) && h.index > 0
    ensures RedoHistory(UndoHistory(h)) == h
  {
  }

  lemma UndoAfterRedo(h: History)
    requires ValidHistory(h) && h.index + 1 < |h.entries|
    ensures UndoHistory(RedoHistory(h)) == h
  {
  }

  /** After a recorded change there is nothing to redo, and an undo returns to
      the entry that was current before it. */
  lemma UndoAfterRecord(h: History, s: EditorState)
    requires ValidHistory(h) && h.entries[h.index].content != s.content
    ensures RedoHistory(Record(h, s)) == Record(h, s)
    ensures var u := UndoHistory(Record(h, s)); u.entries[u.index] == h.entries[h.index]
  {
  }

  // ---------------------------------------------------------------------
  // Cursor and viewport

  /** The cursor and the first line shown. */
  datatype Cursor = Cursor(line: nat, col: nat, offset: nat)

  /** `adjust_viewport`: scroll the least that brings `line` into view.
      With a height of 0 the subtraction `height - 1` wraps, and the offset
      becomes 0. */
  function AdjustedOffset(line: nat, offset: nat, height: nat): (r: nat)
    ensures height >= 1 ==> r <= line < r + height
    ensures offset <= line < offset + height ==> r == offset
    ensures line < offset ==> r == line
    ensures line >= offset + height && height >= 1 ==> r + height == line + 1
  {
    if line < offset then line
    else if line >= offset + height then (if height == 0 then 0 else SaturatingSub(line, height - 1))
    else offset
  }

  lemma AdjustedOffsetIdempotent(line: nat, offset: nat, height: nat)
    requires height >= 1
    ensures AdjustedOffset(line, AdjustedOffset(line, offset, height), height) == AdjustedOffset(line, offset, height)
  {
  }

  /** The largest column `set_cursor_position` and the horizontal moves allow
      on line `l`: its character count, terminator included, less one. */
  function LastCol(text: string, l: nat): nat
    requires l < LineCount(text)
  {
    SaturatingSub(|Lines(text)[l]|, 1)
  }

  /** `set_cursor_position` before the viewport is adjusted. */
  function Clamped(text: string, line: nat, col: nat): (r: (nat, nat))
    ensures r.0 < LineCount(text) && r.0 <= line && r.1 <= col
    ensures r.1 <= LastCol(text, r.0)
    ensures line < LineCount(text) ==> r.0 == line
    ensures col <= LastCol(text, r.0) ==> r.1 == col
  {
    var l := Min(line, LineCount(text) - 1);
    (l, Min(col, LastCol(text, l)))
  }

  /** `adjust_cursor_col`: the column is capped at the display width of the line. */
  function AdjustCol(t: Tables, text: string, l: nat, col: nat): nat
  {
    if l < LineCount(text) then Min(col, StrWidth(t, DefaultCalculator, Lines(text)[l])) else col
  }

  /** The adjusted column lies within the line's width, and a column that
      already does is kept. */
  lemma AdjustColCaps(t: Tables, text: string, l: nat, col: nat)
    requires l < LineCount(text)
    ensures AdjustCol(t, text, l, col) <= col && AdjustCol(t, text, l, col) <= StrWidth(t, DefaultCalculator, Lines(text)[l])
    ensures col <= StrWidth(t, DefaultCalculator, Lines(text)[l]) ==> AdjustCol(t, text, l, col) == col
  {
  }

  function MoveUp(t: Tables, text: string, c: Cursor, height: nat): Cursor
  {
    if c.line > 0 then
      var l := c.line - 1;
      Cursor(l, AdjustCol(t, text, l, c.col), AdjustedOffset(l, c.offset, height))
    else c
  }

  function MoveDown(t: Tables, text: string, c: Cursor, height: nat): Cursor
  {
    if c.line + 1 < LineCount(text) then
      var l := c.line + 1;
      Cursor(l, AdjustCol(t, text, l, c.col), AdjustedOffset(l, c.offset, height))
    else c
  }

  function MoveLeft(text: string, c: Cursor, height: nat): Cursor
  {
    if c.col > 0 then c.(col := c.col - 1)
    else if c.line > 0 then
      var l := c.line - 1;
      Cursor(l, if l < LineCount(text) then LastCol(text, l) else c.col, AdjustedOffset(l, c.offset, height))
    else c
  }

  function MoveRight(text: string, c: Cursor, height: nat): Cursor
  {
    if c.line < LineCount(text) then
      if c.col < LastCol(text, c.line) then c.(col := c.col + 1)
      else if c.line + 1 < LineCount(text) then Cursor(c.line + 1, 0, AdjustedOffset(c.line + 1, c.offset, height))
      else c
    else c
  }

  function PageUp(t: Tables, text: string, c: Cursor, height: nat): Cursor
  {
    var l := SaturatingSub(c.line, height);
    Cursor(l, AdjustCol(t, text, l, c.col), SaturatingSub(c.offset, height))
  }

  function PageDown(t: Tables, text: string, c: Cursor, height: nat): Cursor
  {
    var maxLine := LineCount(text) - 1;
    var l := Min(c.line + height, maxLine);
    Cursor(l, AdjustCol(t, text, l, c.col), Min(c.offset + height, SaturatingSub(maxLine, height)))
  }

  /** (line, col) order. */
  predicate NotAfter(a: Cursor, b: Cursor) {
    a.line < b.line || (a.line == b.line && a.col <= b.col)
  }

  /** A cursor on a line of the text stays on one after any move. */
  lemma MovesStayInText(t: Tables, text: string, c: Cursor, height: nat)
    requires c.line < LineCount(text)
    ensures MoveUp(t, text, c, height).line < LineCount(text)
    ensures MoveDown(t, text, c, height).line < LineCount(text)
    ensures MoveLeft(text, c, height).line < LineCount(text)
    ensures MoveRight(text, c, height).line < LineCount(text)
    ensures PageUp(t, text, c, height).line < LineCount(text)
    ensures PageDown(t, text, c, height).line < LineCount(text)
  {
  }

  /** Left never moves forward and right never moves back; each moves
      unless the cursor is at the start, or the end, of the text. */
  lemma HorizontalMovesOrdered(text: string, c: Cursor, height: nat)
    requires c.line < LineCount(text) && c.col <= LastCol(text, c.line)
    ensures NotAfter(MoveLeft(text, c, height), c)
    ensures NotAfter(c, MoveRight(text, c, height))
    ensures MoveLeft(text, c, height) == c <==> c.line == 0 && c.col == 0
    ensures MoveRight(text, c, height) == c <==> c.line + 1 == LineCount(text) && c.col == LastCol(text, c.line)
  {
  }

  /** A move that changes line brings that line into view. */
  lemma LineChangeScrollsIntoView(t: Tables, text: string, c: Cursor, height: nat)
    requires height >= 1
    ensures var u := MoveUp(t, text, c, height); u.line != c.line ==> u.offset <= u.line < u.offset + height
    ensures var d := MoveDown(t, text, c, height); d.line != c.line ==> d.offset <= d.line < d.offset + height
    ensures var l := MoveLeft(text, c, height); l.line != c.line ==> l.offset <= l.line < l.offset + height
    ensures var r := MoveRight(text, c, height); r.line != c.line ==> r.offset <= r.line < r.offset + height
  {
  }

  // ---------------------------------------------------------------------
  // Line and column to character index

  /** `line_col_to_char_idx`: the start of the line plus the BYTE index that
      `col_to_char_index` finds for the display column in the line. */
  function LineColIndex(t: Tables, text: string, line: nat, col: nat): nat
    requires line <= LineCount(text)
  {
    if line < LineCount(text) then LineStart(text, line) + ColByteIndex(t, DefaultCalculator, Lines(text)[line], col)
    else LineStart(text, line) + col
  }

  /** The index lies within the line's bytes counted from its start; on an
      ASCII line, whose bytes are its characters, it lies within the line. */
  lemma LineColIndexBounds(t: Tables, text: string, line: nat, col: nat)
    requires line < LineCount(text)
    ensures LineStart(text, line) <= LineColIndex(t, text, line, col) <= LineStart(text, line) + ByteLen(Lines(text)[line])
    ensures AllAscii(Lines(text)[line]) ==> LineColIndex(t, text, line, col) <= LineStart(text, line + 1)
  {
    if AllAscii(Lines(text)[line]) {
      AsciiLengths(Lines(text)[line]);
      LineSlice(text, line);
    }
  }

  /** The text between two indices of a line, put back where it was cut out,
      restores the text. */
  lemma CutRestores(s: string, i: nat, j: nat)
    requires i <= j <= |s|
    ensures var cut := s[..i] + s[j..]; cut[..i] + s[i..j] + cut[i..] == s
  {
    var cut := s[..i] + s[j..];
    assert cut[..i] == s[..i] && cut[i..] == s[j..];
  }

  // ---------------------------------------------------------------------
  // Visual selection

  /** `get_visual_selection` from the anchor and the cursor. */
  function Selection(startLine: Option<nat>, startCol: Option<nat>, line: nat, col: nat): (r: Option<(nat, nat, nat, nat)>)
    ensures r.Some? <==> startLine.Some? && startCol.Some?
    ensures r.Some? ==> r.value.0 < r.value.2 || (r.value.0 == r.value.2 && r.value.1 <= r.value.3)
    ensures r.Some? ==>
      ((r.value.0, r.value.1) == (startLine.value, startCol.value) && (r.value.2, r.value.3) == (line, col)) ||
      ((r.value.0, r.value.1) == (line, col) && (r.value.2, r.value.3) == (startLine.value, startCol.value))
  {
    if startLine.Some? && startCol.Some? then
      var (sl, sc) := (startLine.value, startCol.value);
      if sl < line || (sl == line && sc <= col) then Some((sl, sc, line, col)) else Some((line, col, sl, sc))
    else None
  }

  // ---------------------------------------------------------------------
  // Viewport lines

  /** The lines `get_viewport_lines` returns. */
  function ViewportLines(text: string, offset: nat, height: nat): (r: seq<string>)
    ensures |r| == SaturatingSub(Min(offset + height, LineCount(text)), offset)
    ensures forall i :: 0 <= i < |r| ==> r[i] == Lines(text)[offset + i]
  {
    var e := Min(offset + height, LineCount(text));
    if offset < e then Lines(text)[offset..e] else []
  }

  class Editor {
    /** The Unicode data of the width calculator. */
    const tables: Tables
    var text: string
    var cursorLine: nat
    var cursorCol: nat
    var viewportOffset: nat
    var viewportHeight: nat
    var modified: bool
    var clipboard: string
    var history: seq<EditorState>
    var historyIndex: nat
    var visualStartLine: Option<nat>
    var visualStartCol: Option<nat>
    var tabSize: nat
    var useSpaces: bool

    function GetHistory(): History
      reads this
    {
      History(history, historyIndex)
    }

    function CurrentState(): EditorState
      reads this
    {
      EditorState(text, cursorLine, cursorCol, visualStartLine, visualStartCol)
    }

    function GetCursor(): Cursor
      reads this
    {
      Cursor(cursorLine, cursorCol, viewportOffset)
    }

    /** The history is bounded and the text is its current entry. */
    predicate Valid()
      reads this
    {
      ValidHistory(GetHistory()) && history[historyIndex].content == text
    }

    /** Nothing but the cursor and the viewport offset has changed. */
    twostate predicate OnlyCursorChanged()
      reads this
    {
      text == old(text) && modified == old(modified)
      && clipboard == old(clipboard) && history == old(history) && historyIndex == old(historyIndex)
      && visualStartLine == old(visualStartLine) && visualStartCol == old(visualStartCol)
      && SettingsKept()
    }

    /** The viewport height and the indentation settings are as they were: no
        edit changes them. */
    twostate predicate SettingsKept()
      reads this
    {
      viewportHeight == old(viewportHeight) && tabSize == old(tabSize) && useSpaces == old(useSpaces)
    }

    /** `Editor::new`: an empty text, one history entry, the cursor at the start. */
    constructor(tables: Tables)
      ensures Valid()
      ensures this.tables == tables && text == [] && cursorLine == 0 && cursorCol == 0
      ensures viewportOffset == 0 && viewportHeight == 24 && !modified && clipboard == []
      ensures history == [EditorState([], 0, 0, None, None)] && historyIndex == 0
      ensures visualStartLine == None && visualStartCol == None
      ensures tabSize == 4 && useSpaces
    {
      this.tables := tables;
      text := [];
      cursorLine, cursorCol := 0, 0;
      viewportOffset, viewportHeight := 0, 24;
      modified := false;
      clipboard := [];
      history := [EditorState([], 0, 0, None, None)];
      historyIndex := 0;
      visualStartLine, visualStartCol := None, None;
      tabSize, useSpaces := 4, true;
    }

    /** `set_content`: the text is replaced and the history restarts from it. */
    method SetContent(content: string)
      modifies this
      ensures Valid()
      ensures text == content && cursorLine == 0 && cursorCol == 0 && viewportOffset == 0 && !modified
      ensures visualStartLine == None && visualStartCol == None
      ensures history == [EditorState(content, 0, 0, None, None)] && historyIndex == 0
      ensures viewportHeight == old(viewportHeight) && clipboard == old(clipboard)
      ensures tabSize == old(tabSize) && useSpaces == old(useSpaces)
    {
      text := content;
      cursorLine, cursorCol := 0, 0;
      viewportOffset := 0;
      modified := false;
      visualStartLine, visualStartCol := None, None;
      history := [EditorState(content, 0, 0, None, None)];
      historyIndex := 0;
    }

    method MarkSaved()
      modifies this`modified
      ensures !modified
    {
      modified := false;
    }

    method SetViewportHeight(height: nat)
      modifies this`viewportHeight
      ensures viewportHeight == height
    {
      viewportHeight := height;
    }

    /** `set_viewport_offset`: the offset is capped so that the viewport does
        not start later than a full screen before the end. */
    method SetViewportOffset(offset: nat)
      modifies this`viewportOffset
      ensures viewportOffset <= offset && viewportOffset <= SaturatingSub(LineCount(text), viewportHeight)
      ensures offset + viewportHeight <= LineCount(text) ==> viewportOffset == offset
    {
      viewportOffset := Min(offset, SaturatingSub(LineCount(text), viewportHeight));
    }

    /** `get_viewport_lines`. */
    method GetViewportLines() returns (lines: seq<string>)
      ensures lines == ViewportLines(text, viewportOffset, viewportHeight)
    {
      lines := [];
      var endLine := Min(viewportOffset + viewportHeight, LineCount(text));
      var i := viewportOffset;
      while i < endLine
        invariant viewportOffset <= i <= endLine || (i == viewportOffset && lines == [])
        invariant i <= endLine ==> lines == Lines(text)[viewportOffset..i]
      {
        lines := lines + [Lines(text)[i]];
        i := i + 1;
      }
    }

    method AdjustViewport()
      modifies this`viewportOffset
      ensures viewportOffset == AdjustedOffset(cursorLine, old(viewportOffset), viewportHeight)
    {
      if cursorLine < viewportOffset {
        viewportOffset := cursorLine;
      } else if cursorLine >= viewportOffset + viewportHeight {
        viewportOffset := if viewportHeight == 0 then 0 else SaturatingSub(cursorLine, viewportHeight - 1);
      }
    }

    method AdjustCursorCol()
      modifies this`cursorCol
      ensures cursorCol == AdjustCol(tables, text, cursorLine, old(cursorCol))
    {
      if cursorLine < LineCount(text) {
        cursorCol := Min(cursorCol, StrWidth(tables, DefaultCalculator, Lines(text)[cursorLine]));
      }
    }

    /** `set_cursor_position`: clamp to the text, then scroll to the cursor. */
    method SetCursorPosition(line: nat, col: nat)
      modifies this
      ensures (cursorLine, cursorCol) == Clamped(text, line, col)
      ensures viewportOffset == AdjustedOffset(cursorLine, old(viewportOffset), viewportHeight)
      ensures OnlyCursorChanged()
    {
      cursorLine := Min(line, LineCount(text) - 1);
      cursorCol := Min(col, LastCol(text, cursorLine));
      AdjustViewport();
    }

    method MoveCursorUp()
      modifies this
      ensures GetCursor() == MoveUp(tables, text, old(GetCursor()), viewportHeight)
      ensures OnlyCursorChanged()
    {
      if cursorLine > 0 {
        cursorLine := cursorLine - 1;
        AdjustCursorCol();
        AdjustViewport();
      }
    }

    method MoveCursorDown()
      modifies this
      ensures GetCursor() == MoveDown(tables, text, old(GetCursor()), viewportHeight)
      ensures OnlyCursorChanged()
    {
      if cursorLine + 1 < LineCount(text) {
        cursorLine := cursorLine + 1;
        AdjustCursorCol();
        AdjustViewport();
      }
    }

    method MoveCursorLeft()
      modifies this
      ensures GetCursor() == MoveLeft(text, old(GetCursor()), viewportHeight)
      ensures OnlyCursorChanged()
    {
      if cursorCol > 0 {
        cursorCol := cursorCol - 1;
      } else if cursorLine > 0 {
        cursorLine := cursorLine - 1;
        if cursorLine < LineCount(text) {
          cursorCol := LastCol(text, cursorLine);
        }
        AdjustViewport();
      }
    }

    method MoveCursorRight()
      modifies this
      ensures GetCursor() == MoveRight(text, old(GetCursor()), viewportHeight)
      ensures OnlyCursorChanged()
    {
      if cursorLine < LineCount(text) {
        var lineLen := LastCol(text, cursorLine);
        if cursorCol < lineLen {
          cursorCol := cursorCol + 1;
        } else if cursorLine + 1 < LineCount(text) {
          cursorLine := cursorLine + 1;
          cursorCol := 0;
          AdjustViewport();
        }
      }
    }

    method MoveToLineStart()
      modifies this
      ensures GetCursor() == old(GetCursor()).(col := 0)
      ensures OnlyCursorChanged()
    {
      cursorCol := 0;
    }

    method MoveToLineEnd()
      modifies this
      ensures cursorLine < LineCount(text) ==> GetCursor() == old(GetCursor()).(col := LastCol(text, cursorLine))
      ensures cursorLine >= LineCount(text) ==> GetCursor() == old(GetCursor())
      ensures OnlyCursorChanged()
    {
      if cursorLine < LineCount(text) {
        cursorCol := LastCol(text, cursorLine);
      }
    }

    method PageUpMove()
      modifies this
      ensures GetCursor() == PageUp(tables, text, old(GetCursor()), viewportHeight)
      ensures OnlyCursorChanged()
    {
      cursorLine := SaturatingSub(cursorLine, viewportHeight);
      viewportOffset := SaturatingSub(viewportOffset, viewportHeight);
      AdjustCursorCol();
    }

    method PageDownMove()
      modifies this
      ensures GetCursor() == PageDown(tables, text, old(GetCursor()), viewportHeight)
      ensures OnlyCursorChanged()
    {
      var maxLine := LineCount(text) - 1;
      cursorLine := Min(cursorLine + viewportHeight, maxLine);
      viewportOffset := Min(viewportOffset + viewportHeight, SaturatingSub(maxLine, viewportHeight));
      AdjustCursorCol();
    }

    /** `line_col_to_char_idx`; `line_to_char` panics past the last line. */
    method LineColToCharIdx(line: nat, col: nat) returns (r: nat)
      requires line <= LineCount(text)
      ensures r == LineColIndex(tables, text, line, col)
    {
      var lineStart := LineStart(text, line);
      if line < LineCount(text) {
        var offset := ColToCharIndex(tables, DefaultCalculator, Lines(text)[line], col);
        r := lineStart + offset;
      } else {
        r := lineStart + col;
      }
    }

    /** `save_state`. */
    method SaveState()
      requires ValidHistory(GetHistory())
      modifies this
      ensures Valid()
      ensures GetHistory() == Record(old(GetHistory()), old(CurrentState()))
      ensures text == old(text) && cursorLine == old(cursorLine) && cursorCol == old(cursorCol)
      ensures visualStartLine == old(visualStartLine) && visualStartCol == old(visualStartCol)
      ensures viewportOffset == old(viewportOffset) && viewportHeight == old(viewportHeight)
      ensures modified == old(modified) && clipboard == old(clipboard)
      ensures tabSize == old(tabSize) && useSpaces == old(useSpaces)
    {
      var current := EditorState(text, cursorLine, cursorCol, visualStartLine, visualStartCol);
      if history[historyIndex].content == current.content {
        return;
      }
      history := history[..historyIndex + 1] + [current];
      historyIndex := historyIndex + 1;
      if |history| > HistoryLimit {
        history := history[1..];
        historyIndex := historyIndex - 1;
      }
    }

    /** `undo`: step back one entry and restore its text and cursor. */
    method Undo() returns (r: bool)
      requires Valid()
      modifies this
      ensures Valid()
      ensures r <==> old(historyIndex) > 0
      ensures GetHistory() == UndoHistory(old(GetHistory()))
      ensures r ==> cursorLine == history[historyIndex].cursorLine && cursorCol == history[historyIndex].cursorCol
      ensures r ==> viewportOffset == AdjustedOffset(cursorLine, old(viewportOffset), viewportHeight) && modified
      ensures !r ==> cursorLine == old(cursorLine) && cursorCol == old(cursorCol)
      ensures !r ==> viewportOffset == old(viewportOffset) && modified == old(modified)
      ensures viewportHeight == old(viewportHeight) && clipboard == old(clipboard)
      ensures visualStartLine == old(visualStartLine) && visualStartCol == old(visualStartCol)
      ensures tabSize == old(tabSize) && useSpaces == old(useSpaces)
    {
      if historyIndex > 0 {
        historyIndex := historyIndex - 1;
        var state := history[historyIndex];
        text := state.content;
        cursorLine, cursorCol := state.cursorLine, state.cursorCol;
        AdjustViewport();
        modified := true;
        r := true;
      } else {
        r := false;
      }
    }

    /** `redo`: step forward one entry and restore its text and cursor. */
    method Redo() returns (r: bool)
      requires Valid()
      modifies this
      ensures Valid()
      ensures r <==> old(historyIndex) + 1 < |old(history)|
      ensures GetHistory() == RedoHistory(old(GetHistory()))
      ensures r ==> cursorLine == history[historyIndex].cursorLine && cursorCol == history[historyIndex].cursorCol
      ensures r ==> viewportOffset == AdjustedOffset(cursorLine, old(viewportOffset), viewportHeight) && modified
      ensures !r ==> cursorLine == old(cursorLine) && cursorCol == old(cursorCol)
      ensures !r ==> viewportOffset == old(viewportOffset) && modified == old(modified)
      ensures viewportHeight == old(viewportHeight) && clipboard == old(clipboard)
      ensures visualStartLine == old(visualStartLine) && visualStartCol == old(visualStartCol)
      ensures tabSize == old(tabSize) && useSpaces == old(useSpaces)
    {
      if historyIndex + 1 < |history| {
        historyIndex := historyIndex + 1;
        var state := history[historyIndex];
        text := state.content;
        cursorLine, cursorCol := state.cursorLine, state.cursorCol;
        AdjustViewport();
        modified := true;
        r := true;
      } else {
        r := false;
      }
    }

    /** `insert_char`: insert at the cursor's index and advance the column by
        the character's width. */
    method InsertChar(c: char)
      requires Valid() && cursorLine <= LineCount(text)
      requires LineColIndex(tables, text, cursorLine, cursorCol) <= |text|
      modifies this
      ensures SettingsKept()
      ensures Valid()
      ensures var idx := LineColIndex(tables, old(text), old(cursorLine), old(cursorCol));
        text == old(text)[..idx] + [c] + old(text)[idx..]
      ensures cursorLine == old(cursorLine) && cursorCol == old(cursorCol) + GraphemeWidth(tables, DefaultCalculator, [c])
      ensures modified && viewportOffset == old(viewportOffset) && clipboard == old(clipboard)
      ensures visualStartLine == old(visualStartLine) && visualStartCol == old(visualStartCol)
      ensures GetHistory() == Record(old(GetHistory()), CurrentState())
    {
      var idx := LineColToCharIdx(cursorLine, cursorCol);
      text := text[..idx] + [c] + text[idx..];
      cursorCol := cursorCol + GraphemeWidth(tables, DefaultCalculator, [c]);
      modified := true;
      SaveState();
    }

    /** `insert_newline`: insert a line feed and move to the start of the next line. */
    method InsertNewline()
      requires Valid() && cursorLine <= LineCount(text)
      requires LineColIndex(tables, text, cursorLine, cursorCol) <= |text|
      modifies this
      ensures SettingsKept()
      ensures Valid()
      ensures var idx := LineColIndex(tables, old(text), old(cursorLine), old(cursorCol));
        text == old(text)[..idx] + "\n" + old(text)[idx..]
      ensures cursorLine == old(cursorLine) + 1 && cursorCol == 0
      ensures viewportOffset == AdjustedOffset(cursorLine, old(viewportOffset), viewportHeight)
      ensures modified && clipboard == old(clipboard)
      ensures visualStartLine == old(visualStartLine) && visualStartCol == old(visualStartCol)
      ensures GetHistory() == Record(old(GetHistory()), CurrentState())
    {
      var idx := LineColToCharIdx(cursorLine, cursorCol);
      text := text[..idx] + "\n" + text[idx..];
      cursorLine := cursorLine + 1;
      cursorCol := 0;
      modified := true;
      AdjustViewport();
      SaveState();
    }

    /** `delete_char_forward`: remove the character at the cursor's index, if any. */
    method DeleteCharForward()
      requires Valid() && cursorLine <= LineCount(text)
      modifies this
      ensures SettingsKept()
      ensures Valid()
      ensures var idx := LineColIndex(tables, old(text), old(cursorLine), old(cursorCol));
        if idx < |old(text)| then
          text == old(text)[..idx] + old(text)[idx + 1..] && modified
          && GetHistory() == Record(old(GetHistory()), CurrentState())
        else
          (text == old(text) && modified == old(modified) && GetHistory() == old(GetHistory()))
      ensures GetCursor() == old(GetCursor()) && clipboard == old(clipboard)
      ensures visualStartLine == old(visualStartLine) && visualStartCol == old(visualStartCol)
    {
      var idx := LineColToCharIdx(cursorLine, cursorCol);
      if idx < |text| {
        text := text[..idx] + text[idx + 1..];
        modified := true;
        SaveState();
      }
    }

    /** `delete_char_backward`: within a line, step the column back and remove
        the character there; at the start of a line, join it to the previous one
        by removing the character before the line. */
    method DeleteCharBackward()
      requires Valid() && cursorLine <= LineCount(text)
      requires cursorCol > 0 ==> LineColIndex(tables, text, cursorLine, cursorCol - 1) < |text|
      requires cursorCol == 0 && cursorLine > 0 ==> 1 <= LineColIndex(tables, text, cursorLine, 0) <= |text|
      modifies this
      ensures SettingsKept()
      ensures Valid()
      ensures old(cursorCol) > 0 ==>
        var idx := LineColIndex(tables, old(text), old(cursorLine), old(cursorCol) - 1);
        text == old(text)[..idx] + old(text)[idx + 1..] && GetCursor() == old(GetCursor()).(col := old(cursorCol) - 1)
      ensures old(cursorCol) == 0 && old(cursorLine) > 0 ==>
        var idx := LineColIndex(tables, old(text), old(cursorLine), 0) - 1;
        var l := old(cursorLine) - 1;
        text == old(text)[..idx] + old(text)[idx + 1..] && cursorLine == l
        && cursorCol == (if l < LineCount(old(text)) then LastCol(old(text), l) else 0)
        && viewportOffset == AdjustedOffset(l, old(viewportOffset), viewportHeight)
      ensures old(cursorCol) > 0 || old(cursorLine) > 0 ==>
        modified && GetHistory() == Record(old(GetHistory()), CurrentState())
      ensures old(cursorCol) == 0 && old(cursorLine) == 0 ==>
        text == old(text) && GetCursor() == old(GetCursor()) && modified == old(modified) && GetHistory() == old(GetHistory())
      ensures clipboard == old(clipboard)
      ensures visualStartLine == old(visualStartLine) && visualStartCol == old(visualStartCol)
    {
      if cursorCol > 0 {
        DeleteBeforeInLine();
      } else if cursorLine > 0 {
        JoinWithPreviousLine();
      }
    }

    /** The first branch of `delete_char_backward`. */
    method DeleteBeforeInLine()
      requires Valid() && cursorLine <= LineCount(text) && cursorCol > 0
      requires LineColIndex(tables, text, cursorLine, cursorCol - 1) < |text|
      modifies this
      ensures SettingsKept()
      ensures Valid()
      ensures var idx := LineColIndex(tables, old(text), old(cursorLine), old(cursorCol) - 1);
        text == old(text)[..idx] + old(text)[idx + 1..] && GetCursor() == old(GetCursor()).(col := old(cursorCol) - 1)
      ensures modified && GetHistory() == Record(old(GetHistory()), CurrentState())
      ensures clipboard == old(clipboard)
      ensures visualStartLine == old(visualStartLine) && visualStartCol == old(visualStartCol)
    {
      ghost var before, want := text, LineColIndex(tables, text, cursorLine, cursorCol - 1);
      cursorCol := cursorCol - 1;
      var idx := LineColToCharIdx(cursorLine, cursorCol);
      assert idx == want;
      text := text[..idx] + text[idx + 1..];
      ghost var after := text;
      assert after == before[..want] + before[want + 1..];
      modified := true;
      SaveState();
      assert text == after;
    }

    /** The second branch of `delete_char_backward`. */
    method JoinWithPreviousLine()
      requires Valid() && 0 < cursorLine <= LineCount(text)
      requires 1 <= LineColIndex(tables, text, cursorLine, 0) <= |text|
      modifies this
      ensures SettingsKept()
      ensures Valid()
      ensures var idx := LineColIndex(tables, old(text), old(cursorLine), 0) - 1;
        var l := old(cursorLine) - 1;
        text == old(text)[..idx] + old(text)[idx + 1..] && cursorLine == l
        && cursorCol == (if l < LineCount(old(text)) then LastCol(old(text), l) else old(cursorCol))
        && viewportOffset == AdjustedOffset(l, old(viewportOffset), viewportHeight)
      ensures modified && GetHistory() == Record(old(GetHistory()), CurrentState())
      ensures clipboard == old(clipboard)
      ensures visualStartLine == old(visualStartLine) && visualStartCol == old(visualStartCol)
    {
      var next := LineColToCharIdx(cursorLine, 0);
      cursorLine := cursorLine - 1;
      if cursorLine < LineCount(text) {
        cursorCol := LastCol(text, cursorLine);
      }
      var idx := next - 1;
      text := text[..idx] + text[idx + 1..];
      modified := true;
      AdjustViewport();
      SaveState();
    }

    /** `delete_line`: the line under the cursor, terminator included, goes to
        the clipboard and out of the text. */
    method DeleteLine()
      requires Valid()
      modifies this
      ensures SettingsKept()
      ensures Valid()
      ensures old(cursorLine) < LineCount(old(text)) ==>
        var (s, e) := LineRange(old(text), old(cursorLine));
        clipboard == old(text)[s..e] && text == old(text)[..s] + old(text)[e..] && cursorCol == 0 && modified
        && GetHistory() == Record(old(GetHistory()), CurrentState())
      ensures old(cursorLine) >= LineCount(old(text)) ==>
        text == old(text) && clipboard == old(clipboard) && cursorCol == old(cursorCol)
        && modified == old(modified) && GetHistory() == old(GetHistory())
      ensures cursorLine == old(cursorLine) && viewportOffset == old(viewportOffset)
      ensures visualStartLine == old(visualStartLine) && visualStartCol == old(visualStartCol)
    {
      if cursorLine < LineCount(text) {
        ghost var range := LineRange(text, cursorLine);
        clipboard := Lines(text)[cursorLine];
        var startIdx := LineStart(text, cursorLine);
        var endIdx := if cursorLine + 1 < LineCount(text) then LineStart(text, cursorLine + 1) else |text|;
        LineStartBounds(text, cursorLine + 1);
        assert (startIdx, endIdx) == range;
        ghost var before := text;
        text := text[..startIdx] + text[endIdx..];
        ghost var after, line := text, clipboard;
        cursorCol := 0;
        modified := true;
        SaveState();
        assert text == after == before[..range.0] + before[range.1..] && clipboard == line == before[range.0..range.1];
      }
    }

    /** `yank_line`: the line under the cursor goes to the clipboard. */
    method YankLine()
      modifies this`clipboard
      ensures cursorLine < LineCount(text) ==> clipboard == Lines(text)[cursorLine]
      ensures cursorLine >= LineCount(text) ==> clipboard == old(clipboard)
    {
      if cursorLine < LineCount(text) {
        clipboard := Lines(text)[cursorLine];
      }
    }

    /** `paste`: a non-empty clipboard is inserted at the cursor's index. */
    method Paste()
      requires Valid() && cursorLine <= LineCount(text)
      requires clipboard != [] ==> LineColIndex(tables, text, cursorLine, cursorCol) <= |text|
      modifies this
      ensures SettingsKept()
      ensures Valid()
      ensures old(clipboard) != [] ==>
        var idx := LineColIndex(tables, old(text), old(cursorLine), old(cursorCol));
        text == old(text)[..idx] + old(clipboard) + old(text)[idx..] && modified
        && GetHistory() == Record(old(GetHistory()), CurrentState())
      ensures old(clipboard) == [] ==> text == old(text) && modified == old(modified) && GetHistory() == old(GetHistory())
      ensures GetCursor() == old(GetCursor()) && clipboard == old(clipboard)
      ensures visualStartLine == old(visualStartLine) && visualStartCol == old(visualStartCol)
    {
      if clipboard != [] {
        var idx := LineColToCharIdx(cursorLine, cursorCol);
        text := text[..idx] + clipboard + text[idx..];
        modified := true;
        SaveState();
      }
    }

    method StartVisualSelection()
      modifies this`visualStartLine, this`visualStartCol
      ensures visualStartLine == Some(cursorLine) && visualStartCol == Some(cursorCol)
    {
      visualStartLine, visualStartCol := Some(cursorLine), Some(cursorCol);
    }

    method ClearVisualSelection()
      modifies this`visualStartLine, this`visualStartCol
      ensures visualStartLine == None && visualStartCol == None
    {
      visualStartLine, visualStartCol := None, None;
    }

    function GetVisualSelection(): Option<(nat, nat, nat, nat)>
      reads this
    {
      Selection(visualStartLine, visualStartCol, cursorLine, cursorCol)
    }

    /** The selection resolves to indices in order within the text; otherwise
        the rope's slice panics. */
    predicate SelectionInText()
      reads this
    {
      match GetVisualSelection()
      case None => true
      case Some((sl, sc, el, ec)) =>
        sl <= LineCount(text) && el <= LineCount(text)
        && LineColIndex(tables, text, sl, sc) <= LineColIndex(tables, text, el, ec) <= |text|
    }

    /** `get_selected_text`. */
    function SelectedText(): (r: string)
      reads this
      requires SelectionInText()
      ensures GetVisualSelection().None? ==> r == []
      ensures GetVisualSelection().Some? ==>
        var (sl, sc, el, ec) := GetVisualSelection().value;
        |r| == LineColIndex(tables, text, el, ec) - LineColIndex(tables, text, sl, sc)
        && text[LineColIndex(tables, text, sl, sc)..][..|r|] == r
    {
      match GetVisualSelection()
      case None => []
      case Some((sl, sc, el, ec)) => text[LineColIndex(tables, text, sl, sc)..LineColIndex(tables, text, el, ec)]
    }

    /** `yank_selection`. */
    method YankSelection()
      requires SelectionInText()
      modifies this`clipboard
      ensures clipboard == SelectedText()
    {
      clipboard := SelectedText();
    }

    /** `delete_selection`: the selected text goes to the clipboard and out of
        the text, the cursor goes to the selection's start and the selection ends. */
    method DeleteSelection()
      requires Valid() && SelectionInText()
      modifies this
      ensures SettingsKept()
      ensures Valid()
      ensures old(GetVisualSelection()).Some? ==>
        var (sl, sc, el, ec) := old(GetVisualSelection()).value;
        var s := LineColIndex(tables, old(text), sl, sc);
        var e := LineColIndex(tables, old(text), el, ec);
        s <= e <= |old(text)| && clipboard == old(text)[s..e] && text == old(text)[..s] + old(text)[e..]
        && cursorLine == sl && cursorCol == AdjustCol(tables, text, sl, sc)
        && visualStartLine == None && visualStartCol == None && modified
        && GetHistory() == Record(old(GetHistory()), CurrentState())
      ensures old(GetVisualSelection()).None? ==>
        text == old(text) && GetCursor() == old(GetCursor()) && clipboard == old(clipboard)
        && modified == old(modified) && GetHistory() == old(GetHistory())
      ensures viewportOffset == old(viewportOffset)
    {
      var selection := GetVisualSelection();
      if selection.Some? {
        var (sl, sc, el, ec) := selection.value;
        var s := LineColToCharIdx(sl, sc);
        var e := LineColToCharIdx(el, ec);
        CutSelection(sl, sc, s, e);
      }
    }

    /** The rest of `delete_selection` once the selection's indices are known. */
    method CutSelection(sl: nat, sc: nat, s: nat, e: nat)
      requires Valid() && s <= e <= |text|
      modifies this
      ensures SettingsKept()
      ensures Valid()
      ensures clipboard == old(text)[s..e] && text == old(text)[..s] + old(text)[e..]
      ensures cursorLine == sl && cursorCol == AdjustCol(tables, text, sl, sc)
      ensures visualStartLine == None && visualStartCol == None && modified
      ensures GetHistory() == Record(old(GetHistory()), CurrentState())
      ensures viewportOffset == old(viewportOffset)
    {
      clipboard := text[s..e];
      text := text[..s] + text[e..];
      PlaceAfterCut(sl, sc);
    }

    /** The cursor goes to the selection's start, within the line, the
        selection ends and the history records the state. */
    method PlaceAfterCut(sl: nat, sc: nat)
      requires ValidHistory(GetHistory())
      modifies this
      ensures SettingsKept()
      ensures Valid()
      ensures cursorLine == sl && cursorCol == AdjustCol(tables, text, sl, sc)
      ensures visualStartLine == None && visualStartCol == None && modified
      ensures GetHistory() == Record(old(GetHistory()), CurrentState())
      ensures text == old(text) && clipboard == old(clipboard) && viewportOffset == old(viewportOffset)
    {
      cursorLine, cursorCol := sl, sc;
      visualStartLine, visualStartCol := None, None;
      AdjustCursorCol();
      SaveState();
      modified := true;
    }

    /** `replace_char`: the character at the cursor's index is replaced and the
        cursor moves right. */
    method ReplaceChar(c: char)
      requires Valid() && cursorLine <= LineCount(text)
      modifies this
      ensures SettingsKept()
      ensures Valid()
      ensures var idx := LineColIndex(tables, old(text), old(cursorLine), old(cursorCol));
        if idx < |old(text)| then
          text == old(text)[idx := c] && modified
          && GetCursor() == MoveRight(text, old(GetCursor()), viewportHeight)
          && GetHistory() == Record(old(GetHistory()), CurrentState())
        else
          (text == old(text) && GetCursor() == old(GetCursor()) && modified == old(modified)
           && GetHistory() == old(GetHistory()))
      ensures clipboard == old(clipboard)
      ensures visualStartLine == old(visualStartLine) && visualStartCol == old(visualStartCol)
    {
      var idx := LineColToCharIdx(cursorLine, cursorCol);
      if idx < |text| {
        text := text[..idx] + [c] + text[idx + 1..];
        assert text == old(text)[idx := c];
        MoveCursorRight();
        SaveState();
        modified := true;
      }
    }
  }
}
