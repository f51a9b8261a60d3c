# Scriptoris core in Dafny

Scriptoris is a vim-style terminal editor for Markdown. A separate crate adds a
Language Server Protocol (LSP) plugin. This project models the logic of both that
can be stated without a terminal, a file system or a running language server,
and proves properties of that model.

The editor side (`crates/scriptoris`) covers:

- the `Editor` buffer: the text, the cursor, the viewport, the clipboard, the
  visual selection, and an undo history capped at 100 entries;
- the `BufferManager` and `WindowManager` of the application;
- the normal-mode keys that take two presses (`dd`, `yy`, `q<reg>`, `@<reg>`),
  with macro recording;
- the `UIState`: modes, the help overlay, the command line and its history,
  and command suggestions;
- the timed status messages of the `StatusManager`;
- the dispatch of `:` commands in `CommandProcessor`;
- display widths and line wrapping (`text_width.rs`);
- the colour parser of the theme settings (`ui.rs`).

The LSP side (`crates/lsp-plugin`) covers:

- the `Document`: conversion between LSP positions and offsets, text edits, and
  the word under a position;
- the client transport: the framing of the Base Protocol, the reader's
  header/body loop, the request-id counter, the table of pending requests, the
  choice between "result" and "error", and the steps of `shutdown`;
- the plugin's language ids, hover text, definition choice, key bindings and
  `:lsp` command replies.

Modules:

- `Wrappers` holds Option and Result.
- `Ints` holds the integer widths of the source: `i32`, `u32`, `u8`, wrap-around
  and truncation.
- `Unicode` and `Utf8` model the string primitives the code relies on: UTF-8 and
  UTF-16 lengths, `trim`, `split_whitespace`, decimal printing and `from_str_radix`,
  and UTF-8 encoding and decoding.
- `Rope` splits text into lines the way `ropey` does.
- `Paths` models `file_name` and `extension` of a Unix path.
- `Keys` holds terminal key events.

Unicode width data (`unicode_width`) and grapheme segmentation
(`unicode_segmentation`) are parameters of type `TextWidth.Tables`.
`char::is_alphanumeric` is a parameter of the word lookup. Time is a parameter
`now`, in nanoseconds. Whatever the file system, the session store, the
configuration or the language server answers is a parameter. Whatever the model
asks of them is a returned value.

## Model

| member | source | states |
|---|---|---|
| LspDocument.Document.constructor | crates/lsp-plugin/src/document.rs:13-20 | the new document holds the given URI, text, language id and version |
| LspDocument.Document.Update | crates/lsp-plugin/src/document.rs:22-25 | text and version are replaced; URI and language id are kept |
| LspDocument.Document.GetLine | crates/lsp-plugin/src/document.rs:27-33 | Some exactly when the line index is below the rope's line count, and then the line with its terminator |
| LspDocument.Utf16Walk | crates/lsp-plugin/src/document.rs:48-57 | the loop's stop: from any start, the first prefix covering at least `character` UTF-16 units, with no shorter one in between, or the whole line |
| LspDocument.PositionOffset | crates/lsp-plugin/src/document.rs:35-60 | None exactly when the line is past the last one; otherwise an offset from the line's start up to the start plus the line's UTF-8 length |
| LspDocument.Document.GetPositionOffset | crates/lsp-plugin/src/document.rs:35-60 | the loop over the line's characters computes `PositionOffset` |
| LspDocument.SurrogatePairRoundsUp | crates/lsp-plugin/src/document.rs:48-57 | a `character` between the two halves of a surrogate pair rounds up past the pair |
| LspDocument.AsciiPrefixChars | crates/lsp-plugin/src/document.rs:48-57 | on ASCII the covered prefix has exactly `character` characters, bytes and UTF-16 units |
| LspDocument.AsciiPositionOffset | crates/lsp-plugin/src/document.rs:35-60 | on ASCII text the offset is the line start plus `character`, capped at the line's length |
| LspDocument.AsciiOffset | crates/lsp-plugin/src/document.rs:35-60 | the ASCII offset lies between the start of its line and the start of the next |
| LspDocument.ByteWalk | crates/lsp-plugin/src/document.rs:69-78 | the loop's stop: from any start, the first prefix covering at least `offset - line start` bytes, with no shorter one in between, or the whole line |
| LspDocument.OffsetPosition | crates/lsp-plugin/src/document.rs:62-84 | the line is the line holding the offset, truncated to `u32`; the column never exceeds the line's UTF-16 length |
| LspDocument.Document.OffsetToPosition | crates/lsp-plugin/src/document.rs:62-84 | the loop computes `OffsetPosition` for an offset within the text |
| LspDocument.AsciiPositionRoundTrip | crates/lsp-plugin/src/document.rs:35-84 | on ASCII text, a position up to the end of its line's content converts to an offset and back to itself |
| LspDocument.AsciiOffsetLine | crates/lsp-plugin/src/document.rs:35-84 | the ASCII offset of a position inside a line lies on that line |
| LspDocument.UnresolvedEditIsIgnored | crates/lsp-plugin/src/document.rs:102-110 | an edit with a start or an end past the last line leaves the text unchanged |
| LspDocument.AsciiEditSplices | crates/lsp-plugin/src/document.rs:102-110 | on ASCII text a resolvable edit gives text[..s] + newText + text[e..] |
| LspDocument.Document.ApplyTextEdit | crates/lsp-plugin/src/document.rs:102-110 | the content becomes the edit's result; URI, language id and version are kept |
| LspDocument.InsertEdit | crates/lsp-plugin/src/document.rs:88-92 | one insertion step of the sort adds exactly the one edit |
| LspDocument.SortEdits | crates/lsp-plugin/src/document.rs:88-92 | the sorted edits are a permutation of the given ones |
| LspDocument.InsertEditSorted | crates/lsp-plugin/src/document.rs:88-92 | insertion keeps the start positions non-increasing |
| LspDocument.SortEditsSorted | crates/lsp-plugin/src/document.rs:88-92 | edits are applied in non-increasing (line, character) order of their starts, as a permutation of the given edits |
| LspDocument.SortEditsStable | crates/lsp-plugin/src/document.rs:88-92 | edits with the same start keep their relative order (`sort_by` is stable) |
| LspDocument.InsertEditStable | crates/lsp-plugin/src/document.rs:88-92 | one insertion step keeps the order of edits with equal starts |
| LspDocument.Document.ApplyTextEdits | crates/lsp-plugin/src/document.rs:86-100 | the content is the sorted edits applied in turn; the version goes up by exactly one, wrapping at `i32::MAX`; the new content is returned |
| LspDocument.Document.ApplyInOrder | crates/lsp-plugin/src/document.rs:94-96 | applying the edits one at a time through `apply_text_edit` leaves the content of applying the whole list; nothing else changes |
| LspDocument.ApplyAllFirst | crates/lsp-plugin/src/document.rs:94-96 | when a list of edits applies, so does its first edit |
| LspDocument.ApplyAllRest | crates/lsp-plugin/src/document.rs:94-96 | applying a list of edits is applying its first edit and then the rest |
| LspDocument.RunStart | crates/lsp-plugin/src/document.rs:124-127 | the backward walk stops after a run of word characters, at the start of the line or after a non-word character |
| LspDocument.RunEnd | crates/lsp-plugin/src/document.rs:129-132 | the forward walk stops after a run of word characters, at the end of the line or before a non-word character |
| LspDocument.WordAtIsMaximalRun | crates/lsp-plugin/src/document.rs:112-139 | the word is the maximal run of alphanumeric or '_' characters around the position, and None when that run is empty |
| LspDocument.NoWordPastLineEnd | crates/lsp-plugin/src/document.rs:118-121 | there is no word at a position past the line's characters |
| LspDocument.Document.GetWordAtPosition | crates/lsp-plugin/src/document.rs:112-139 | the method computes `WordAt` |
| Rope.Lines | crates/lsp-plugin/src/document.rs:27-33 | a text has at least one line, even when empty; that the lines, each with its terminator, spell the text is `Rope.LinesConcat` |
| Rope.LinesConcat | crates/lsp-plugin/src/document.rs:27-33 | concatenating the lines gives the text back |
| Rope.CharToLine | crates/lsp-plugin/src/document.rs:63 | `char_to_line`: the line holding a character index |
| Rope.CharToLineUnique | crates/lsp-plugin/src/document.rs:63-64 | a character index between a line's start and the next line's start belongs to that line |
| Rope.LineStartMonotone | crates/lsp-plugin/src/document.rs:43 | `line_to_char` grows with the line index |
| Rope.LineRange | crates/lsp-plugin/src/document.rs:43-46 | the characters from `line_to_char(i)` to `line_to_char(i + 1)` are exactly line i |
| Framing.FrameAnnouncesBodyLength | crates/lsp-plugin/src/client.rs:214-215 | the frame is the header line, a blank line and the JSON bytes; the header announces exactly the number of JSON bytes |
| Framing.HeaderLine | crates/lsp-plugin/src/client.rs:215 | the header line is ASCII |
| Framing.HeaderLineValue | crates/lsp-plugin/src/client.rs:106-107 | the number written in a header line is parsed back by the reader |
| Framing.LineLength | crates/lsp-plugin/src/client.rs:100 | `read_line` takes the bytes up to and including the first LF, at least one when there are any |
| Framing.DecodeStep | crates/lsp-plugin/src/client.rs:98-116 | one turn of the header loop consumes at least one byte, or ends it |
| Framing.DecodeFrame | crates/lsp-plugin/src/client.rs:97-119 | a message leaves strictly fewer bytes than it was given |
| Framing.DecodeFrameStep | crates/lsp-plugin/src/client.rs:97-119 | the header loop's result is the first step's, or that of the loop over the bytes the step left |
| Framing.ReadFrame | crates/lsp-plugin/src/client.rs:97-119 | the loop over the stream computes `DecodeFrame` |
| Framing.ReadTurn | crates/lsp-plugin/src/client.rs:98-116 | one turn of the loop either gives the outcome of the whole frame, or moves forward to a position whose frame is the same one |
| Framing.BlankLineEndsHeaders | crates/lsp-plugin/src/client.rs:103-105 | a blank line (CR LF or LF) before any Content-Length ends the loop with no message |
| Framing.ContentLengthLineReadsNext | crates/lsp-plugin/src/client.rs:106-113 | a Content-Length line makes the loop read exactly that many bytes, starting right after the line |
| Framing.ContentLengthLineMessage | crates/lsp-plugin/src/client.rs:106-113 | a Content-Length line followed by that many bytes of UTF-8 yields those bytes as the message |
| Framing.AsciiFrameMisread | crates/lsp-plugin/src/client.rs:106-113 | decoding an encoded ASCII frame yields CR LF followed by the JSON minus its last two bytes |
| Framing.AsciiFrameIsNotRoundTrip | crates/lsp-plugin/src/client.rs:106-113 | the reader as written never returns the framed JSON |
| Framing.FixedHeaderLine | crates/lsp-plugin/src/client.rs:106-107 | the corrected loop remembers the Content-Length and reads on |
| Framing.FixedBlankLine | crates/lsp-plugin/src/client.rs:103-105 | after the blank line the corrected loop reads the remembered number of bytes |
| Framing.FixedFrameRoundTrip | crates/lsp-plugin/src/client.rs:213-215 | the corrected decoder returns exactly the framed JSON and leaves the rest of the stream unread |
| JsonRpc.Get | crates/lsp-plugin/src/client.rs:182-183 | `Value::get` is Some exactly for a field of an object |
| JsonRpc.AsI32 | crates/lsp-plugin/src/client.rs:127 | an `i32` id only from an integer value that is that id |
| JsonRpc.ParseResponse | crates/lsp-plugin/src/client.rs:39-46 | an accepted response carries the value's own integer "id" |
| JsonRpc.SelectResult | crates/lsp-plugin/src/client.rs:180-189 | Ok with the "result" field exactly when it is present; otherwise an LSP error exactly when "error" is present, else an invalid response |
| JsonRpc.EscapeAscii | crates/lsp-plugin/src/client.rs:168-171 | serialising ASCII text gives ASCII text |
| JsonRpc.RequestTextAscii | crates/lsp-plugin/src/client.rs:168-171 | a request or notification built from ASCII parts is ASCII |
| LspClient.IssueNext | crates/lsp-plugin/src/client.rs:166 | taking the next id keeps the counter one step ahead of the ids handed out, each the id of its turn |
| LspClient.IdOf | crates/lsp-plugin/src/client.rs:166 | the k-th request takes id k + 1 |
| LspClient.IdsIncrease | crates/lsp-plugin/src/client.rs:166 | ids are strictly increasing, so never reused, over the first `i32::MAX` requests |
| LspClient.IdWrapsAfterMax | crates/lsp-plugin/src/client.rs:166 | `fetch_add` wraps: the request after id `i32::MAX` gets `i32::MIN` |
| LspClient.Dispatch | crates/lsp-plugin/src/client.rs:122-146 | a message without "id" leaves the table alone; any other message either leaves it alone or resolves exactly one pending id, the message's own, with that message |
| LspClient.DispatchAllAppend | crates/lsp-plugin/src/client.rs:98-146 | dispatching two runs of messages is dispatching the first, then the second |
| LspClient.DispatchAllShrinks | crates/lsp-plugin/src/client.rs:122-146 | dispatching never adds a pending entry |
| LspClient.NotificationsLeaveTable | crates/lsp-plugin/src/client.rs:137-144 | messages without "id" never touch the table |
| LspClient.ResponseResolvesEntry | crates/lsp-plugin/src/client.rs:126-136 | a response with a pending id removes that id and delivers the value to it |
| LspClient.UnknownIdLeavesTable | crates/lsp-plugin/src/client.rs:126-136 | a message whose id is not pending leaves the table unchanged |
| LspClient.Finish | crates/lsp-plugin/src/client.rs:180-199 | the wait ends with the id removed; a delivered response gives its selected result, a pending entry times out, a dropped one gives "No response received" |
| LspClient.WrittenRequestUnregisters | crates/lsp-plugin/src/client.rs:174-199 | after a written request its id is no longer pending and nothing was added |
| LspClient.FailedWriteLeaksEntry | crates/lsp-plugin/src/client.rs:175-177 | a failed write returns an error and leaves the id registered |
| LspClient.ReplyDecidesOutcome | crates/lsp-plugin/src/client.rs:180-189 | the response carrying the request's id decides its outcome by result-over-error selection |
| LspClient.SilenceTimesOut | crates/lsp-plugin/src/client.rs:195-199 | a request that receives only notifications times out |
| LspClient.BlankLineStopsReader | crates/lsp-plugin/src/client.rs:147-151 | a blank line on the server's output stops the reader with nothing dispatched |
| LspClient.Client.constructor | crates/lsp-plugin/src/client.rs:60-80 | the counter starts at 1, the table is empty, nothing is written, the flag is clear |
| LspClient.Client.SendMessage | crates/lsp-plugin/src/client.rs:213-224 | a successful write appends exactly the frame; a failed one appends nothing and fails; nothing else changes |
| LspClient.Client.SendNotification | crates/lsp-plugin/src/client.rs:203-211 | the notification is framed and written; the table and the counter are untouched |
| LspClient.Client.DispatchMessage | crates/lsp-plugin/src/client.rs:122-146 | the table becomes `Dispatch` of the old table |
| LspClient.Client.BeginRequest | crates/lsp-plugin/src/client.rs:164-177 | the request takes the counter's value, registers it before the write, and writes the framed request when the write succeeds |
| LspClient.Client.FinishRequest | crates/lsp-plugin/src/client.rs:179-199 | the table and result are those of `Finish` |
| LspClient.Client.SendRequest | crates/lsp-plugin/src/client.rs:161-201 | the whole request: id, registration, write, wait and outcome as `Request` describes |
| LspClient.Client.RunReader | crates/lsp-plugin/src/client.rs:82-157 | the reader dispatches every decoded message unless shut down, then clears every pending entry |
| LspClient.Client.Shutdown | crates/lsp-plugin/src/client.rs:236-254 | the flag is set and the process killed, exit is sent whatever happened, the table is cleared, and the shutdown request's own result is returned |
| TextWidth.FullwidthForms | crates/scriptoris/src/text_width.rs:156-161 | inside the halfwidth and fullwidth forms block, exactly the halfwidth katakana U+FF61..U+FF9F are not fullwidth |
| TextWidth.CalculateEastAsianWidth | crates/scriptoris/src/text_width.rs:107-128 | the loop computes the sum of the per-character widths |
| TextWidth.EastAsianWidthOfNarrow | crates/scriptoris/src/text_width.rs:107-128 | characters of width 1 count one column each |
| TextWidth.EastAsianWidthOfWide | crates/scriptoris/src/text_width.rs:107-128 | characters of width 2 count two columns each |
| TextWidth.GraphemeWidth | crates/scriptoris/src/text_width.rs:69-104 | 0 for an empty or all-control grapheme; an emoji is 1 or 2 columns as configured, and 2 in the standard setting when it is a sequence; any other grapheme is the east-asian sum, or the plain width when that mode is off |
| TextWidth.StrWidth | crates/scriptoris/src/text_width.rs:59-66 | 0 for the empty string, otherwise the sum of the grapheme widths |
| TextWidth.WidthSumAppend | crates/scriptoris/src/text_width.rs:59-66 | the width of two runs of graphemes is the sum of their widths |
| TextWidth.WidthSumMonotone | crates/scriptoris/src/text_width.rs:59-66 | a longer prefix of graphemes is never narrower |
| TextWidth.GraphemeBytesConcat | crates/scriptoris/src/text_width.rs:226-231 | the byte lengths of the graphemes add up to the byte length of their text |
| TextWidth.FitFrom | crates/scriptoris/src/text_width.rs:219-235 | the walk stops at the longest prefix whose width fits the column |
| TextWidth.FitCountIsLongest | crates/scriptoris/src/text_width.rs:219-235 | every prefix up to the count fits the column and every longer one does not |
| TextWidth.ColToCharIndex | crates/scriptoris/src/text_width.rs:219-235 | the byte length of the longest grapheme prefix that fits the column, never past the text's byte length |
| TextWidth.StopFrom | crates/scriptoris/src/text_width.rs:238-252 | the walk stops at the first grapheme whose start is at or past the byte index |
| TextWidth.CharIndexToCol | crates/scriptoris/src/text_width.rs:238-252 | the loop computes `ColumnAt` |
| TextWidth.ColumnAtMonotone | crates/scriptoris/src/text_width.rs:238-252 | a later byte index never gives an earlier column |
| TextWidth.ColumnAtEnd | crates/scriptoris/src/text_width.rs:238-252 | from the text's byte length on, the column is the width of the text |
| TextWidth.LastBlank | crates/scriptoris/src/text_width.rs:302-314 | the last whitespace grapheme among the first n, and none after it |
| TextWidth.BlankBreak | crates/scriptoris/src/text_width.rs:300-314 | the preferred break lies within the graphemes that fit |
| TextWidth.CharBreakFrom | crates/scriptoris/src/text_width.rs:316-326 | the fallback break is the first character whose running width exceeds the maximum, and None when none does |
| TextWidth.CharBreak | crates/scriptoris/src/text_width.rs:316-326 | the loop computes the fallback break |
| TextWidth.WrapPositionInLine | crates/scriptoris/src/text_width.rs:297-327 | a corrected wrap position lies within the line |
| TextWidth.FindWrapPosition | crates/scriptoris/src/text_width.rs:297-327 | the loops compute the corrected wrap position |
| TextWidth.WrapText | crates/scriptoris/src/text_width.rs:257-293 | with the corrected break position, the lines spell the text without its "\n" graphemes |
| TextWidth.BreakLine | crates/scriptoris/src/text_width.rs:270-280 | an overfull line is split at its corrected wrap position: the pushed part is a prefix of the line as long as the position, the carried part is the rest followed by the new cluster; without a position the whole line is pushed |
| TextWidth.WrappedLinesHaveNoNewline | crates/scriptoris/src/text_width.rs:266-269 | when "\n" is a grapheme of its own, no output line holds a line feed |
| TextWidth.WrapPositionSplitsChar | crates/scriptoris/src/text_width.rs:311-312 | as written, the preferred break of "世 a" at width 4 is byte 2, which is inside "世" |
| TextWidth.WrapPositionOnSample | crates/scriptoris/src/text_width.rs:311-312 | corrected, the break on the same line is after the blank, at byte 4 |
| EditorCore.Record | crates/scriptoris/src/editor.rs:391-419 | an unchanged text leaves the history alone; otherwise the redo tail goes, the state is appended and current, and past 100 entries the oldest goes; the history stays valid |
| EditorCore.RecordKeepsUndoChain | crates/scriptoris/src/editor.rs:400-418 | the entries before the new one are those up to the old current entry, less the oldest at the cap |
| EditorCore.UndoHistory | crates/scriptoris/src/editor.rs:421-434 | undo keeps the entries and a valid index |
| EditorCore.RedoHistory | crates/scriptoris/src/editor.rs:436-449 | redo keeps the entries and a valid index |
| EditorCore.RedoAfterUndo | crates/scriptoris/src/editor.rs:421-449 | a redo returns to the entry an undo left |
| EditorCore.UndoAfterRedo | crates/scriptoris/src/editor.rs:421-449 | an undo returns to the entry a redo left |
| EditorCore.UndoAfterRecord | crates/scriptoris/src/editor.rs:391-434 | after a recorded change there is nothing to redo, and an undo returns to the entry current before it |
| EditorCore.AdjustedOffset | crates/scriptoris/src/editor.rs:370-376 | with a height of at least 1 the line is in view; an offset already showing it is kept; otherwise the least scroll |
| EditorCore.AdjustedOffsetIdempotent | crates/scriptoris/src/editor.rs:370-376 | adjusting twice is adjusting once |
| EditorCore.Clamped | crates/scriptoris/src/editor.rs:112-123 | the line is clamped to the last line and the column to the line's characters less one; values in range are kept |
| EditorCore.AdjustColCaps | crates/scriptoris/src/editor.rs:362-368 | the column is capped at the line's display width, and a column within it is kept |
| EditorCore.MovesStayInText | crates/scriptoris/src/editor.rs:264-331 | every cursor move keeps the cursor on a line of the text |
| EditorCore.HorizontalMovesOrdered | crates/scriptoris/src/editor.rs:280-303 | left never moves forward, right never back; each moves unless at the start, or the end, of the text |
| EditorCore.LineChangeScrollsIntoView | crates/scriptoris/src/editor.rs:264-303 | a move that changes line brings that line into view |
| EditorCore.LineColIndexBounds | crates/scriptoris/src/editor.rs:333-344 | the index lies within the line's bytes counted from its start, and within the line on ASCII |
| EditorCore.Selection | crates/scriptoris/src/editor.rs:462-476 | a selection exists exactly when an anchor is set; its ends are the anchor and the cursor, in (line, col) order |
| EditorCore.ViewportLines | crates/scriptoris/src/editor.rs:141-155 | the lines from the offset, at most a screen's height, within the text |
| EditorCore.Editor.constructor | crates/scriptoris/src/editor.rs:39-69 | an empty text, a one-entry history at index 0, the cursor at (0,0), not modified, no selection |
| EditorCore.Editor.SetContent | crates/scriptoris/src/editor.rs:71-90 | the text is replaced, the history restarts with one entry, cursor and viewport are reset, not modified |
| EditorCore.Editor.MarkSaved | crates/scriptoris/src/editor.rs:100-102 | the buffer is no longer modified |
| EditorCore.Editor.SetViewportHeight | crates/scriptoris/src/editor.rs:128-130 | the height is set |
| EditorCore.Editor.SetViewportOffset | crates/scriptoris/src/editor.rs:132-135 | the offset is capped so that the viewport starts no later than a screen before the end |
| EditorCore.Editor.GetViewportLines | crates/scriptoris/src/editor.rs:141-155 | the loop returns `ViewportLines` |
| EditorCore.Editor.AdjustViewport | crates/scriptoris/src/editor.rs:370-376 | the offset becomes `AdjustedOffset` of the cursor line |
| EditorCore.Editor.AdjustCursorCol | crates/scriptoris/src/editor.rs:362-368 | the column is capped at the line's width |
| EditorCore.Editor.SetCursorPosition | crates/scriptoris/src/editor.rs:112-126 | the cursor is clamped to the text and scrolled into view; nothing else changes |
| EditorCore.Editor.MoveCursorUp | crates/scriptoris/src/editor.rs:264-270 | the cursor becomes `MoveUp` of the old one; nothing else changes |
| EditorCore.Editor.MoveCursorDown | crates/scriptoris/src/editor.rs:272-278 | the cursor becomes `MoveDown` of the old one; nothing else changes |
| EditorCore.Editor.MoveCursorLeft | crates/scriptoris/src/editor.rs:280-290 | the cursor becomes `MoveLeft` of the old one; nothing else changes |
| EditorCore.Editor.MoveCursorRight | crates/scriptoris/src/editor.rs:292-303 | the cursor becomes `MoveRight` of the old one; nothing else changes |
| EditorCore.Editor.MoveToLineStart | crates/scriptoris/src/editor.rs:305-307 | the column becomes 0 |
| EditorCore.Editor.MoveToLineEnd | crates/scriptoris/src/editor.rs:309-313 | the column becomes the line's last column |
| EditorCore.Editor.PageUpMove | crates/scriptoris/src/editor.rs:315-320 | the cursor becomes `PageUp` of the old one |
| EditorCore.Editor.PageDownMove | crates/scriptoris/src/editor.rs:322-331 | the cursor becomes `PageDown` of the old one |
| EditorCore.Editor.LineColToCharIdx | crates/scriptoris/src/editor.rs:333-344 | the line's start character index plus the byte index `col_to_char_index` finds in the line |
| EditorCore.Editor.SaveState | crates/scriptoris/src/editor.rs:391-419 | the history becomes `Record` of the current state; text, cursor and everything else are kept |
| EditorCore.Editor.Undo | crates/scriptoris/src/editor.rs:421-434 | true exactly when the index was above 0; then the entry's text and cursor are restored and the buffer is modified; otherwise nothing changes |
| EditorCore.Editor.Redo | crates/scriptoris/src/editor.rs:436-449 | true exactly when a later entry exists; then its text and cursor are restored; otherwise nothing changes |
| EditorCore.Editor.InsertChar | crates/scriptoris/src/editor.rs:157-173 | the character is inserted at the cursor's index, the column advances by its width, and the state is recorded; the viewport height and the tab settings are kept |
| EditorCore.Editor.InsertNewline | crates/scriptoris/src/editor.rs:175-183 | a line feed is inserted, the cursor goes to the start of the next line, and the state is recorded; the viewport height and the tab settings are kept |
| EditorCore.Editor.DeleteCharForward | crates/scriptoris/src/editor.rs:223-230 | the character at the cursor's index goes when there is one, and the state is recorded; the viewport height and the tab settings are kept |
| EditorCore.Editor.DeleteCharBackward | crates/scriptoris/src/editor.rs:203-221 | within a line the character before the cursor goes; at a line start the line joins the previous one; the viewport height and the tab settings are kept |
| EditorCore.Editor.DeleteBeforeInLine | crates/scriptoris/src/editor.rs:204-210 | the character before the cursor goes and the column steps back; the viewport height and the tab settings are kept |
| EditorCore.Editor.JoinWithPreviousLine | crates/scriptoris/src/editor.rs:211-219 | the terminator before the line goes and the cursor moves to the end of the previous line; the viewport height and the tab settings are kept |
| EditorCore.Editor.DeleteLine | crates/scriptoris/src/editor.rs:232-246 | the cursor's line, terminator included, goes to the clipboard and out of the text; the viewport height and the tab settings are kept |
| EditorCore.Editor.YankLine | crates/scriptoris/src/editor.rs:248-253 | the cursor's line goes to the clipboard |
| EditorCore.Editor.Paste | crates/scriptoris/src/editor.rs:255-262 | a non-empty clipboard is inserted at the cursor's index; an empty one changes nothing; the viewport height and the tab settings are kept |
| EditorCore.Editor.StartVisualSelection | crates/scriptoris/src/editor.rs:452-455 | the anchor is the cursor |
| EditorCore.Editor.ClearVisualSelection | crates/scriptoris/src/editor.rs:457-460 | there is no anchor |
| EditorCore.Editor.SelectedText | crates/scriptoris/src/editor.rs:478-486 | empty without a selection, otherwise the text between the selection's ends |
| EditorCore.Editor.YankSelection | crates/scriptoris/src/editor.rs:506-508 | the clipboard gets the selected text |
| EditorCore.Editor.DeleteSelection | crates/scriptoris/src/editor.rs:488-504 | the selected text goes to the clipboard and out of the text, the cursor goes to the selection's start, the selection ends; the viewport height and the tab settings are kept |
| EditorCore.Editor.CutSelection | crates/scriptoris/src/editor.rs:494-503 | clipboard and text are the cut, the cursor is placed and the state recorded; the viewport height and the tab settings are kept |
| EditorCore.Editor.PlaceAfterCut | crates/scriptoris/src/editor.rs:497-503 | the cursor goes to the selection's start within its line and the state is recorded; the viewport height and the tab settings are kept |
| EditorCore.Editor.ReplaceChar | crates/scriptoris/src/editor.rs:511-520 | the character at the cursor's index is replaced and the cursor moves right; the viewport height and the tab settings are kept |
| App.NewBuffer | crates/scriptoris/src/app.rs:62-69 | a new buffer is empty, without a file, writable, with the given id |
| App.ResetBuffer | crates/scriptoris/src/app.rs:141-146 | resetting the last buffer gives a new buffer with the same id |
| App.IndexOfId | crates/scriptoris/src/app.rs:112-114 | the position of the first buffer with the id, or None when no buffer has it |
| App.NextIndex | crates/scriptoris/src/app.rs:120-126 | one on, wrapping from the last index to 0 |
| App.PrevIndex | crates/scriptoris/src/app.rs:128-138 | one back, wrapping from 0 to the last index |
| App.PrevUndoesNext | crates/scriptoris/src/app.rs:120-138 | going back undoes going forward and the other way round |
| App.ForwardWithoutWrap | crates/scriptoris/src/app.rs:120-126 | moves that stop short of the last buffer simply add up |
| App.ForwardAdds | crates/scriptoris/src/app.rs:120-126 | a moves then b moves are a + b moves |
| App.FullCycle | crates/scriptoris/src/app.rs:120-126 | one move per buffer comes back to where it started |
| App.BufferManager.constructor | crates/scriptoris/src/app.rs:79-87 | one empty buffer with id 0, current, next id 1 |
| App.BufferManager.CreateBuffer | crates/scriptoris/src/app.rs:89-94 | a buffer with the next id is appended, the id counter goes up, ids stay fresh |
| App.BufferManager.NextBuffer | crates/scriptoris/src/app.rs:120-126 | None and no move with at most one buffer; otherwise the next index, wrapping |
| App.BufferManager.PrevBuffer | crates/scriptoris/src/app.rs:128-138 | None and no move with at most one buffer; otherwise the previous index, wrapping |
| App.BufferManager.DeleteCurrent | crates/scriptoris/src/app.rs:140-154 | the last buffer is reset and None returned; otherwise the current one is removed, its id returned and no longer present, and the index clamped |
| App.FindPane | crates/scriptoris/src/app.rs:279-282 | the first pane whose id is, or is not, the given one |
| App.Retarget | crates/scriptoris/src/app.rs:283 | only the found pane's buffer changes |
| App.WindowManager.constructor | crates/scriptoris/src/app.rs:254-261 | one pane with id 0 showing the buffer, no split |
| App.WindowManager.Split | crates/scriptoris/src/app.rs:271-286 | one pane gains a second; with two, only the first pane other than the current window changes; never more than two panes |
| App.WindowManager.SplitHorizontal | crates/scriptoris/src/app.rs:288-290 | a split of kind horizontal |
| App.WindowManager.SplitVertical | crates/scriptoris/src/app.rs:292-294 | a split of kind vertical |
| App.WindowManager.SetBufferForCurrent | crates/scriptoris/src/app.rs:296-304 | only the pane whose id is the current window's changes |
| App.WindowManager.Repoint | crates/scriptoris/src/app.rs:1038-1044 | every pane that showed the old id shows the new one, so none shows the old id |
| App.BufferEntries | crates/scriptoris/src/app.rs:1017-1033 | one `:buffers` entry per buffer |
| App.ApplyCommandAction | crates/scriptoris/src/app.rs:982-1075 | no action answers nothing and changes nothing; next and previous move the index by `NextIndex`/`PrevIndex` when there are several buffers, point the current pane at the new buffer and report the switch, and with one buffer change nothing and warn that there is nothing to switch to; the list answers the `:buffers` listing and changes nothing; closing the last buffer resets it in place and warns; closing one of several removes it, keeps the index in range, points the current pane at the new current buffer and every pane that showed the closed one at it too, and reports success; a horizontal or vertical split sets the split kind and adds a pane, or retargets the other pane, showing the current buffer, and reports it; no command creates a buffer or changes the current window, and buffer commands keep the split |
| App.StartRecording | crates/scriptoris/src/app.rs:841-847 | recording into the register from no keys |
| App.StopRecording | crates/scriptoris/src/app.rs:849-859 | the keys are stored under the register, then recording, register and keys are reset |
| App.Lookup | crates/scriptoris/src/app.rs:861-862 | the keys stored under the register, if any |
| App.Record | crates/scriptoris/src/app.rs:445-448 | while recording, every key but `q` is appended |
| App.MovementAgrees | crates/scriptoris/src/app.rs:450-470 | a movement letter or a key that is not a character is handled alike by the corrected handler and the one as written: it is passed on and clears the pending key |
| App.CorrectionOnlyAffectsRegisters | crates/scriptoris/src/app.rs:450-500 | the corrected handler and the handler as written agree whenever no register name is awaited |
| App.QaStartsNoRecording | crates/scriptoris/src/app.rs:450-457 | as written, `q` then `a` starts no recording |
| App.QThenRegisterStartsRecording | crates/scriptoris/src/app.rs:474-493 | corrected, `q` then a register name other than `q`, `@` and a movement letter starts recording into it |
| App.AtThenRegisterReplays | crates/scriptoris/src/app.rs:484-498 | corrected, `@` then a register name other than `q`, `@` and a movement letter replays that register |
| App.DoubleDDeletesLine | crates/scriptoris/src/app.rs:595-605 | `dd` deletes the line on the second press |
| App.DoubleYYanksLine | crates/scriptoris/src/app.rs:607-617 | `yy` yanks the line on the second press |
| App.InterruptedDeleteIsForgotten | crates/scriptoris/src/app.rs:450-457 | a `d` followed by another key deletes nothing and is forgotten |
| App.RecordingKeyStep | crates/scriptoris/src/app.rs:445-448 | while recording, a key other than `q` is appended to the recorded keys and the register, the stored macros and the recording flag are unchanged |
| App.RecordingKeepsKeys | crates/scriptoris/src/app.rs:445-448 | while recording, a run of keys without `q` is appended in order |
| App.RecordThenStopStores | crates/scriptoris/src/app.rs:476-482 | recording a run of keys and stopping with `q` stores exactly that run in the register |
| App.KeyHandler.constructor | crates/scriptoris/src/app.rs:319-360 | no pending key, not recording, no registers |
| App.KeyHandler.StartMacroRecording | crates/scriptoris/src/app.rs:841-847 | the state is `StartRecording`, with its info message |
| App.KeyHandler.StopMacroRecording | crates/scriptoris/src/app.rs:849-859 | the state is `StopRecording`, with its success message when a register was set |
| App.KeyHandler.HandleNormalKey | crates/scriptoris/src/app.rs:444-573 | the state and the action are those of the corrected handler |
| App.ClassifyMessage | crates/scriptoris/src/app.rs:1078-1086 | success exactly when the message mentions a write or a save; otherwise a warning exactly when it mentions unsaved changes; otherwise information |
| App.UnsavedQuitIsWarning | crates/scriptoris/src/app.rs:1078-1086 | the `:q` refusal shows as a warning |
| App.WriteReportIsSuccess | crates/scriptoris/src/app.rs:1078-1086 | a write report shows as a success |
| App.MissingCharNotContained | crates/scriptoris/src/app.rs:1078-1086 | `contains` fails for a pattern one of whose characters is missing from the message |
| App.DetectLanguageId | crates/scriptoris/src/app.rs:961-980 | plain text without an extension; always one of the listed ids |
| App.MarkdownDetected | crates/scriptoris/src/app.rs:961-980 | a ".md" file is Markdown |
| UiState.ToggleHelp | crates/scriptoris/src/ui_state.rs:43-50 | the overlay flips, and the mode is Help exactly when it is shown, Normal otherwise |
| UiState.ToggleHelpTwice | crates/scriptoris/src/ui_state.rs:43-50 | toggling twice hides the help and ends in Normal mode |
| UiState.HideHelp | crates/scriptoris/src/ui_state.rs:56-61 | the overlay is hidden; Help becomes Normal and any other mode is kept |
| UiState.AddToHistory | crates/scriptoris/src/ui_state.rs:173-183 | empty commands and repeats of the newest entry are ignored; otherwise appended, dropping the oldest past 100 |
| UiState.AddKeepsNoRepeats | crates/scriptoris/src/ui_state.rs:173-183 | the history never holds an empty entry or two equal neighbours |
| UiState.HistoryUp | crates/scriptoris/src/ui_state.rs:185-198 | a no-op on an empty history; from none the newest, else one older down to the oldest; the buffer shows the entry |
| UiState.HistoryDown | crates/scriptoris/src/ui_state.rs:200-217 | a no-op on an empty history or from none; at the newest back to none with an empty buffer; else one newer |
| UiState.DownUndoesUp | crates/scriptoris/src/ui_state.rs:185-217 | down undoes up except at the oldest entry |
| UiState.UpTimesFromFresh | crates/scriptoris/src/ui_state.rs:185-198 | n presses of up from a fresh line walk back n - 1 entries, stopping at the oldest |
| UiState.LessTotal | crates/scriptoris/src/ui_state.rs:241 | Rust's string order is total |
| UiState.LessTransitive | crates/scriptoris/src/ui_state.rs:241 | Rust's string order is transitive |
| UiState.Insert | crates/scriptoris/src/ui_state.rs:241 | insertion into a sorted list keeps it sorted and adds exactly the one item |
| UiState.StrictlySortedDistinct | crates/scriptoris/src/ui_state.rs:242 | a strictly sorted list holds no duplicates |
| UiState.Sort | crates/scriptoris/src/ui_state.rs:241 | the result is sorted and a permutation |
| UiState.Dedup | crates/scriptoris/src/ui_state.rs:242 | on sorted input: strictly sorted, with the same items |
| UiState.UIState.constructor | crates/scriptoris/src/ui_state.rs:18-29 | Normal mode, nothing shown, empty command line and history, no message |
| UiState.UIState.SetMode | crates/scriptoris/src/ui_state.rs:31-33 | only the mode changes |
| UiState.UIState.ToggleHelpOverlay | crates/scriptoris/src/ui_state.rs:43-50 | overlay and mode follow `ToggleHelp` |
| UiState.UIState.HideHelpOverlay | crates/scriptoris/src/ui_state.rs:56-61 | overlay and mode follow `HideHelp` |
| UiState.UIState.EnterCommandMode | crates/scriptoris/src/ui_state.rs:63-67 | Command mode, an empty command line, ":" on the status line |
| UiState.UIState.EnterSearchMode | crates/scriptoris/src/ui_state.rs:69-73 | Command mode, the command line "search ", "/" on the status line |
| UiState.UIState.EnterBannerMode | crates/scriptoris/src/ui_state.rs:75-107 | the mode, with its banner on the status line and as the mode message |
| UiState.UIState.EnterInsertMode | crates/scriptoris/src/ui_state.rs:75-80 | Insert mode with "-- INSERT --" |
| UiState.UIState.EnterNormalMode | crates/scriptoris/src/ui_state.rs:82-86 | Normal mode with no banner |
| UiState.UIState.EnterVisualMode | crates/scriptoris/src/ui_state.rs:88-93 | Visual mode with "-- VISUAL --" |
| UiState.UIState.EnterVisualBlockMode | crates/scriptoris/src/ui_state.rs:95-100 | VisualBlock mode with "-- VISUAL BLOCK --" |
| UiState.UIState.EnterReplaceMode | crates/scriptoris/src/ui_state.rs:102-107 | Replace mode with "-- REPLACE --" |
| UiState.UIState.SetCommandBuffer | crates/scriptoris/src/ui_state.rs:113-115 | only the command line changes |
| UiState.UIState.ClearCommandBuffer | crates/scriptoris/src/ui_state.rs:117-119 | the command line is empty |
| UiState.UIState.PushToCommandBuffer | crates/scriptoris/src/ui_state.rs:121-123 | the character is appended |
| UiState.UIState.PopFromCommandBuffer | crates/scriptoris/src/ui_state.rs:125-127 | the last character goes; an empty line stays empty |
| UiState.UIState.Quit | crates/scriptoris/src/ui_state.rs:129-131 | the quit flag is set |
| UiState.UIState.SetStatus | crates/scriptoris/src/ui_state.rs:138-156 | the status line and the manager get the message with its type |
| UiState.UIState.UpdateStatus | crates/scriptoris/src/ui_state.rs:158-168 | an expired message is dropped; the status line shows the current message, or is cleared when there is neither a message nor a mode message |
| UiState.UIState.AddCommandToHistory | crates/scriptoris/src/ui_state.rs:173-183 | the history becomes `AddToHistory` of the old one and the selection is reset |
| UiState.UIState.HistoryUpKey | crates/scriptoris/src/ui_state.rs:185-198 | index and command line follow `HistoryUp` |
| UiState.UIState.HistoryDownKey | crates/scriptoris/src/ui_state.rs:200-217 | index and command line follow `HistoryDown` |
| UiState.UIState.GetCommandSuggestions | crates/scriptoris/src/ui_state.rs:219-244 | sorted without duplicates, and holding exactly the builtins and history entries that start with the prefix |
| StatusMessages.DefaultDuration | crates/scriptoris/src/status_manager.rs:56-63 | Info 3 s, Success 2 s, Warning 5 s, Error 7 s |
| StatusMessages.DurationsOrdered | crates/scriptoris/src/status_manager.rs:56-63 | success < info < warning < error |
| StatusMessages.NewMessage | crates/scriptoris/src/status_manager.rs:20-28 | the content, the type, the instant, and the type's default duration |
| StatusMessages.WithDuration | crates/scriptoris/src/status_manager.rs:30-37 | the content, the type, the instant and the given duration |
| StatusMessages.PermanentMessage | crates/scriptoris/src/status_manager.rs:39-46 | the content, the type, the instant and no duration |
| StatusMessages.IsExpired | crates/scriptoris/src/status_manager.rs:48-54 | a duration is set and strictly more than it has elapsed |
| StatusMessages.PermanentNeverExpires | crates/scriptoris/src/status_manager.rs:39-54 | a permanent message never expires |
| StatusMessages.ExpiresStrictlyAfterDuration | crates/scriptoris/src/status_manager.rs:48-54 | a message is still up at the end of its duration and gone one tick later |
| StatusMessages.ExpiryIsMonotone | crates/scriptoris/src/status_manager.rs:48-54 | once expired, always expired |
| StatusMessages.AfterUpdate | crates/scriptoris/src/status_manager.rs:108-114 | the message goes exactly when it has expired, otherwise it stays |
| StatusMessages.UpdateIdempotent | crates/scriptoris/src/status_manager.rs:108-114 | updating twice at the same instant is updating once |
| StatusMessages.FreshMessageSurvives | crates/scriptoris/src/status_manager.rs:108-114 | any message survives every update within two seconds of being set |
| StatusMessages.StatusManager.constructor | crates/scriptoris/src/status_manager.rs:73-78 | no message, an empty mode message |
| StatusMessages.StatusManager.SetMessage | crates/scriptoris/src/status_manager.rs:80-94 | the new message replaces any other |
| StatusMessages.StatusManager.SetInfo | crates/scriptoris/src/status_manager.rs:80-82 | an info message replaces any other |
| StatusMessages.StatusManager.SetSuccess | crates/scriptoris/src/status_manager.rs:84-86 | a success message replaces any other |
| StatusMessages.StatusManager.SetWarning | crates/scriptoris/src/status_manager.rs:88-90 | a warning message replaces any other |
| StatusMessages.StatusManager.SetError | crates/scriptoris/src/status_manager.rs:92-94 | an error message replaces any other |
| StatusMessages.StatusManager.SetPermanent | crates/scriptoris/src/status_manager.rs:96-98 | a message no update ever removes |
| StatusMessages.StatusManager.SetModeMessage | crates/scriptoris/src/status_manager.rs:100-102 | the current message is left alone |
| StatusMessages.StatusManager.Clear | crates/scriptoris/src/status_manager.rs:104-106 | afterwards there is no message |
| StatusMessages.StatusManager.Update | crates/scriptoris/src/status_manager.rs:108-114 | the message becomes `AfterUpdate` of the old one |
| Commands.AliasAction | crates/scriptoris/src/command_processor.rs:132-143 | the action each buffer and window alias stands for, and None for any other word |
| Commands.BlankCommandDoesNothing | crates/scriptoris/src/command_processor.rs:60-64 | an empty or blank command answers "" with no effects, no action and no quit |
| Commands.SearchCommand | crates/scriptoris/src/command_processor.rs:67-73 | "search <q>" searches for q and answers "検索: " + q |
| Commands.ExecuteDispatchesOnWords | crates/scriptoris/src/command_processor.rs:75-81 | any other command is dispatched on its words |
| Commands.FirstWordBeforeSpace | crates/scriptoris/src/command_processor.rs:76-78 | a command starting with a word and a space is dispatched on that word |
| Commands.OnlyQuitCommandsQuit | crates/scriptoris/src/command_processor.rs:96-118 | only "q", "q!" and "wq" change `should_quit`, and only by setting it |
| Commands.QuitCommand | crates/scriptoris/src/command_processor.rs:96-104 | ":q" refuses a modified buffer with the warning and leaves an unmodified one |
| Commands.ForceQuitCommand | crates/scriptoris/src/command_processor.rs:105-109 | ":q!" always leaves |
| Commands.WriteWithoutFile | crates/scriptoris/src/command_processor.rs:82-95 | without a file, ":w" and ":wq" fail before saving and do not quit |
| Commands.WriteQuitQuitsOnlyAfterSave | crates/scriptoris/src/command_processor.rs:110-118 | ":wq" quits exactly when the save succeeds |
| Commands.AliasRecordsAction | crates/scriptoris/src/command_processor.rs:132-144 | each alias records its action, answers "" and does nothing else |
| Commands.ActionOnlyFromAliases | crates/scriptoris/src/command_processor.rs:132-144 | only the aliases leave an action |
| Commands.EditNeedsArgument | crates/scriptoris/src/command_processor.rs:120-129 | ":e" without a name is E471 |
| Commands.SetNeedsThemeAndName | crates/scriptoris/src/command_processor.rs:213-223 | ":set" succeeds exactly for three words with "theme" second, and sets and saves the theme |
| Commands.UnknownCommand | crates/scriptoris/src/command_processor.rs:225 | any other first word is E492 naming it |
| Commands.SessionListingEndsWithLastEntry | crates/scriptoris/src/command_processor.rs:189-203 | the listing drops the newline after its last line and nothing else |
| Commands.CommandProcessor.constructor | crates/scriptoris/src/command_processor.rs:39-45 | no pending action |
| Commands.CommandProcessor.TakePendingAction | crates/scriptoris/src/command_processor.rs:47-49 | the pending action is handed over and forgotten |
| Commands.CommandProcessor.ExecuteCommand | crates/scriptoris/src/command_processor.rs:51-227 | the pending action is reset, then reply, quit flag, effects and action are those of `Execute` |
| LspPlugin.LanguageOf | crates/lsp-plugin/src/plugin.rs:56-70 | always a known id; markdown exactly for "md", rust exactly for "rs", cpp exactly for cpp/cc/cxx |
| LspPlugin.PluginLanguageId | crates/lsp-plugin/src/plugin.rs:56-70 | plain text without an extension; markdown exactly for ".md" files |
| LspPlugin.AgreesWithEditor | crates/lsp-plugin/src/plugin.rs:56-70 | on the extensions both know, the plugin and the editor name the same language |
| LspPlugin.DiffersFromEditorOnReact | crates/lsp-plugin/src/plugin.rs:57-58 | on jsx and tsx they differ |
| LspPlugin.RenderAll | crates/lsp-plugin/src/plugin.rs:113-119 | each marked string rendered, in order |
| LspPlugin.FenceRecoversValue | crates/lsp-plugin/src/plugin.rs:108-110 | a language string renders as "```lang\nvalue\n```" and the value can be read back |
| LspPlugin.SingleItemHover | crates/lsp-plugin/src/plugin.rs:111-120 | an array of one item shows that item alone |
| LspPlugin.HoverArraySnoc | crates/lsp-plugin/src/plugin.rs:111-120 | items are joined with a blank line |
| LspPlugin.HoverArrayLength | crates/lsp-plugin/src/plugin.rs:111-120 | n items give their texts plus n - 1 separators |
| LspPlugin.GotoChoice | crates/lsp-plugin/src/plugin.rs:143-152 | a scalar is returned as is; arrays and links give None exactly when empty |
| LspPlugin.GotoTakesFirstCandidate | crates/lsp-plugin/src/plugin.rs:143-152 | the choice is the first offered location, and there is one whenever any is offered |
| LspPlugin.GotoIgnoresRest | crates/lsp-plugin/src/plugin.rs:143-152 | later locations never matter; a link maps to its target URI and selection range |
| LspPlugin.OnKey | crates/lsp-plugin/src/plugin.rs:197-242 | claimed exactly for Ctrl+Space, Ctrl+K and Ctrl+], asking for completion, hover and definition at the cursor |
| LspPlugin.PlainTypingNotClaimed | crates/lsp-plugin/src/plugin.rs:199-241 | keys without Control are left to the editor |
| LspPlugin.ExtraModifiersKeepBinding | crates/lsp-plugin/src/plugin.rs:199-241 | extra modifiers alongside Control keep the binding |
| LspPlugin.ReplyToWords | crates/lsp-plugin/src/plugin.rs:250-298 | None exactly for no words or a first word other than "lsp" and "format"; "lsp" alone gives the usage; only "format" formats |
| LspPlugin.MissingServerName | crates/lsp-plugin/src/plugin.rs:262-283 | start and stop without a name answer their usage and start nothing |
| LspPlugin.UnknownSubcommand | crates/lsp-plugin/src/plugin.rs:287 | any other subcommand is "Unknown LSP command" |
| LspPlugin.ExtraWordsIgnored | crates/lsp-plugin/src/plugin.rs:250-298 | words after the server name are ignored |
| LspPlugin.LeadingSpaceSkipped | crates/lsp-plugin/src/plugin.rs:250 | a leading space does not change the words |
| LspPlugin.LeadingSpaceIgnored | crates/lsp-plugin/src/plugin.rs:250 | spaces before the command do not change the reply |
| LspPlugin.ScriptorisLspPlugin.constructor | crates/lsp-plugin/src/plugin.rs:20-28 | enabled, no file, no completions |
| LspPlugin.ScriptorisLspPlugin.OpenFile | crates/lsp-plugin/src/plugin.rs:52-75 | the file becomes current whatever the core answers; the core is asked to open it with the detected language id, and its answer is returned |
| LspPlugin.ScriptorisLspPlugin.UpdateFile | crates/lsp-plugin/src/plugin.rs:77-84 | without a file nothing is sent and the result is Ok |
| LspPlugin.ScriptorisLspPlugin.GetCompletionsAtCursor | crates/lsp-plugin/src/plugin.rs:86-101 | without a file Ok of nothing; otherwise the core's answer, kept when it succeeds |
| LspPlugin.ScriptorisLspPlugin.GetHoverAtCursor | crates/lsp-plugin/src/plugin.rs:103-130 | without a file Ok(None); otherwise the hover text of the core's answer |
| LspPlugin.ScriptorisLspPlugin.GotoDefinitionAtCursor | crates/lsp-plugin/src/plugin.rs:132-159 | without a file Ok(None); otherwise the first location of the core's answer |
| LspPlugin.ScriptorisLspPlugin.GetDiagnostics | crates/lsp-plugin/src/plugin.rs:161-169 | without a file Ok of nothing; a relative path is "Invalid file path"; otherwise the core's answer |
| LspPlugin.ScriptorisLspPlugin.FormatCurrentBuffer | crates/lsp-plugin/src/plugin.rs:171-174 | always Ok(None) |
| Paths.Extension | crates/scriptoris/src/app.rs:962 | when there is one, the file name is a non-empty stem, a dot and the extension, which holds no dot; a file name without a dot has none |
| Paths.FileName | crates/scriptoris/src/app.rs:962 | a file name, when there is one, is non-empty, has no '/' and is not ".." |
| Paths.FileNameAfterLastSeparator | crates/scriptoris/src/app.rs:962 | the file name of a path is what follows its last '/' |
| Paths.ExtensionOfBareName | crates/scriptoris/src/app.rs:962 | a path without a '/' is its own file name, and its extension is what follows its last dot |
| Paths.ExtensionIsAfterLastDot | crates/lsp-plugin/src/plugin.rs:56 | the extension is what follows the last dot of the file name, whatever dots the stem holds ("a/b.tar.gz" gives "gz") |
| Paths.HiddenFileHasNoExtension | crates/lsp-plugin/src/plugin.rs:56 | a file name whose only dot is its first character (".bashrc") has no extension |
| Paths.TrailingSeparatorIgnored | crates/lsp-plugin/src/plugin.rs:56 | a trailing '/' changes neither the file name nor the extension |
| Color.StripHashes | crates/scriptoris/src/ui.rs:15 | every leading '#' goes and nothing else |
| Color.ByteSlice | crates/scriptoris/src/ui.rs:23-25 | a byte slice succeeds exactly when both ends fall on character boundaries in order, and is then the text between them |
| Color.PairValue | crates/scriptoris/src/ui.rs:23-25 | `u8::from_str_radix(pair, 16)` |
| Color.Pairs | crates/scriptoris/src/ui.rs:23-25 | the three two-byte slices, Some exactly when all three fall on character boundaries |
| Color.ParseColor | crates/scriptoris/src/ui.rs:14-41 | a colour only when the remainder after trimming and stripping '#' is six bytes and its three slices can be cut |
| Color.AcceptedRemainderIsAscii | crates/scriptoris/src/ui.rs:16-28 | an accepted remainder is six ASCII characters |
| Color.HexDigitsParse | crates/scriptoris/src/ui.rs:14-41 | six hex digits, either case, give the colour they spell, red first |
| Color.PaddingIgnored | crates/scriptoris/src/ui.rs:15 | whitespace around and '#'s in front leave just the digits |
| Color.SignedPairsAccepted | crates/scriptoris/src/ui.rs:23-25 | as written, a '+' before each of three hex digits is accepted, giving each digit's value per channel ("+f+f+f" is Rgb(15, 15, 15)) |
| Color.StrictPair | crates/scriptoris/src/ui.rs:23-25 | a pair is accepted exactly when it is two hex digits |
| Color.ParseColorStrict | crates/scriptoris/src/ui.rs:14-41 | the corrected parser also accepts only a six-byte remainder whose slices can be cut |
| Color.StrictAcceptsExactlyHexDigits | crates/scriptoris/src/ui.rs:14-41 | corrected, accepted exactly for six hex digits, giving the colour they spell |
| Color.StrictAgreesOnHexDigits | crates/scriptoris/src/ui.rs:14-41 | the correction changes nothing for six hex digits |
| Color.StrictRejectsSign | crates/scriptoris/src/ui.rs:23-25 | the correction refuses any setting with a '+' left after trimming and stripping |
| Ints.WrapI32 | crates/lsp-plugin/src/client.rs:166 | a value that fits in `i32` is kept as it is |
| Ints.WrapI32Congruent | crates/lsp-plugin/src/client.rs:166 | the wrapped value is the true one modulo 2^32 |
| Ints.IncI32 | crates/lsp-plugin/src/document.rs:98 | one more, except that `i32::MAX` goes to `i32::MIN` |
| Ints.IncIsWrap | crates/lsp-plugin/src/document.rs:98 | the increment is the two's-complement wrap-around of the true successor |
| Ints.TruncU32 | crates/lsp-plugin/src/document.rs:81-82 | `as u32` keeps a value below 2^32 unchanged and never makes one larger |
| Ints.TruncU32Congruent | crates/lsp-plugin/src/document.rs:81-82 | `as u32` keeps the value modulo 2^32 |
| Ints.WrapAtMax | crates/lsp-plugin/src/client.rs:166 | one past `i32::MAX` wraps to `i32::MIN` |
| Unicode.Trim | crates/scriptoris/src/command_processor.rs:60 | `str::trim`: the result neither starts nor ends with whitespace |
| Unicode.TrimIsSlice | crates/scriptoris/src/ui.rs:15 | trimming removes only whitespace, and only from the two ends |
| Unicode.Words | crates/scriptoris/src/command_processor.rs:76 | `split_whitespace`: every word is a non-empty run without whitespace |
| Unicode.WordsOfTrimmed | crates/scriptoris/src/command_processor.rs:76 | a string with a non-whitespace character has a first word, the run after the leading whitespace |
| Unicode.ParseDecimal | crates/lsp-plugin/src/client.rs:107 | printing then parsing a number gives it back |
| Unicode.LengthBounds | crates/lsp-plugin/src/document.rs:56 | a string has at least one and at most four bytes, and one or two UTF-16 units, per character |
| Utf8.DecodeEncode | crates/lsp-plugin/src/client.rs:111 | decoding the UTF-8 encoding of a string gives it back |
| Utf8.EncodeLength | crates/lsp-plugin/src/client.rs:215 | the encoding is as long as `str::len` |

## Left out

- The asynchronous runtime, the 30-second timeouts, the channels, and the
  spawning and killing of the server process in `client.rs` are left out. The
  client is sequential: a request registers, writes, and then sees the messages
  the reader dispatches while it waits. An entry still pending when the wait
  ends counts as a timeout. The reader holds the process lock for ever, while
  `send_message` needs it. That lock-ordering problem is not modelled.
- `Drop` of the client only sets a flag and is not modelled.
- The Unicode width table and grapheme segmentation are parameters, not data.
  So is `char::is_alphanumeric` in the word lookup. `is_control` and
  `is_whitespace` are exact.
- `RopeSlice::as_str` is taken to succeed. The rope can return None for a line
  spread over chunks, and the source then uses "". That case is not modelled.
- LspDocument.Document.ApplyTextEdit: requires that the rope does not panic (a
  reversed or out-of-range span). The panic itself is `None` in `ApplyEdit`.
- LspDocument.Document.ApplyTextEdits: requires that no edit panics, for the
  same reason.
- EditorCore.Editor.LineColToCharIdx: requires `line <= LineCount(text)`.
  Beyond that `line_to_char` panics.
- EditorCore.Editor.InsertChar: requires the cursor's line to exist and its
  index to be at most the text's length. Otherwise the rope panics.
- EditorCore.Editor.InsertNewline: the same requires as `InsertChar`, for the
  same panic.
- EditorCore.Editor.DeleteCharForward: requires the cursor's line to exist.
  Otherwise `line_col_to_char_idx` panics.
- EditorCore.Editor.ReplaceChar: requires the cursor's line to exist, for the
  same panic.
- EditorCore.Editor.DeleteCharBackward: requires the cursor's line to exist.
  It also requires the index removed in each branch to be in the text; the
  rope panics otherwise.
- EditorCore.Editor.DeleteBeforeInLine: requires a column above 0 and the
  index before the cursor to be in the text. The rope panics otherwise.
- EditorCore.Editor.JoinWithPreviousLine: requires a line after the first
  that exists, and its start index between 1 and the text's length. The
  rope panics otherwise.
- EditorCore.Editor.Paste: requires the cursor's line to exist and, with a
  non-empty clipboard, its index to be at most the text's length. Otherwise
  the rope panics.
- EditorCore.Editor.SelectedText: requires `SelectionInText`: both ends of
  the selection are on existing lines, in order, and within the text.
  Otherwise `rope.slice` panics.
- EditorCore.Editor.YankSelection: requires `SelectionInText`, for the same
  panic.
- EditorCore.Editor.DeleteSelection: requires `SelectionInText`, for the same
  panic in `rope.slice` and `rope.remove`.
- EditorCore.Editor.CutSelection: requires the cut span to be in order and
  within the text. `DeleteSelection` meets this through `SelectionInText`.
- LspDocument.Document.OffsetToPosition: requires `offset <= |content|`.
  Beyond that `char_to_line` panics.
- EditorCore.AdjustedOffset: a height of 0 follows a release build. There
  `viewport_height - 1` wraps to `usize::MAX`, `saturating_sub` then gives 0,
  and the model gives 0. A debug build panics on that subtraction.
- Ints.IncI32: `self.version += 1` follows a release build, which wraps
  `i32::MAX` to `i32::MIN`. A debug build panics there.
- TextWidth.WrapText: uses the corrected break position
  (`WrapPositionOnSample`), not the one written at text_width.rs:311-312 (see
  Findings). The two differ once a multi-byte grapheme comes before the
  blank. On "é ab" at width 3 the source gives "é" and " ab", and the model
  gives "é " and "ab". On "世 ab" at width 4 the source panics, slicing inside
  "世".
- TextWidth.FindWrapPosition: its loops compute the corrected break
  position, the byte offset just after the blank grapheme. The source, at
  text_width.rs:311-312, adds the grapheme's index to its byte length. On "世 a" at width 4 the
  source breaks at byte 2, inside "世", and panics when slicing; the model
  breaks at byte 4.
- TextWidth.BreakLine: splits at the corrected break position, for the same
  reason as `TextWidth.WrapText`.
- JsonRpc.SelectResult: returns the "result" value as raw JSON. The
  `serde_json::from_value` into the caller's result type, and its failure,
  are not modelled.
- `Editor::insert_tab`, `set_tab_config`, `search`, `char_idx_to_line_col` and
  the read-only getters are not modelled. The tab settings are fields of the
  class, set by the constructor and `SetContent`.
- Buffers hold their text instead of a full `Editor`. The editor itself is
  `EditorCore.Editor`.
- After buffer commands the file manager is synchronised with the active
  buffer. That step belongs to the file manager, which is not part of this model.
- `play_macro` replays the stored keys through the mode handlers. The model
  returns the keys and the status messages, not the replay.
- App.KeyHandler.HandleNormalKey: follows the corrected handler `NormalKey`,
  not the one written at app.rs:450-457 (see Findings). On `q` then `a` the
  source clears the pending `q`, starts no recording and passes `a` on, which
  appends. The method starts recording into register `a`. The movement letters
  keep their place ahead of the register arms, so `q` then `h` moves the cursor
  in both. The two handlers agree whenever no register name is awaited
  (`App.CorrectionOnlyAffectsRegisters`).
- App.KeyHandler.HandleNormalKey: covers `q`, `@`, the register name, `d` and
  `y`. Every other key, such as a cursor move or a mode switch, is passed on as
  `Pass(key)`. Those keys are modelled as the `Editor` and `UIState` methods
  they call.
- The insert, visual, replace, command, help and save-prompt key handlers of
  `App` are not modelled beyond the methods they call.
- Paths.FileName: `Path` also normalises "." components. The model does not:
  on "a/." it gives None, where `Path::file_name` gives "a".
- Paths.Extension: inherits the same gap from `Paths.FileName`.
- The session store, the configuration file and the file manager are outside
  this model. `CommandProcessor` receives what they return (`Io`) and lists the
  `Effect`s it asks of them.
- The LSP core of the plugin (`lib.rs`) is outside this model. Its answers are
  parameters, and the calls the plugin makes are returned as `CoreCall` values.
  Diagnostics carry the file path, not its percent-encoded file URL.
- The plugin's `RwLock` fields are plain fields. A clone shares them, and one
  object stands for all the clones.
- The plugin's name and version constants are not modelled. Neither are
  `initialize`, `on_load` and `on_save`, which only spawn calls into the core.
  `on_key` and `on_command` are modelled up to the request they start or the
  reply they give.
- Rendering (`enhanced_ui.rs`, the rest of `ui.rs`, `highlight.rs`,
  `main.rs`) and the Markdown crate are not part of this model.

## Findings

| source | as written | input that shows it | evidently intended | confidence | as-written member | corrected member |
|---|---|---|---|---|---|---|
| crates/lsp-plugin/src/client.rs:106-113 | the reader takes the body right after the Content-Length line, before the blank line that ends the header part | any frame written by `send_message` (client.rs:215), e.g. of `{}` plus more JSON: the reader returns "\r\n" and the body without its last two bytes | read header lines up to the blank line, then the announced body | high, not executed | Framing.AsciiFrameIsNotRoundTrip | Framing.FixedFrameRoundTrip |
| crates/scriptoris/src/text_width.rs:311-312 | the preferred break is the grapheme's index plus its byte length, mixing a grapheme count with bytes | "世 a" with width 4: the break is byte 2, inside "世", and slicing there panics | the byte offset of the end of the blank grapheme (byte 4) | high, not executed | TextWidth.WrapPositionSplitsChar | TextWidth.WrapPositionOnSample |
| crates/scriptoris/src/app.rs:450-457 | any key other than `d`, `y` and `q` clears the pending key before the arms for `q<reg>` and `@<reg>` are tried | `q` then `a`: no recording starts, and `a` is taken as append | the register name after `q` or `@` is read while the pending key is still set | high, not executed | App.QaStartsNoRecording | App.QThenRegisterStartsRecording |
| crates/scriptoris/src/ui.rs:23-25 | each pair goes to `u8::from_str_radix`, which accepts a leading '+' | "+f+f+f" parses as Rgb(15, 15, 15) | only six hex digits are accepted | medium, not executed | Color.SignedPairsAccepted | Color.StrictAcceptsExactlyHexDigits |

The client's reader in `LspClient.Client.RunReader` keeps the decoder as
written. That is the behaviour the application has. The corrected decoder
stands beside it.
