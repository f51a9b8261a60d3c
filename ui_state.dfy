/**
 * The application's interface state (`UIState`): the mode, the help
 * overlay, the command line with its history, and the status line, which
 * mirrors the `StatusManager`'s current message.
 */
module UiState {
  import opened Wrappers
  import opened Unicode
  import opened StatusMessages

  /** The editor's modes. */
  datatype Mode = Normal | Insert | Command | Visual | VisualBlock | Replace | Help | SavePrompt

  // ---------------------------------------------------------------------
  // Help overlay

  /** `toggle_help` on (show_help, mode). */
  function ToggleHelp(shown: bool, mode: Mode): (r: (bool, Mode))
    ensures r.0 == !shown
    ensures r.1 == Help <==> r.0
    ensures r.1 == Normal <==> !r.0
  {
    if !shown then (true, Help) else (false, Normal)
  }

  /** Toggling twice hides the help and leaves Normal mode, whatever the mode was. */
  lemma ToggleHelpTwice(mode: Mode)
    ensures var once := ToggleHelp(false, mode);
      ToggleHelp(once.0, once.1) == (false, Normal)
  {
  }

  /** `hide_help` on (show_help, mode). */
  function HideHelp(shown: bool, mode: Mode): (r: (bool, Mode))
    ensures !r.0
    ensures mode == Help ==> r.1 == Normal
    ensures mode != Help ==> r.1 == mode
  {
    (false, if mode == Help then Normal else mode)
  }

  // ---------------------------------------------------------------------
  // Command history

  const HistoryCap: nat := 100

  /** `add_to_history` on the list: empty commands and repeats of the newest
      entry are not added; past the cap the oldest entry goes. */
  function AddToHistory(history: seq<string>, command: string): (r: seq<string>)
    ensures |history| <= HistoryCap ==> |r| <= HistoryCap
    ensures command == [] || (history != [] && history[|history| - 1] == command) ==> r == history
    ensures command != [] && (history == [] || history[|history| - 1] != command) ==>
      r != [] && r[|r| - 1] == command &&
      (if |history| < HistoryCap then r == history + [command]
       else r == (history + [command])[1..])
  {
    if command == [] || (history != [] && history[|history| - 1] == command) then history
    else
      var h := history + [command];
      if |h| > HistoryCap then h[1..] else h
  }

  /** No two neighbouring entries of a history built by `add_to_history` are equal and none is empty. */
  predicate NoRepeats(history: seq<string>) {
    (forall i :: 0 <= i < |history| ==> history[i] != []) &&
    forall i :: 0 < i < |history| ==> history[i - 1] != history[i]
  }

  lemma AddKeepsNoRepeats(history: seq<string>, command: string)
    requires NoRepeats(history)
    ensures NoRepeats(AddToHistory(history, command))
  {
  }

  /** The history index with the command line it shows. */
  datatype Recall = Recall(index: Option<nat>, buffer: string)

  predicate IndexIn(history: seq<string>, index: Option<nat>) {
    index.Some? ==> index.value < |history|
  }

  /** `history_up`: from no selection the newest entry, otherwise one older,
      stopping at the oldest; the command line shows the entry. */
  function HistoryUp(history: seq<string>, r: Recall): (s: Recall)
    requires IndexIn(history, r.index)
    ensures IndexIn(history, s.index)
    ensures history == [] ==> s == r
    ensures history != [] ==> s.index.Some? && s.buffer == history[s.index.value]
    ensures history != [] && r.index == None ==> s.index == Some(|history| - 1)
    ensures history != [] && r.index.Some? ==>
      s.index == Some(if r.index.value == 0 then 0 else r.index.value - 1)
  {
    if history == [] then r
    else
      var i := match r.index
        case None => |history| - 1
        case Some(j) => if j == 0 then 0 else j - 1;
      Recall(Some(i), history[i])
  }

  /** `history_down`: one newer; past the newest back to no selection with an
      empty command line; from no selection nothing happens. */
  function HistoryDown(history: seq<string>, r: Recall): (s: Recall)
    requires IndexIn(history, r.index)
    ensures IndexIn(history, s.index)
    ensures history == [] || r.index == None ==> s == r
    ensures history != [] && r.index.Some? && r.index.value == |history| - 1 ==> s == Recall(None, [])
    ensures history != [] && r.index.Some? && r.index.value < |history| - 1 ==>
      s == Recall(Some(r.index.value + 1), history[r.index.value + 1])
  {
    if history == [] then r
    else match r.index
      case None => r
      case Some(i) =>
        if i >= |history| - 1 then Recall(None, [])
        else Recall(Some(i + 1), history[i + 1])
  }

  /** Down undoes Up: back to the entry that was shown, or to an empty command
      line when no entry was selected. Only the oldest entry, where Up stops, is excluded. */
  lemma DownUndoesUp(history: seq<string>, r: Recall)
    requires history != [] && IndexIn(history, r.index) && r.index != Some(0)
    requires r.index.Some? ==> r.buffer == history[r.index.value]
    ensures HistoryDown(history, HistoryUp(history, r)) ==
      if r.index == None then Recall(None, []) else r
  {
  }

  /** `n` presses of Up. */
  function UpTimes(history: seq<string>, r: Recall, n: nat): (s: Recall)
    requires IndexIn(history, r.index)
    ensures IndexIn(history, s.index)
  {
    if n == 0 then r else HistoryUp(history, UpTimes(history, r, n - 1))
  }

  /** Pressing Up `n` times from a fresh command line walks back `n - 1`
      entries from the newest and stops at the oldest. */
  lemma {:induction false} UpTimesFromFresh(history: seq<string>, buffer: string, n: nat)
    requires history != [] && n > 0
    ensures UpTimes(history, Recall(None, buffer), n).index ==
      Some(if n <= |history| then |history| - n else 0)
  {
    if n > 1 {
      UpTimesFromFresh(history, buffer, n - 1);
    }
  }

  // ---------------------------------------------------------------------
  // Command suggestions

  /** The builtin command names offered as completions. */
  const Builtins: seq<string> := ["w", "q", "wq", "q!", "e", "help", "set", "vsplit", "split",
    "tabnew", "tabnext", "tabprev", "buffer", "bnext", "bprev"]

  /** Rust's order on strings: byte-wise on UTF-8, which is the order of the
      code point sequences, a proper prefix first. */
  predicate Less(a: string, b: string)
  {
    if a == [] then b != []
    else b != [] && (a[0] < b[0] || (a[0] == b[0] && Less(a[1..], b[1..])))
  }

  predicate LessEq(a: string, b: string) {
    a == b || Less(a, b)
  }

  lemma {:induction false} LessIrreflexive(a: string)
    ensures !Less(a, a)
  {
    if a != [] {
      LessIrreflexive(a[1..]);
    }
  }

  lemma {:induction false} LessTransitive(a: string, b: string, c: string)
    requires Less(a, b) && Less(b, c)
    ensures Less(a, c)
  {
    if a != [] && a[0] == b[0] && b[0] == c[0] {
      LessTransitive(a[1..], b[1..], c[1..]);
    }
  }

  lemma {:induction false} LessTotal(a: string, b: string)
    requires a != b
    ensures Less(a, b) || Less(b, a)
  {
    if a != [] && b != [] && a[0] == b[0] {
      assert a[1..] != b[1..] by {
        assert a == [a[0]] + a[1..] && b == [b[0]] + b[1..];
      }
      LessTotal(a[1..], b[1..]);
    }
  }

  lemma LessEqTransitive(a: string, b: string, c: string)
    requires LessEq(a, b) && LessEq(b, c)
    ensures LessEq(a, c)
  {
    if a != b && b != c {
      LessTransitive(a, b, c);
    }
  }

  predicate Sorted(s: seq<string>) {
    forall i, j :: 0 <= i < j < |s| ==> LessEq(s[i], s[j])
  }

  predicate StrictlySorted(s: seq<string>) {
    forall i, j :: 0 <= i < j < |s| ==> Less(s[i], s[j])
  }

  /** Strictly sorted means no item occurs twice. */
  lemma StrictlySortedDistinct(s: seq<string>, i: nat, j: nat)
    requires StrictlySorted(s) && i < j < |s|
    ensures s[i] != s[j]
  {
    LessIrreflexive(s[i]);
  }

  /** Insertion into a sorted sequence. */
  function Insert(x: string, s: seq<string>): (r: seq<string>)
    requires Sorted(s)
    ensures Sorted(r) && multiset(r) == multiset(s) + multiset{x}
  {
    if s == [] then [x]
    else if !Less(s[0], x) then
      assert LessEq(x, s[0]) by {
        if x != s[0] { LessTotal(x, s[0]); }
      }
      assert forall j :: 0 <= j < |s| ==> LessEq(x, s[j]) by {
        forall j | 0 <= j < |s| ensures LessEq(x, s[j]) {
          if j > 0 { LessEqTransitive(x, s[0], s[j]); }
        }
      }
      [x] + s
    else
      var rest := Insert(x, s[1..]);
      assert s == [s[0]] + s[1..];
      assert forall y :: y in rest ==> LessEq(s[0], y) by {
        forall y | y in rest ensures LessEq(s[0], y) {
          assert y in multiset(rest);
          if y != x {
            assert y in multiset(s[1..]);
            var j :| 0 <= j < |s[1..]| && s[1..][j] == y;
            assert s[j + 1] == y;
          }
        }
      }
      [s[0]] + rest
  }

  /** `Vec::sort` on strings (stable; the model does not need the stability). */
  function Sort(s: seq<string>): (r: seq<string>)
    ensures Sorted(r) && multiset(r) == multiset(s)
  {
    if s == [] then []
    else
      assert s == [s[0]] + s[1..];
      Insert(s[0], Sort(s[1..]))
  }

  /** `Vec::dedup`: drops each item equal to the one before it. */
  function Dedup(s: seq<string>): (r: seq<string>)
    requires Sorted(s)
    ensures StrictlySorted(r)
    ensures forall x :: x in r <==> x in s
    ensures |r| <= |s| && (s != [] ==> r != [] && r[0] == s[0])
  {
    if |s| <= 1 then s
    else
      var rest := Dedup(s[1..]);
      if s[0] == s[1] then rest
      else
        assert Less(s[0], rest[0]);
        assert forall j :: 0 <= j < |rest| ==> Less(s[0], rest[j]) by {
          forall j | 0 <= j < |rest| ensures Less(s[0], rest[j]) {
            if j > 0 { LessTransitive(s[0], rest[0], rest[j]); }
          }
        }
        [s[0]] + rest
  }

  // ---------------------------------------------------------------------
  // The state

  class UIState {
    var mode: Mode
    var statusMessage: string
    const statusManager: StatusManager
    var showHelp: bool
    var commandBuffer: string
    var shouldQuit: bool
    var commandHistory: seq<string>
    var historyIndex: Option<nat>

    /** The history index points into the history, which stays within its cap. */
    predicate Valid()
      reads this
    {
      IndexIn(commandHistory, historyIndex) && |commandHistory| <= HistoryCap
    }

    /** `UIState::new`. */
    constructor()
      ensures Valid() && fresh(statusManager)
      ensures mode == Normal && statusMessage == [] && !showHelp && commandBuffer == []
      ensures !shouldQuit && commandHistory == [] && historyIndex == None
      ensures statusManager.currentMessage == None && statusManager.modeMessage == []
    {
      mode := Normal;
      statusMessage := [];
      statusManager := new StatusManager();
      showHelp := false;
      commandBuffer := [];
      shouldQuit := false;
      commandHistory := [];
      historyIndex := None;
    }

    method SetMode(m: Mode)
      modifies this
      ensures mode == m
      ensures statusMessage == old(statusMessage) && showHelp == old(showHelp)
      ensures commandBuffer == old(commandBuffer) && shouldQuit == old(shouldQuit)
      ensures commandHistory == old(commandHistory) && historyIndex == old(historyIndex)
    {
      mode := m;
    }

    /** `toggle_help`: the overlay flips and the mode follows it. */
    method ToggleHelpOverlay()
      modifies this
      ensures (showHelp, mode) == ToggleHelp(old(showHelp), old(mode))
      ensures statusMessage == old(statusMessage) && commandBuffer == old(commandBuffer)
      ensures shouldQuit == old(shouldQuit)
      ensures commandHistory == old(commandHistory) && historyIndex == old(historyIndex)
    {
      showHelp := !showHelp;
      mode := if showHelp then Help else Normal;
    }

    /** `hide_help`. */
    method HideHelpOverlay()
      modifies this
      ensures (showHelp, mode) == HideHelp(old(showHelp), old(mode))
      ensures statusMessage == old(statusMessage) && commandBuffer == old(commandBuffer)
      ensures shouldQuit == old(shouldQuit)
      ensures commandHistory == old(commandHistory) && historyIndex == old(historyIndex)
    {
      showHelp := false;
      if mode == Help {
        mode := Normal;
      }
    }

    /** `enter_command_mode`: an empty command line and ":" on the status line. */
    method EnterCommandMode()
      modifies this
      ensures mode == Command && commandBuffer == [] && statusMessage == ":"
      ensures showHelp == old(showHelp) && shouldQuit == old(shouldQuit)
      ensures commandHistory == old(commandHistory) && historyIndex == old(historyIndex)
    {
      mode := Command;
      commandBuffer := [];
      statusMessage := ":";
    }

    /** `enter_search_mode`: a search is a command line that starts with "search ". */
    method EnterSearchMode()
      modifies this
      ensures mode == Command && commandBuffer == "search " && statusMessage == "/"
      ensures showHelp == old(showHelp) && shouldQuit == old(shouldQuit)
      ensures commandHistory == old(commandHistory) && historyIndex == old(historyIndex)
    {
      mode := Command;
      commandBuffer := "search ";
      statusMessage := "/";
    }

    /** The modes with a banner show it on the status line and as the mode message. */
    method EnterBannerMode(m: Mode, banner: string)
      modifies this, statusManager
      ensures mode == m && statusMessage == banner
      ensures statusManager.modeMessage == banner
      ensures statusManager.currentMessage == old(statusManager.currentMessage)
      ensures showHelp == old(showHelp) && commandBuffer == old(commandBuffer)
      ensures shouldQuit == old(shouldQuit)
      ensures commandHistory == old(commandHistory) && historyIndex == old(historyIndex)
    {
      mode := m;
      statusManager.SetModeMessage(banner);
      statusMessage := banner;
    }

    method EnterInsertMode()
      modifies this, statusManager
      ensures mode == Insert && statusMessage == "-- INSERT --"
      ensures statusManager.modeMessage == "-- INSERT --"
      ensures statusManager.currentMessage == old(statusManager.currentMessage)
      ensures showHelp == old(showHelp) && commandBuffer == old(commandBuffer)
      ensures shouldQuit == old(shouldQuit)
      ensures commandHistory == old(commandHistory) && historyIndex == old(historyIndex)
    {
      EnterBannerMode(Insert, "-- INSERT --");
    }

    /** `enter_normal_mode`: no banner. */
    method EnterNormalMode()
      modifies this, statusManager
      ensures mode == Normal && statusMessage == []
      ensures statusManager.modeMessage == []
      ensures statusManager.currentMessage == old(statusManager.currentMessage)
      ensures showHelp == old(showHelp) && commandBuffer == old(commandBuffer)
      ensures shouldQuit == old(shouldQuit)
      ensures commandHistory == old(commandHistory) && historyIndex == old(historyIndex)
    {
      EnterBannerMode(Normal, []);
    }

    method EnterVisualMode()
      modifies this, statusManager
      ensures mode == Visual && statusMessage == "-- VISUAL --"
      ensures statusManager.modeMessage == "-- VISUAL --"
      ensures statusManager.currentMessage == old(statusManager.currentMessage)
      ensures showHelp == old(showHelp) && commandBuffer == old(commandBuffer)
      ensures shouldQuit == old(shouldQuit)
      ensures commandHistory == old(commandHistory) && historyIndex == old(historyIndex)
    {
      EnterBannerMode(Visual, "-- VISUAL --");
    }

    method EnterVisualBlockMode()
      modifies this, statusManager
      ensures mode == VisualBlock && statusMessage == "-- VISUAL BLOCK --"
      ensures statusManager.modeMessage == "-- VISUAL BLOCK --"
      ensures statusManager.currentMessage == old(statusManager.currentMessage)
      ensures showHelp == old(showHelp) && commandBuffer == old(commandBuffer)
      ensures shouldQuit == old(shouldQuit)
      ensures commandHistory == old(commandHistory) && historyIndex == old(historyIndex)
    {
      EnterBannerMode(VisualBlock, "-- VISUAL BLOCK --");
    }

    method EnterReplaceMode()
      modifies this, statusManager
      ensures mode == Replace && statusMessage == "-- REPLACE --"
      ensures statusManager.modeMessage == "-- REPLACE --"
      ensures statusManager.currentMessage == old(statusManager.currentMessage)
      ensures showHelp == old(showHelp) && commandBuffer == old(commandBuffer)
      ensures shouldQuit == old(shouldQuit)
      ensures commandHistory == old(commandHistory) && historyIndex == old(historyIndex)
    {
      EnterBannerMode(Replace, "-- REPLACE --");
    }

    method SetCommandBuffer(buffer: string)
      modifies this
      ensures commandBuffer == buffer
      ensures mode == old(mode) && statusMessage == old(statusMessage) && showHelp == old(showHelp)
      ensures shouldQuit == old(shouldQuit)
      ensures commandHistory == old(commandHistory) && historyIndex == old(historyIndex)
    {
      commandBuffer := buffer;
    }

    method ClearCommandBuffer()
      modifies this
      ensures commandBuffer == []
      ensures mode == old(mode) && statusMessage == old(statusMessage) && showHelp == old(showHelp)
      ensures shouldQuit == old(shouldQuit)
      ensures commandHistory == old(commandHistory) && historyIndex == old(historyIndex)
    {
      commandBuffer := [];
    }

    method PushToCommandBuffer(c: char)
      modifies this
      ensures commandBuffer == old(commandBuffer) + [c]
      ensures mode == old(mode) && statusMessage == old(statusMessage) && showHelp == old(showHelp)
      ensures shouldQuit == old(shouldQuit)
      ensures commandHistory == old(commandHistory) && historyIndex == old(historyIndex)
    {
      commandBuffer := commandBuffer + [c];
    }

    /** `String::pop`: the last character goes; an empty line stays empty. */
    method PopFromCommandBuffer()
      modifies this
      ensures old(commandBuffer) == [] ==> commandBuffer == []
      ensures old(commandBuffer) != [] ==>
        commandBuffer == old(commandBuffer)[..|old(commandBuffer)| - 1]
      ensures mode == old(mode) && statusMessage == old(statusMessage) && showHelp == old(showHelp)
      ensures shouldQuit == old(shouldQuit)
      ensures commandHistory == old(commandHistory) && historyIndex == old(historyIndex)
    {
      if commandBuffer != [] {
        commandBuffer := commandBuffer[..|commandBuffer| - 1];
      }
    }

    method Quit()
      modifies this
      ensures shouldQuit
      ensures mode == old(mode) && statusMessage == old(statusMessage) && showHelp == old(showHelp)
      ensures commandBuffer == old(commandBuffer)
      ensures commandHistory == old(commandHistory) && historyIndex == old(historyIndex)
    {
      shouldQuit := true;
    }

    /** `set_info_message` and its siblings: the status line and the manager get the message. */
    method SetStatus(message: string, t: MessageType, now: nat)
      modifies this, statusManager
      ensures statusMessage == message
      ensures statusManager.currentMessage == Some(NewMessage(message, t, now))
      ensures statusManager.modeMessage == old(statusManager.modeMessage)
      ensures mode == old(mode) && showHelp == old(showHelp) && commandBuffer == old(commandBuffer)
      ensures shouldQuit == old(shouldQuit)
      ensures commandHistory == old(commandHistory) && historyIndex == old(historyIndex)
    {
      statusMessage := message;
      statusManager.SetMessage(message, t, now);
    }

    /** `update_status`: the manager drops an expired message; the status line
        shows the current message, or is cleared when there is neither a
        message nor a mode message, and is otherwise kept. */
    method UpdateStatus(now: nat)
      modifies this, statusManager
      ensures statusManager.currentMessage == AfterUpdate(old(statusManager.currentMessage), now)
      ensures statusManager.modeMessage == old(statusManager.modeMessage)
      ensures statusManager.currentMessage.Some? ==>
        statusMessage == statusManager.currentMessage.value.content
      ensures statusManager.currentMessage.None? && statusManager.modeMessage == [] ==>
        statusMessage == []
      ensures statusManager.currentMessage.None? && statusManager.modeMessage != [] ==>
        statusMessage == old(statusMessage)
      ensures mode == old(mode) && showHelp == old(showHelp) && commandBuffer == old(commandBuffer)
      ensures shouldQuit == old(shouldQuit)
      ensures commandHistory == old(commandHistory) && historyIndex == old(historyIndex)
    {
      statusManager.Update(now);
      match statusManager.currentMessage {
        case Some(m) => statusMessage := m.content;
        case None =>
          if statusManager.modeMessage == [] {
            statusMessage := [];
          }
      }
    }

    /** `add_to_history`: the selection is always reset. */
    method AddCommandToHistory(command: string)
      requires Valid()
      modifies this
      ensures Valid()
      ensures commandHistory == AddToHistory(old(commandHistory), command) && historyIndex == None
      ensures mode == old(mode) && statusMessage == old(statusMessage) && showHelp == old(showHelp)
      ensures commandBuffer == old(commandBuffer) && shouldQuit == old(shouldQuit)
    {
      if command != [] && (commandHistory == [] || commandHistory[|commandHistory| - 1] != command) {
        commandHistory := commandHistory + [command];
        if |commandHistory| > HistoryCap {
          commandHistory := commandHistory[1..];
        }
      }
      historyIndex := None;
    }

    /** `history_up`. */
    method HistoryUpKey()
      requires Valid()
      modifies this
      ensures Valid()
      ensures Recall(historyIndex, commandBuffer) ==
        HistoryUp(old(commandHistory), Recall(old(historyIndex), old(commandBuffer)))
      ensures commandHistory == old(commandHistory)
      ensures mode == old(mode) && statusMessage == old(statusMessage) && showHelp == old(showHelp)
      ensures shouldQuit == old(shouldQuit)
    {
      if commandHistory == [] {
        return;
      }
      var newIndex := match historyIndex
        case None => |commandHistory| - 1
        case Some(i) => if i == 0 then 0 else i - 1;
      historyIndex := Some(newIndex);
      commandBuffer := commandHistory[newIndex];
    }

    /** `history_down`. */
    method HistoryDownKey()
      requires Valid()
      modifies this
      ensures Valid()
      ensures Recall(historyIndex, commandBuffer) ==
        HistoryDown(old(commandHistory), Recall(old(historyIndex), old(commandBuffer)))
      ensures commandHistory == old(commandHistory)
      ensures mode == old(mode) && statusMessage == old(statusMessage) && showHelp == old(showHelp)
      ensures shouldQuit == old(shouldQuit)
    {
      if commandHistory == [] {
        return;
      }
      match historyIndex {
        case None =>
        case Some(i) =>
          if i >= |commandHistory| - 1 {
            historyIndex := None;
            commandBuffer := [];
          } else {
            historyIndex := Some(i + 1);
            commandBuffer := commandHistory[i + 1];
          }
      }
    }

    /** `get_command_suggestions`: the builtins and history entries that start
        with the prefix, each once, in ascending order. */
    method GetCommandSuggestions(prefix: string) returns (r: seq<string>)
      ensures StrictlySorted(r)
      ensures forall x :: x in r <==> StartsWith(x, prefix) && (x in Builtins || x in commandHistory)
    {
      var suggestions: seq<string> := [];
      var i := 0;
      while i < |Builtins|
        invariant 0 <= i <= |Builtins|
        invariant forall x :: x in suggestions <==> x in Builtins[..i] && StartsWith(x, prefix)
      {
        if StartsWith(Builtins[i], prefix) {
          suggestions := suggestions + [Builtins[i]];
        }
        assert Builtins[..i + 1] == Builtins[..i] + [Builtins[i]];
        i := i + 1;
      }
      assert Builtins[..i] == Builtins;
      var k := 0;
      while k < |commandHistory|
        invariant 0 <= k <= |commandHistory|
        invariant forall x :: x in suggestions <==>
          StartsWith(x, prefix) && (x in Builtins || x in commandHistory[..k])
      {
        var command := commandHistory[k];
        if StartsWith(command, prefix) && command !in suggestions {
          suggestions := suggestions + [command];
        }
        assert commandHistory[..k + 1] == commandHistory[..k] + [command];
        k := k + 1;
      }
      assert commandHistory[..k] == commandHistory;
      var sorted := Sort(suggestions);
      assert forall x :: x in sorted <==> x in suggestions by {
        forall x ensures x in sorted <==> x in suggestions {
          assert x in sorted <==> x in multiset(sorted);
          assert x in suggestions <==> x in multiset(suggestions);
        }
      }
      r := Dedup(sorted);
    }
  }
}
