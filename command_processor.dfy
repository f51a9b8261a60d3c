/**
 * The `:` command line (`CommandProcessor::execute_command`).
 *
 * The command is trimmed and split into words; the first word selects the
 * command. Files, sessions and the configuration live outside this model:
 * what each of their operations returns is given in `Io`, and the result of
 * a command lists, in order, the `Effect`s it asked of the editor and the
 * environment. Buffer and window commands are only recorded as the pending
 * action, which the application carries out afterwards.
 */
module Commands {
  import opened Wrappers
  import opened Unicode

  datatype BufferCommand = Next | Previous | List | DeleteCurrent
  datatype WindowCommand = SplitHorizontal | SplitVertical
  datatype CommandAction = NoAction | Buffer(buffer: BufferCommand) | Window(window: WindowCommand)

  /** The editor settings a session restores. */
  datatype EditorSettings = EditorSettings(
    tabSize: nat, useSpaces: bool, lineNumbers: bool, highlightCurrentLine: bool, wrapLines: bool)

  /** What `SessionManager::load_session` hands back. */
  datatype SessionData = SessionData(
    currentFile: Option<string>, cursorLine: nat, cursorCol: nat, viewportOffset: nat,
    settings: EditorSettings)

  /** One entry of `list_sessions`, its time already written as `%Y-%m-%d %H:%M:%S`. */
  datatype SessionInfo = SessionInfo(name: string, modifiedAt: string)

  /** The outcome of each outside operation a command may perform (an error is its message). */
  datatype Io = Io(
    saveAs: Result<string, string>,
    save: Result<string, string>,
    open: Result<string, string>,
    saveSession: Result<string, string>,
    loadSession: Result<SessionData, string>,
    listSessions: Result<seq<SessionInfo>, string>,
    deleteSession: Result<string, string>)

  /** What a command asks of the editor, the files, the sessions and the configuration. */
  datatype Effect =
    | Search(query: string)
    | SaveAs(path: string)
    | Save
    | Open(path: string)
    | SetContent(text: string)
    | SetCursor(line: nat, col: nat)
    | SetViewportOffset(offset: nat)
    | RestoreSettings(settings: EditorSettings)
    | SaveSession(name: string)
    | LoadSession(name: string)
    | ListSessions
    | DeleteSession(name: string)
    | SetTheme(theme: string)
    | SaveConfig

  /** The reply, the new `should_quit`, the pending action and the effects, in order. */
  datatype Outcome = Outcome(
    result: Result<string, string>, quit: bool, action: Option<CommandAction>, effects: seq<Effect>)

  const NoFileName := "ファイル名が指定されていません"
  const UnsavedWarning := "変更が保存されていません (:q! で強制終了)"
  const SearchPrefix := "search "

  /** The action each buffer and window command name stands for. */
  function AliasAction(name: string): (r: Option<CommandAction>)
    ensures r.Some? <==> name in {"split", "sp", "vsplit", "vsp", "bnext", "bn", "bprev", "bp",
      "buffers", "ls", "bdelete", "bd"}
    ensures r.Some? ==> r.value != NoAction
  {
    if name == "split" || name == "sp" then Some(Window(SplitHorizontal))
    else if name == "vsplit" || name == "vsp" then Some(Window(SplitVertical))
    else if name == "bnext" || name == "bn" then Some(Buffer(Next))
    else if name == "bprev" || name == "bp" then Some(Buffer(Previous))
    else if name == "buffers" || name == "ls" then Some(Buffer(List))
    else if name == "bdelete" || name == "bd" then Some(Buffer(DeleteCurrent))
    else None
  }

  /** `str::trim_end`. */
  function TrimEnd(s: string): (r: string)
    ensures |r| <= |s| && r == s[..|r|]
    ensures r == [] || !IsWhitespace(r[|r| - 1])
  {
    s[..|s| - TrailingWhitespace(s)]
  }

  /** The `:sessions` lines, one per session, each ended by a newline. */
  function SessionLines(sessions: seq<SessionInfo>): string
  {
    if sessions == [] then []
    else
      var s := sessions[|sessions| - 1];
      SessionLines(sessions[..|sessions| - 1]) + "  " + s.name + " (更新日時: " + s.modifiedAt + ")\n"
  }

  /** `:sessions`: the list, or a note that there is none. */
  function SessionListing(sessions: seq<SessionInfo>): string
  {
    if sessions == [] then "セッションは見つかりません"
    else TrimEnd("利用可能なセッション:\n" + SessionLines(sessions))
  }

  /** The `:source` steps after the session itself has loaded. */
  function RestoreSession(name: string, data: SessionData, quit: bool, io: Io): Outcome
  {
    var restore := [SetCursor(data.cursorLine, data.cursorCol),
      SetViewportOffset(data.viewportOffset), RestoreSettings(data.settings)];
    var reply := Ok("セッション '" + name + "' を読み込みました");
    match data.currentFile
    case Some(path) =>
      (match io.open
       case Err(e) => Outcome(Err(e), quit, None, [LoadSession(name), Open(path)])
       case Ok(content) =>
         Outcome(reply, quit, None, [LoadSession(name), Open(path), SetContent(content)] + restore))
    case None => Outcome(reply, quit, None, [LoadSession(name), SetContent([])] + restore)
  }

  /** The command selected by the first word `parts[0]`; `quit` is `should_quit` on entry. */
  function Dispatch(parts: seq<string>, modified: bool, hasFile: bool, quit: bool, io: Io): Outcome
  {
    if parts == [] then Outcome(Ok([]), quit, None, [])
    else
      var name := parts[0];
      if name == "w" then
        if |parts| > 1 then Outcome(io.saveAs, quit, None, [SaveAs(parts[1])])
        else if hasFile then Outcome(io.save, quit, None, [Save])
        else Outcome(Err(NoFileName), quit, None, [])
      else if name == "q" then
        if modified then Outcome(Ok(UnsavedWarning), quit, None, [])
        else Outcome(Ok("終了します"), true, None, [])
      else if name == "q!" then Outcome(Ok("強制終了します"), true, None, [])
      else if name == "wq" then
        if hasFile then
          match io.save
          case Err(e) => Outcome(Err(e), quit, None, [Save])
          case Ok(m) => Outcome(Ok(m + "。エディタを終了します"), true, None, [Save])
        else Outcome(Err(NoFileName), quit, None, [])
      else if name == "e" then
        if |parts| > 1 then
          match io.open
          case Err(e) => Outcome(Err(e), quit, None, [Open(parts[1])])
          case Ok(content) =>
            Outcome(Ok("ファイルを開きました"), quit, None, [Open(parts[1]), SetContent(content)])
        else Outcome(Err("E471: 引数が必要です"), quit, None, [])
      else if AliasAction(name).Some? then Outcome(Ok([]), quit, AliasAction(name), [])
      else if name == "mksession" then
        if |parts| > 1 then Outcome(io.saveSession, quit, None, [SaveSession(parts[1])])
        else Outcome(Err("使い方: :mksession <名前>"), quit, None, [])
      else if name == "source" then
        if |parts| > 1 then
          match io.loadSession
          case Err(e) => Outcome(Err(e), quit, None, [LoadSession(parts[1])])
          case Ok(data) => RestoreSession(parts[1], data, quit, io)
        else Outcome(Err("使い方: :source <セッション名>"), quit, None, [])
      else if name == "sessions" then
        match io.listSessions
        case Err(e) => Outcome(Err(e), quit, None, [ListSessions])
        case Ok(sessions) => Outcome(Ok(SessionListing(sessions)), quit, None, [ListSessions])
      else if name == "delsession" then
        if |parts| > 1 then Outcome(io.deleteSession, quit, None, [DeleteSession(parts[1])])
        else Outcome(Err("使い方: :delsession <セッション名>"), quit, None, [])
      else if name == "set" then
        if |parts| == 3 && parts[1] == "theme" then
          Outcome(Ok("テーマを '" + parts[2] + "' に設定しました"), quit, None,
            [SetTheme(parts[2]), SaveConfig])
        else Outcome(Err("使い方: :set theme <テーマ名>"), quit, None, [])
      else Outcome(Err("E492: 未定義のコマンドです: " + name), quit, None, [])
  }

  /** `execute_command`: an empty command does nothing; "search " followed by
      a query searches; anything else is dispatched on its words. */
  function Execute(command: string, modified: bool, hasFile: bool, quit: bool, io: Io): Outcome
  {
    var cmd := Trim(command);
    if cmd == [] then Outcome(Ok([]), quit, None, [])
    else if StartsWith(cmd, SearchPrefix) && cmd[|SearchPrefix|..] != [] then
      var query := cmd[|SearchPrefix|..];
      Outcome(Ok("検索: " + query), quit, None, [Search(query)])
    else Dispatch(Words(cmd), modified, hasFile, quit, io)
  }

  // ---------------------------------------------------------------------
  // What the dispatch promises

  /** An empty or blank command answers "" and does nothing. */
  lemma BlankCommandDoesNothing(command: string, modified: bool, hasFile: bool, quit: bool, io: Io)
    requires forall i :: 0 <= i < |command| ==> IsWhitespace(command[i])
    ensures Execute(command, modified, hasFile, quit, io) == Outcome(Ok([]), quit, None, [])
  {
  }

  /** A word followed by a space is the first word of a trimmed command. */
  lemma {:induction false} FirstWordBeforeSpace(cmd: string, word: string)
    requires cmd != [] && !IsWhitespace(cmd[0])
    requires IsWord(word) && StartsWith(cmd, word + " ")
    ensures Words(cmd) != [] && Words(cmd)[0] == word
  {
    assert LeadingWhitespace(cmd) == 0;
    assert cmd[..|word|] == word;
    var n := WordLength(cmd);
    assert IsWhitespace(cmd[|word|]) by { assert cmd[|word|] == (word + " ")[|word|]; }
  }

  /** "search <query>" searches for the rest of the trimmed command, which is never empty. */
  lemma SearchCommand(command: string, modified: bool, hasFile: bool, quit: bool, io: Io)
    requires StartsWith(Trim(command), SearchPrefix)
    ensures var query := Trim(command)[|SearchPrefix|..];
      query != [] &&
      Execute(command, modified, hasFile, quit, io) == Outcome(Ok("検索: " + query), quit, None, [Search(query)])
  {
    var cmd := Trim(command);
    assert cmd[|cmd| - 1] != ' ';
    assert cmd[|SearchPrefix| - 1] == ' ';
  }

  /** A command whose first word is not "search" is dispatched on its words. */
  lemma {:induction false} ExecuteDispatchesOnWords(command: string, modified: bool, hasFile: bool, quit: bool, io: Io)
    requires Trim(command) != [] && Words(Trim(command))[0] != "search"
    ensures Execute(command, modified, hasFile, quit, io) ==
      Dispatch(Words(Trim(command)), modified, hasFile, quit, io)
  {
    NotSearchPrefixed(Trim(command));
  }

  /** A trimmed command whose first word is not "search" does not start with "search ". */
  lemma NotSearchPrefixed(cmd: string)
    requires cmd != [] && !IsWhitespace(cmd[0])
    requires Words(cmd) != [] && Words(cmd)[0] != "search"
    ensures !StartsWith(cmd, SearchPrefix)
  {
    if StartsWith(cmd, SearchPrefix) {
      assert SearchPrefix == "search" + " ";
      FirstWordBeforeSpace(cmd, "search");
    }
  }

  /** Only "q", "q!" and "wq" may change `should_quit`, and they only ever set it. */
  lemma OnlyQuitCommandsQuit(parts: seq<string>, modified: bool, hasFile: bool, quit: bool, io: Io)
    ensures var o := Dispatch(parts, modified, hasFile, quit, io);
      (o.quit != quit ==> o.quit && parts != [] && parts[0] in {"q", "q!", "wq"})
  {
  }

  /** ":q" refuses to leave a modified buffer, and leaves an unmodified one. */
  lemma QuitCommand(rest: seq<string>, modified: bool, hasFile: bool, quit: bool, io: Io)
    ensures var o := Dispatch(["q"] + rest, modified, hasFile, quit, io);
      o.effects == [] && o.action == None &&
      (modified ==> o.result == Ok(UnsavedWarning) && o.quit == quit) &&
      (!modified ==> o.result == Ok("終了します") && o.quit)
  {
  }

  /** ":q!" always leaves. */
  lemma ForceQuitCommand(rest: seq<string>, modified: bool, hasFile: bool, quit: bool, io: Io)
    ensures var o := Dispatch(["q!"] + rest, modified, hasFile, quit, io);
      o == Outcome(Ok("強制終了します"), true, None, [])
  {
  }

  /** Without a file, ":w" with no name and ":wq" fail before saving and do not quit. */
  lemma WriteWithoutFile(rest: seq<string>, modified: bool, quit: bool, io: Io)
    ensures Dispatch(["w"], modified, false, quit, io) == Outcome(Err(NoFileName), quit, None, [])
    ensures Dispatch(["wq"] + rest, modified, false, quit, io) == Outcome(Err(NoFileName), quit, None, [])
  {
  }

  /** ":wq" quits exactly when the save succeeds. */
  lemma WriteQuitQuitsOnlyAfterSave(rest: seq<string>, modified: bool, quit: bool, io: Io)
    ensures var o := Dispatch(["wq"] + rest, modified, true, quit, io);
      o.effects == [Save] && (o.result.Ok? <==> io.save.Ok?) &&
      (io.save.Ok? ==> o.quit) && (io.save.Err? ==> o.quit == quit && o.result == io.save)
  {
  }

  /** Each buffer and window alias records its action, answers "" and does nothing else. */
  lemma AliasRecordsAction(name: string, rest: seq<string>, modified: bool, hasFile: bool, quit: bool, io: Io)
    requires AliasAction(name).Some?
    ensures Dispatch([name] + rest, modified, hasFile, quit, io) ==
      Outcome(Ok([]), quit, AliasAction(name), [])
  {
  }

  /** Only the aliases leave an action behind. */
  lemma ActionOnlyFromAliases(parts: seq<string>, modified: bool, hasFile: bool, quit: bool, io: Io)
    ensures var o := Dispatch(parts, modified, hasFile, quit, io);
      o.action.Some? ==> parts != [] && o.action == AliasAction(parts[0])
  {
  }

  /** ":e" needs a file name. */
  lemma EditNeedsArgument(modified: bool, hasFile: bool, quit: bool, io: Io)
    ensures Dispatch(["e"], modified, hasFile, quit, io) == Outcome(Err("E471: 引数が必要です"), quit, None, [])
  {
  }

  /** ":set" succeeds exactly for three words with "theme" in the middle. */
  lemma SetNeedsThemeAndName(parts: seq<string>, modified: bool, hasFile: bool, quit: bool, io: Io)
    requires parts != [] && parts[0] == "set"
    ensures var o := Dispatch(parts, modified, hasFile, quit, io);
      (o.result.Ok? <==> |parts| == 3 && parts[1] == "theme") &&
      (o.result.Ok? ==> o.effects == [SetTheme(parts[2]), SaveConfig])
  {
  }

  /** Any other first word is E492, naming the word. */
  lemma UnknownCommand(parts: seq<string>, modified: bool, hasFile: bool, quit: bool, io: Io)
    requires parts != [] && AliasAction(parts[0]).None?
    requires parts[0] !in {"w", "q", "q!", "wq", "e", "mksession", "source", "sessions", "delsession", "set"}
    ensures Dispatch(parts, modified, hasFile, quit, io) ==
      Outcome(Err("E492: 未定義のコマンドです: " + parts[0]), quit, None, [])
  {
  }

  /** The session listing drops the newline after its last line and nothing else. */
  lemma {:induction false} SessionListingEndsWithLastEntry(sessions: seq<SessionInfo>)
    requires sessions != []
    ensures var last := sessions[|sessions| - 1];
      SessionListing(sessions) ==
        "利用可能なセッション:\n" + SessionLines(sessions[..|sessions| - 1]) + "  " + last.name
        + " (更新日時: " + last.modifiedAt + ")"
  {
    var last := sessions[|sessions| - 1];
    var body := "利用可能なセッション:\n" + SessionLines(sessions[..|sessions| - 1]) + "  " + last.name
      + " (更新日時: " + last.modifiedAt + ")";
    var s := body + "\n";
    assert "利用可能なセッション:\n" + SessionLines(sessions) == s;
    assert TrailingWhitespace(s) == 1 by {
      assert s[..|s| - 1] == body;
      assert body[|body| - 1] == ')';
    }
  }

  // ---------------------------------------------------------------------
  // The processor

  class CommandProcessor {
    var pendingAction: Option<CommandAction>

    /** `CommandProcessor::new`; the session store it opens is outside this model. */
    constructor()
      ensures pendingAction == None
    {
      pendingAction := None;
    }

    /** `take_pending_action`: hands the action over and forgets it. */
    method TakePendingAction() returns (action: Option<CommandAction>)
      modifies this
      ensures action == old(pendingAction) && pendingAction == None
    {
      action := pendingAction;
      pendingAction := None;
    }

    /** `execute_command`: the pending action is reset first, so only this
        command's action, if any, is left behind. */
    method ExecuteCommand(command: string, modified: bool, hasFile: bool, shouldQuit: bool, io: Io)
      returns (result: Result<string, string>, quit: bool, effects: seq<Effect>)
      modifies this
      ensures var o := Execute(command, modified, hasFile, shouldQuit, io);
        result == o.result && quit == o.quit && effects == o.effects && pendingAction == o.action
    {
      pendingAction := None;
      var cmd := Trim(command);
      if cmd == [] {
        return Ok([]), shouldQuit, [];
      }
      if StartsWith(cmd, SearchPrefix) {
        var query := cmd[|SearchPrefix|..];
        if query != [] {
          return Ok("検索: " + query), shouldQuit, [Search(query)];
        }
      }
      var o := Dispatch(Words(cmd), modified, hasFile, shouldQuit, io);
      pendingAction := o.action;
      result, quit, effects := o.result, o.quit, o.effects;
    }
  }
}
