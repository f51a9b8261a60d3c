/**
 * The editor-facing side of the LSP plugin (`ScriptorisLspPlugin`): which
 * language a file is opened as, how hover contents become text, which
 * location a definition request goes to, which keys and `:` commands the
 * plugin claims, and the current-file bookkeeping around the calls into the
 * language-server core. The core's answers are parameters; what the plugin
 * asks of the core is returned as a `CoreCall`.
 */
module LspPlugin {
  import opened Wrappers
  import opened Ints
  import opened Unicode
  import opened Keys
  import opened Paths
  import opened LspTypes
  import App

  // ---------------------------------------------------------------------
  // Language of an opened file

  /** The language ids the plugin can open a document as. */
  const LanguageIds: set<string> :=
    {"rust", "typescript", "javascript", "python", "go", "c", "cpp", "java", "markdown", "json", "yaml", "toml", "plaintext"}

  /** The language id for a file extension; any other extension is plain text. */
  function LanguageOf(ext: string): (r: string)
    ensures r in LanguageIds
    ensures r == "markdown" <==> ext == "md"
    ensures r == "rust" <==> ext == "rs"
    ensures r == "cpp" <==> ext in {"cpp", "cc", "cxx"}
  {
    if ext == "rs" then "rust"
    else if ext == "ts" || ext == "tsx" then "typescript"
    else if ext == "js" || ext == "jsx" then "javascript"
    else if ext == "py" then "python"
    else if ext == "go" then "go"
    else if ext == "c" then "c"
    else if ext == "cpp" || ext == "cc" || ext == "cxx" then "cpp"
    else if ext == "java" then "java"
    else if ext == "md" then "markdown"
    else if ext == "json" then "json"
    else if ext == "yaml" || ext == "yml" then "yaml"
    else if ext == "toml" then "toml"
    else "plaintext"
  }

  /** The language id `open_file` sends with the document. */
  function PluginLanguageId(path: string): (r: string)
    ensures Extension(path).None? ==> r == "plaintext"
    ensures r in LanguageIds
    ensures r == "markdown" <==> Extension(path) == Some("md")
  {
    match Extension(path)
    case None => "plaintext"
    case Some(ext) => LanguageOf(ext)
  }

  /** The plugin and the editor's own detection agree on the extensions both know ... */
  lemma AgreesWithEditor(path: string)
    requires Extension(path).Some?
    requires Extension(path).value in {"rs", "ts", "js", "py", "md", "json", "yaml", "yml", "toml"}
    ensures PluginLanguageId(path) == App.DetectLanguageId(path)
  {
    ExtensionsAgree(Extension(path).value);
  }

  /** Extension by extension, the two tables give the same language id. */
  lemma ExtensionsAgree(ext: string)
    requires ext in {"rs", "ts", "js", "py", "md", "json", "yaml", "yml", "toml"}
    ensures LanguageOf(ext) == App.LanguageOfExtension(ext)
  {
    if ext == "rs" {
    } else if ext == "ts" {
    } else if ext == "js" {
    } else if ext == "py" {
    } else if ext == "md" {
    } else if ext == "json" {
    } else if ext == "yaml" {
    } else if ext == "yml" {
    } else {
      assert ext == "toml";
    }
  }


  /** ... but not on React sources, which the editor names apart and the plugin does not. */
  lemma DiffersFromEditorOnReact(path: string)
    requires Extension(path) == Some("jsx") || Extension(path) == Some("tsx")
    ensures PluginLanguageId(path) != App.DetectLanguageId(path)
    ensures App.DetectLanguageId(path) in {"javascriptreact", "typescriptreact"}
  {
  }

  // ---------------------------------------------------------------------
  // Hover text

  /** The fenced code block a language string is shown as. */
  function Fenced(language: string, value: string): string {
    "```" + language + "\n" + value + "\n```"
  }

  function MarkedText(m: MarkedString): string {
    match m
    case Plain(s) => s
    case LanguageString(language, value) => Fenced(language, value)
  }

  /** Each marked string rendered, in order. */
  function RenderAll(items: seq<MarkedString>): (r: seq<string>)
    ensures |r| == |items|
    ensures forall i :: 0 <= i < |items| ==> r[i] == MarkedText(items[i])
  {
    if items == [] then [] else RenderAll(items[..|items| - 1]) + [MarkedText(items[|items| - 1])]
  }

  /** The text `get_hover_at_cursor` returns for the hover contents. */
  function HoverText(h: HoverContents): string {
    match h
    case Scalar(m) => MarkedText(m)
    case Array(items) => Join(RenderAll(items), "\n\n")
    case Markup(_, value) => value
  }

  /** A fenced block opens with the language line and closes with the fence,
      and the value can be read back from between them. */
  lemma FenceRecoversValue(language: string, value: string)
    ensures var f := Fenced(language, value);
      |f| == |language| + |value| + 8
      && f[..|language| + 4] == "```" + language + "\n"
      && f[|language| + 4..|f| - 4] == value
      && f[|f| - 4..] == "\n```"
  {
    var f := Fenced(language, value);
    assert f == ("```" + language + "\n") + value + "\n```";
  }

  /** An array of one item shows that item alone, with no separator. */
  lemma SingleItemHover(m: MarkedString)
    ensures HoverText(Array([m])) == MarkedText(m)
  {
    assert RenderAll([m]) == [MarkedText(m)] by {
      assert [m][..0] == [];
    }
  }

  /** Adding an item to a non-empty array adds a blank line and the item's text. */
  lemma HoverArraySnoc(items: seq<MarkedString>, m: MarkedString)
    requires items != []
    ensures HoverText(Array(items + [m])) == HoverText(Array(items)) + "\n\n" + MarkedText(m)
  {
    assert (items + [m])[..|items|] == items;
  }

  function TotalLength(parts: seq<string>): nat {
    if parts == [] then 0 else TotalLength(parts[..|parts| - 1]) + |parts[|parts| - 1]|
  }

  /** `join` adds exactly one separator between neighbours. */
  lemma {:induction false} JoinLength(parts: seq<string>, sep: string)
    requires parts != []
    ensures |Join(parts, sep)| == TotalLength(parts) + |sep| * (|parts| - 1)
    decreases |parts|
  {
    if |parts| > 1 {
      JoinLength(parts[..|parts| - 1], sep);
    } else {
      assert parts[..0] == [];
    }
  }

  /** The text of an array of n items is their texts plus n - 1 blank-line separators. */
  lemma HoverArrayLength(items: seq<MarkedString>)
    requires items != []
    ensures |HoverText(Array(items))| == TotalLength(RenderAll(items)) + 2 * (|items| - 1)
  {
    JoinLength(RenderAll(items), "\n\n");
  }

  // ---------------------------------------------------------------------
  // Definition target

  function LinkTarget(link: LocationLink): Location {
    Location(link.targetUri, link.targetSelectionRange)
  }

  /** The location `goto_definition_at_cursor` returns for a response. */
  function GotoChoice(response: GotoDefinitionResponse): (r: Option<Location>)
    ensures response.ScalarLocation? ==> r == Some(response.location)
    ensures response.Locations? ==> (r.None? <==> response.locations == [])
    ensures response.Links? ==> (r.None? <==> response.links == [])
  {
    match response
    case ScalarLocation(location) => Some(location)
    case Locations(locations) => if locations == [] then None else Some(locations[0])
    case Links(links) => if links == [] then None else Some(LinkTarget(links[0]))
  }

  /** Every location a response offers. */
  function Candidates(response: GotoDefinitionResponse): (r: seq<Location>)
    ensures |r| >= 1 || !response.ScalarLocation?
  {
    match response
    case ScalarLocation(location) => [location]
    case Locations(locations) => locations
    case Links(links) => seq(|links|, i requires 0 <= i < |links| => LinkTarget(links[i]))
  }

  /** The choice is the first candidate, and there is one whenever any is offered. */
  lemma GotoTakesFirstCandidate(response: GotoDefinitionResponse)
    ensures GotoChoice(response).Some? <==> Candidates(response) != []
    ensures GotoChoice(response).Some? ==> GotoChoice(response).value == Candidates(response)[0]
  {
  }

  /** Later locations never matter. */
  lemma GotoIgnoresRest(first: Location, rest: seq<Location>, link: LocationLink, links: seq<LocationLink>)
    ensures GotoChoice(Locations([first] + rest)) == Some(first)
    ensures GotoChoice(Links([link] + links)) == Some(Location(link.targetUri, link.targetSelectionRange))
  {
  }

  // ---------------------------------------------------------------------
  // Keys

  datatype RequestKind = CompletionRequest | HoverRequest | DefinitionRequest

  /** A request the plugin starts for the cursor position. */
  datatype CursorRequest = CursorRequest(kind: RequestKind, at: Position)

  /**
   * `on_key`: Ctrl+Space asks for completions, Ctrl+K for hover and Ctrl+right-bracket
   * for the definition, at the cursor truncated to `u32`; the key is then
   * claimed. Every other key is left to the editor.
   */
  function OnKey(key: KeyEvent, line: nat, col: nat): (r: Option<CursorRequest>)
    ensures r.Some? <==> Control in key.modifiers && key.code in {Char(' '), Char('k'), Char(']')}
    ensures r.Some? ==> r.value.at == Position(TruncU32(line), TruncU32(col))
    ensures r.Some? ==> (r.value.kind == CompletionRequest <==> key.code == Char(' '))
    ensures r.Some? ==> (r.value.kind == HoverRequest <==> key.code == Char('k'))
  {
    var at := Position(TruncU32(line), TruncU32(col));
    if Control !in key.modifiers then None
    else
      match key.code
      case Char(c) =>
        if c == ' ' then Some(CursorRequest(CompletionRequest, at))
        else if c == 'k' then Some(CursorRequest(HoverRequest, at))
        else if c == ']' then Some(CursorRequest(DefinitionRequest, at))
        else None
      case _ => None
  }

  /** Typing without Control never reaches the plugin's bindings. */
  lemma PlainTypingNotClaimed(c: char, held: set<Modifier>, line: nat, col: nat)
    requires Control !in held
    ensures OnKey(CharKey(c, held), line, col).None?
  {
  }

  /** Holding more modifiers alongside Control keeps the binding. */
  lemma ExtraModifiersKeepBinding(key: KeyEvent, more: set<Modifier>, line: nat, col: nat)
    ensures OnKey(key, line, col).Some? ==>
      OnKey(KeyEvent(key.code, key.modifiers + more), line, col) == OnKey(key, line, col)
  {
  }

  // ---------------------------------------------------------------------
  // `:` commands

  /** Work the plugin hands off in the background for a command. */
  datatype Task = StartServer(name: string) | StopServer(name: string) | FormatBuffer

  datatype CommandReply = CommandReply(reply: Option<string>, task: Option<Task>)

  const LspUsage := "Usage: :lsp <start|stop|status|restart>"
  const StartUsage := "Usage: :lsp start <server-name>"
  const StopUsage := "Usage: :lsp stop <server-name>"

  /** `on_command` on the whitespace-separated words of the command line. */
  function ReplyToWords(parts: seq<string>): (o: CommandReply)
    ensures o.reply.None? <==> parts == [] || parts[0] !in {"lsp", "format"}
    ensures o.task.Some? ==> o.reply.Some?
    ensures o.task == Some(FormatBuffer) <==> parts != [] && parts[0] == "format"
    ensures parts != [] && parts[0] == "lsp" && |parts| < 2 ==> o == CommandReply(Some(LspUsage), None)
    ensures o.task.Some? && o.task.value.StartServer? ==>
      |parts| > 2 && parts[..2] == ["lsp", "start"] && o.task.value.name == parts[2]
        && o.reply == Some("Starting LSP server: " + parts[2])
    ensures o.task.Some? && o.task.value.StopServer? ==>
      |parts| > 2 && parts[..2] == ["lsp", "stop"] && o.task.value.name == parts[2]
        && o.reply == Some("Stopping LSP server: " + parts[2])
  {
    if parts == [] then CommandReply(None, None)
    else if parts[0] == "lsp" then
      if |parts| < 2 then CommandReply(Some(LspUsage), None)
      else if parts[1] == "start" then
        if |parts| > 2 then CommandReply(Some("Starting LSP server: " + parts[2]), Some(StartServer(parts[2])))
        else CommandReply(Some(StartUsage), None)
      else if parts[1] == "stop" then
        if |parts| > 2 then CommandReply(Some("Stopping LSP server: " + parts[2]), Some(StopServer(parts[2])))
        else CommandReply(Some(StopUsage), None)
      else if parts[1] == "status" then CommandReply(Some("LSP Status: Active"), None)
      else if parts[1] == "restart" then CommandReply(Some("Restarting LSP servers..."), None)
      else CommandReply(Some("Unknown LSP command"), None)
    else if parts[0] == "format" then CommandReply(Some("Formatting document..."), Some(FormatBuffer))
    else CommandReply(None, None)
  }

  function OnCommand(command: string): CommandReply {
    ReplyToWords(Words(command))
  }

  /** start and stop without a server name answer with their usage and start nothing. */
  lemma MissingServerName(sub: string)
    requires sub in {"start", "stop"}
    ensures ReplyToWords(["lsp", sub]).task == None
    ensures ReplyToWords(["lsp", sub]).reply == Some(if sub == "start" then StartUsage else StopUsage)
  {
  }

  /** Any other subcommand is reported as unknown, whatever follows it. */
  lemma UnknownSubcommand(sub: string, rest: seq<string>)
    requires sub !in {"start", "stop", "status", "restart"}
    ensures ReplyToWords(["lsp", sub] + rest) == CommandReply(Some("Unknown LSP command"), None)
  {
  }

  /** Words after the server name are ignored. */
  lemma ExtraWordsIgnored(parts: seq<string>, extra: seq<string>)
    requires |parts| >= 3
    ensures ReplyToWords(parts + extra) == ReplyToWords(parts)
  {
    assert (parts + extra)[..3] == parts[..3];
  }

  lemma {:induction false} LeadingSpaceSkipped(command: string)
    ensures Words([' '] + command) == Words(command)
  {
    var s := [' '] + command;
    assert s[1..] == command;
    assert LeadingWhitespace(s) == 1 + LeadingWhitespace(command);
    assert s[LeadingWhitespace(s)..] == command[LeadingWhitespace(command)..];
  }

  /** Spaces before the command do not change the reply. */
  lemma LeadingSpaceIgnored(command: string)
    ensures OnCommand([' '] + command) == OnCommand(command)
  {
    LeadingSpaceSkipped(command);
  }

  // ---------------------------------------------------------------------
  // The plugin object

  datatype CompletionItem = CompletionItem(labelText: string, detail: Option<string>)

  datatype Diagnostic = Diagnostic(range: Range, message: string)

  /** What the plugin asks of the language-server core. */
  datatype CoreCall =
    | OpenDocument(path: string, content: string, languageId: string)
    | UpdateDocument(path: string, content: string, version: i32)
    | Completions(path: string, at: Position)
    | Hover(path: string, at: Position)
    | Definition(path: string, at: Position)
    | Diagnostics(path: string)

  /** `Path::is_absolute` on a Unix path. */
  predicate IsAbsolute(path: string) {
    path != [] && path[0] == '/'
  }

  class ScriptorisLspPlugin {
    var enabled: bool
    var currentFile: Option<string>
    var completions: seq<CompletionItem>
    var diagnosticsShown: bool

    /** `new`: enabled, no file, no completions. */
    constructor()
      ensures enabled && currentFile == None && completions == [] && !diagnosticsShown
    {
      enabled := true;
      currentFile := None;
      completions := [];
      diagnosticsShown := false;
    }

    /** `open_file`: the file becomes current before the core is asked, so it
        stays current even when opening fails. */
    method OpenFile(path: string, content: string, answer: Result<(), string>)
      returns (call: CoreCall, r: Result<(), string>)
      modifies this
      ensures currentFile == Some(path)
      ensures call == OpenDocument(path, content, PluginLanguageId(path))
      ensures r == answer
      ensures completions == old(completions) && enabled == old(enabled)
      ensures diagnosticsShown == old(diagnosticsShown)
    {
      currentFile := Some(path);
      call := OpenDocument(path, content, PluginLanguageId(path));
      r := answer;
    }

    /** `update_file`: without a current file nothing is sent and the result is Ok. */
    method UpdateFile(content: string, version: i32, answer: Result<(), string>)
      returns (call: Option<CoreCall>, r: Result<(), string>)
      ensures currentFile.None? ==> call.None? && r == Ok(())
      ensures currentFile.Some? ==> call == Some(UpdateDocument(currentFile.value, content, version)) && r == answer
    {
      match currentFile {
        case None =>
          call := None;
          r := Ok(());
        case Some(path) =>
          call := Some(UpdateDocument(path, content, version));
          r := answer;
      }
    }

    /** `get_completions_at_cursor`: the answer is kept as the plugin's list when it is a success. */
    method GetCompletionsAtCursor(line: u32, character: u32, answer: Result<seq<CompletionItem>, string>)
      returns (call: Option<CoreCall>, r: Result<seq<CompletionItem>, string>)
      modifies this
      ensures currentFile == old(currentFile) && enabled == old(enabled)
      ensures diagnosticsShown == old(diagnosticsShown)
      ensures old(currentFile).None? ==> call.None? && r == Ok([]) && completions == old(completions)
      ensures old(currentFile).Some? ==>
        call == Some(Completions(old(currentFile).value, Position(line, character))) && r == answer
        && completions == (if answer.Ok? then answer.value else old(completions))
    {
      match currentFile {
        case None =>
          call := None;
          r := Ok([]);
        case Some(path) =>
          call := Some(Completions(path, Position(line, character)));
          if answer.Ok? {
            completions := answer.value;
          }
          r := answer;
      }
    }

    /** `get_hover_at_cursor`: the hover contents as text. */
    method GetHoverAtCursor(line: u32, character: u32, answer: Result<Option<HoverContents>, string>)
      returns (call: Option<CoreCall>, r: Result<Option<string>, string>)
      ensures currentFile.None? ==> call.None? && r == Ok(None)
      ensures currentFile.Some? ==> call == Some(Hover(currentFile.value, Position(line, character)))
      ensures currentFile.Some? && answer.Err? ==> r == Err(answer.error)
      ensures currentFile.Some? && answer.Ok? ==>
        r == Ok(if answer.value.Some? then Some(HoverText(answer.value.value)) else None)
    {
      match currentFile {
        case None =>
          call := None;
          r := Ok(None);
        case Some(path) =>
          call := Some(Hover(path, Position(line, character)));
          match answer {
            case Err(e) => r := Err(e);
            case Ok(None) => r := Ok(None);
            case Ok(Some(h)) => r := Ok(Some(HoverText(h)));
          }
      }
    }

    /** `goto_definition_at_cursor`: the first location the response offers. */
    method GotoDefinitionAtCursor(line: u32, character: u32, answer: Result<Option<GotoDefinitionResponse>, string>)
      returns (call: Option<CoreCall>, r: Result<Option<Location>, string>)
      ensures currentFile.None? ==> call.None? && r == Ok(None)
      ensures currentFile.Some? ==> call == Some(Definition(currentFile.value, Position(line, character)))
      ensures currentFile.Some? && answer.Err? ==> r == Err(answer.error)
      ensures currentFile.Some? && answer.Ok? && answer.value.None? ==> r == Ok(None)
      ensures currentFile.Some? && answer.Ok? && answer.value.Some? ==>
        r.Ok? && (r.value.Some? <==> Candidates(answer.value.value) != [])
        && (r.value.Some? ==> r.value.value == Candidates(answer.value.value)[0])
    {
      match currentFile {
        case None =>
          call := None;
          r := Ok(None);
        case Some(path) =>
          call := Some(Definition(path, Position(line, character)));
          match answer {
            case Err(e) => r := Err(e);
            case Ok(None) => r := Ok(None);
            case Ok(Some(response)) =>
              GotoTakesFirstCandidate(response);
              r := Ok(GotoChoice(response));
          }
      }
    }

    /** `get_diagnostics`: a current file whose path is not absolute has no file URL. */
    method GetDiagnostics(answer: seq<Diagnostic>)
      returns (call: Option<CoreCall>, r: Result<seq<Diagnostic>, string>)
      ensures currentFile.None? ==> call.None? && r == Ok([])
      ensures currentFile.Some? && !IsAbsolute(currentFile.value) ==> call.None? && r == Err("Invalid file path")
      ensures currentFile.Some? && IsAbsolute(currentFile.value) ==>
        call == Some(Diagnostics(currentFile.value)) && r == Ok(answer)
    {
      match currentFile {
        case None =>
          call := None;
          r := Ok([]);
        case Some(path) =>
          if !IsAbsolute(path) {
            call := None;
            r := Err("Invalid file path");
          } else {
            call := Some(Diagnostics(path));
            r := Ok(answer);
          }
      }
    }

    /** `format_current_buffer`: formatting is not implemented and yields nothing. */
    method FormatCurrentBuffer() returns (r: Result<Option<string>, string>)
      ensures r == Ok(None)
    {
      r := Ok(None);
    }
  }
}
