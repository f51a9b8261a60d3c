/**
 * The few `lsp_types` records the plugin handles. Positions count lines and
 * UTF-16 code units of a line, as defined under "Position" in the Basic
 * Structures of the Language Server Protocol 3.17; both are `u32`.
 */
module LspTypes {
  import opened Ints
  import opened Wrappers

  datatype Position = Position(line: u32, character: u32)

  datatype Range = Range(start: Position, end: Position)

  datatype TextEdit = TextEdit(range: Range, newText: string)

  datatype Location = Location(uri: string, range: Range)

  datatype LocationLink = LocationLink(
    originSelectionRange: Option<Range>,
    targetUri: string,
    targetRange: Range,
    targetSelectionRange: Range)

  datatype MarkedString =
    | Plain(s: string)
    | LanguageString(language: string, value: string)

  datatype HoverContents =
    | Scalar(marked: MarkedString)
    | Array(items: seq<MarkedString>)
    | Markup(kind: string, markupValue: string)

  datatype GotoDefinitionResponse =
    | ScalarLocation(location: Location)
    | Locations(locations: seq<Location>)
    | Links(links: seq<LocationLink>)
}
