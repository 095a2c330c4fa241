/** The code the dispatch loop calls but whose behaviour is not part of this model: the
    parser, the byte-offset translator and the JSON decoders of the three parameter
    types. Each is a value of the environment, so every property proved below holds
    whatever they do. The file system is not part of the environment: it changes while
    the server runs, and is given with each inbound message (module Server). */
module Collaborators {
  import opened Lsp

  /** A parser error: its message and the half-open byte range [start, end) it covers. */
  datatype ByteRange = ByteRange(start: nat, end: nat)
  datatype ParseError = ParseError(message: string, range: ByteRange)

  /** The parser's verdict on a text; the syntax tree of a success is not used. */
  datatype ParseOutcome = Parsed | Failed(errors: seq<ParseError>)

  /** The translator's (line, column) for a byte offset, before the `as u32` narrowing. */
  datatype TextPosition = TextPosition(line: nat, col: nat)

  /** The file system as the loop sees it: the text of every readable path. A path that
      is absent cannot be read. */
  type Files = map<string, string>

  datatype Env = Env(
    decodeDefinition: Value -> Option<GotoDefinitionParams>,
    decodeReferences: Value -> Option<ReferenceParams>,
    decodeWatchedFiles: Params -> Option<DidChangeWatchedFilesParams>,
    parse: string -> ParseOutcome,
    positionFrom: (nat, string) -> TextPosition)
}
