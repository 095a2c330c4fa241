/** The protocol values the server exchanges with its client: JSON-RPC messages as the
    transport delivers them, and the Language Server Protocol payloads the dispatch loop
    builds. JSON (de)serialization itself is not modelled: inbound parameters stay
    `Value`s and are decoded by collaborators (module Collaborators), and the one
    structured outbound payload, the parameters of a publishDiagnostics notification,
    is kept as a typed value. */
module Lsp {

  datatype Option<+T> = None | Some(value: T)

  /** Unsigned 32-bit integers, the width of LSP line and character numbers. */
  newtype u32 = x: int | 0 <= x < 0x1_0000_0000

  /** A JSON value (numbers restricted to integers). */
  datatype Value =
    | Null
    | Bool(b: bool)
    | Number(n: int)
    | String(s: string)
    | Array(items: seq<Value>)
    | Object(members: seq<(string, Value)>)

  datatype RequestId = IntId(n: int) | StrId(s: string)

  /** A document URI; `path` is the path component the server reads files from. */
  datatype Uri = Uri(scheme: string, path: string)

  /** A zero-based LSP text position. */
  datatype Position = Position(line: u32, character: u32)

  datatype Range = Range(start: Position, end: Position)

  datatype Location = Location(uri: Uri, range: Range)

  datatype DiagnosticSeverity = Error | Warning | Information | Hint

  datatype NumberOrString = Num(n: int) | Str(s: string)

  datatype CodeDescription = CodeDescription(href: Uri)

  datatype DiagnosticRelatedInformation = DiagnosticRelatedInformation(location: Location, message: string)

  datatype DiagnosticTag = Unnecessary | Deprecated

  datatype Diagnostic = Diagnostic(
    range: Range,
    severity: Option<DiagnosticSeverity>,
    code: Option<NumberOrString>,
    codeDescription: Option<CodeDescription>,
    source: Option<string>,
    message: string,
    relatedInformation: Option<seq<DiagnosticRelatedInformation>>,
    tags: Option<seq<DiagnosticTag>>,
    data: Option<Value>)

  datatype PublishDiagnosticsParams = PublishDiagnosticsParams(uri: Uri, diagnostics: seq<Diagnostic>, version: Option<int>)

  /** Parameters of a notification: raw JSON as received, or the typed payload of an
      outbound publishDiagnostics notification. */
  datatype Params = Raw(value: Value) | PublishDiagnostics(pdm: PublishDiagnosticsParams)

  datatype ResponseError = ResponseError(code: int, message: string, data: Option<Value>)

  datatype Request = Request(id: RequestId, methodName: string, params: Value)

  datatype Response = Response(id: RequestId, result: Option<Value>, error: Option<ResponseError>)

  datatype Notification = Notification(methodName: string, params: Params)

  datatype Message =
    | RequestMsg(req: Request)
    | ResponseMsg(resp: Response)
    | NotificationMsg(notification: Notification)

  /** Typed parameters of textDocument/definition. */
  datatype GotoDefinitionParams = GotoDefinitionParams(textDocument: Uri, position: Position)

  /** Typed parameters of textDocument/references. */
  datatype ReferenceParams = ReferenceParams(textDocument: Uri, position: Position, includeDeclaration: bool)

  datatype FileChangeType = Created | Changed | Deleted

  datatype FileEvent = FileEvent(uri: Uri, typ: FileChangeType)

  /** Typed parameters of workspace/didChangeWatchedFiles. */
  datatype DidChangeWatchedFilesParams = DidChangeWatchedFilesParams(changes: seq<FileEvent>)

  const SHUTDOWN := "shutdown"
  const DEFINITION := "textDocument/definition"
  const REFERENCES := "textDocument/references"
  const DID_CHANGE_WATCHED_FILES := "workspace/didChangeWatchedFiles"
  const PUBLISH_DIAGNOSTICS := "textDocument/publishDiagnostics"
}
