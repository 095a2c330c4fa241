# tan_lsp_server: dispatch loop and diagnostics publication

This project models the message loop of the tan language server (`run` and `cast` in
`src/main.rs`). The loop takes JSON-RPC messages one at a time from the client and handles each as follows:

- A `shutdown` request is acknowledged and ends the loop successfully.
- A `textDocument/definition` or `textDocument/references` request is answered with an
  empty array. The answer carries the request's own id, as section 5 of the JSON-RPC 2.0
  Specification (Response object) requires.
- A `workspace/didChangeWatchedFiles` notification triggers, for each change, a read and
  a re-parse of the file. The loop then publishes one `textDocument/publishDiagnostics`
  notification with one diagnostic per parser error.
- Everything else is ignored.

Malformed parameters of a recognised request abort the process. An unreadable file ends
the run with an error. The run also returns when the input is exhausted.

Modules:

- `Lsp` (lsp.dfy) holds the protocol values.
- `Collaborators` (collaborators.dfy) holds the environment the loop runs in:
  - the parser;
  - the byte-offset-to-position translator;
  - the JSON decoders of the three parameter types.

  All of these are uninterpreted values, so every property below holds for any parser,
  translator and decoder.
- `Dispatch` (dispatch.dfy) holds `cast` and the routing of one request.
- `Diagnostics` (diagnostics.dfy) builds and publishes the diagnostics.
- `Server` (server.dfy) holds the loop. Each inbound message arrives as a `Delivery`
  together with the files on disk as the loop finds them while handling it (a map where
  a missing path is a read failure), so files may change between notifications.
  `Session` specifies the loop as a fold over the deliveries, and the method `Run` is
  proved equal to it.
- `ServerProperties` (properties.dfy) holds the properties of whole sessions.

Sends are appends to an outbound sequence. A session ends in one of four ways:

- `ShutDown`;
- `Exhausted` (the final `Ok(())`);
- `Panicked(method)`;
- `ReadFailed(path)`.

Diagnostics are published in the order of the changes, as `run` does.

## Model

| member | source | states |
|---|---|---|
| `Dispatch.Cast` | src/main.rs:12-18 | a request for another method comes back as `MethodMismatch` holding the identical request; a request for the method is extracted with its own id and decoded params exactly when the params decode, and is a `JsonError` for that method otherwise |
| `Dispatch.ExtractNotification` | src/main.rs:71-72 | extraction succeeds exactly when the method is didChangeWatchedFiles and the params decode |
| `Dispatch.HandleRequest` | src/main.rs:26-65 | a request produces at most one message, and it is a response that answers the request: same id, a result, no error |
| `Dispatch.ChainIsMethodMatch` | src/main.rs:28-63 | the ordered chain (shutdown, definition, references) with mismatches handed on unchanged equals a single match on the method name |
| `Dispatch.RequestOutcome` | src/main.rs:28-63 | one answer exactly for shutdown and for well-formed definition/references requests; the loop stops exactly on shutdown (outcome ShutDown) and on malformed params of a recognised method (outcome Panicked with that method) |
| `Diagnostics.Narrow` | src/main.rs:84-91 | the `as u32` cast keeps values below 2^32 and is congruent to its input modulo 2^32 |
| `Diagnostics.Diagnose` | src/main.rs:82-105 | one diagnostic per parser error |
| `Diagnostics.DiagnoseAt` | src/main.rs:82-105 | diagnostic i comes from error i: message verbatim, start and end the narrowed translator positions of the error's start and end offsets against the same text, every other field None |
| `Diagnostics.DiagnosticsOf` | src/main.rs:77-106 | the diagnostics of a text: the list is empty when the parse succeeds and has one entry per error when it fails |
| `Diagnostics.PublishChanges` | src/main.rs:74-124 | the per-change loop publishes at most one notification per change, one for every change when no read fails, and a reported failure names a path that cannot be read |
| `Diagnostics.PublishChangesSpec` | src/main.rs:74-124 | one publishDiagnostics notification per change, in change order, each with the change's URI, the diagnostics of the file's current text and no version; failure exactly when some file is unreadable, stopping at the first one, with nothing published for it or for later changes |
| `Diagnostics.CollectDiagnostics` | src/main.rs:79-106 | the push loop builds exactly `Diagnose` of the errors |
| `Diagnostics.PublishChangesLoop` | src/main.rs:74-124 | the per-change loop sends exactly what `PublishChanges` specifies and returns the failing path |
| `Server.Step` | src/main.rs:25-127 | one message: a request sends at most one message, a response sends nothing and lets the loop go on, a stop never has the outcome of exhausted input, and a read failure comes only from a notification and names a path missing from its files |
| `Server.Session` | src/main.rs:23-129 | a session sends a prefix of what all the messages send one after another (`Sends`), and all of it when it returns for exhausted input |
| `Server.Handle` | src/main.rs:25-127 | the loop body sends what `Step` specifies and stops exactly when `Step` stops |
| `Server.Run` | src/main.rs:20-130 | the loop's output and outcome are exactly `Session` of the inbound messages |
| `ServerProperties.StepSends` | src/main.rs:32-121 | a message sends only answers to itself (when a request) and versionless publishDiagnostics notifications (when a notification), never a request |
| `ServerProperties.SilentStep` | src/main.rs:64-72 | a message sends nothing and lets the loop go on exactly when it is a response, a request for any other method, or a notification that is not a well-formed didChangeWatchedFiles or lists no change |
| `ServerProperties.SessionAppend` | src/main.rs:23-129 | after a prefix that runs to exhaustion, the session goes on as a fresh session of the rest |
| `ServerProperties.SessionStopsEarly` | src/main.rs:28-76 | once the session has stopped, later inbound messages change nothing |
| `ServerProperties.StopEndsSession` | src/main.rs:28-76 | a stopping message ends the session with its own output and outcome, whatever follows |
| `ServerProperties.ShutdownEndsSession` | src/main.rs:28-30 | a shutdown request reached by the loop is acknowledged with its id and ends the session successfully, later messages ignored |
| `ServerProperties.MalformedParamsAbort` | src/main.rs:43-62 | malformed definition/references params abort with nothing sent for that request |
| `ServerProperties.ReadFailureEndsSession` | src/main.rs:74-76 | an unreadable file ends the session with the read error of the first unreadable change's path, after publishing only the changes before it |
| `ServerProperties.ExhaustedIffNoStop` | src/main.rs:23-129 | the session returns for exhausted input exactly when no message stopped it, and then it sent what every message sent, one after another |
| `ServerProperties.SessionSends` | src/main.rs:28-121 | everything a session sends is a response answering some inbound request (same id, result, no error) or a versionless publishDiagnostics notification |
| `ServerProperties.EachChangeRereads` | src/main.rs:74-77 | each change is read from the file system of its own notification: the same notification delivered twice publishes the diagnostics of each delivery's text, and an empty list once the file parses |

## Left out

- Transport and handshake are not modelled. This covers `Connection::stdio`,
  `connection.initialize`, `io_threads.join` and the rest of `main` (src/main.rs:132-161).
  They are I/O threads and library code.
- The shutdown handling inside `Connection::handle_shutdown` is library code that is not
  part of this model. It is modelled as a test on the method name `shutdown` and the
  acknowledgement `Response(id, Some(null), None)`. The wait for the `exit` notification,
  and the error when it does not come, are left out.
- Decoding of the initialize parameters (`serde_json::from_value(params).unwrap()`,
  src/main.rs:21) is left out. The session starts after it.
- JSON serialization is left out:
  - Params are decoded by the environment's decoders.
  - Results are JSON values.
  - Outbound publishDiagnostics params are kept typed, not serialized.
  - JSON numbers are integers only.
- Failed channel sends (`?` on `sender.send`) are left out. Transport failures are not part
  of the model.
- Tracing and `eprintln!` output are left out. They have no effect on the protocol.
- The parser (`tan::api::parse_string`) and the translator (`tan::range::Position::from`)
  are not part of this model. They are uninterpreted, so nothing is proved about UTF-16
  columns or line counting.
- `Url::path` is taken as a field of the URI, and no percent-decoding is modelled.
  `RequestId` numbers are unbounded integers.
- The file system is one snapshot per inbound message. A file that changes on disk
  between two changes of the same notification is not modelled: all changes of one
  notification are read from the same snapshot.
