/** Diagnostics publication: for each change of a workspace/didChangeWatchedFiles
    notification, read the file, parse it, translate every parser error into an LSP
    diagnostic and publish them in one textDocument/publishDiagnostics notification. */
module Diagnostics {
  import opened Lsp
  import opened Collaborators

  /** The `as u32` cast of the translator's numbers: keeps the low 32 bits. */
  function Narrow(n: nat): (r: u32)
    ensures n < 0x1_0000_0000 ==> r as int == n
    ensures (n - r as int) % 0x1_0000_0000 == 0
  {
    (n % 0x1_0000_0000) as u32
  }

  /** The LSP position of a translated byte offset. */
  function ToLspPosition(p: TextPosition): Position {
    Position(Narrow(p.line), Narrow(p.col))
  }

  /** The diagnostic built from one parser error, both ends translated against `text`. */
  function ToDiagnostic(text: string, e: ParseError, positionFrom: (nat, string) -> TextPosition): Diagnostic {
    var start := ToLspPosition(positionFrom(e.range.start, text));
    var end := ToLspPosition(positionFrom(e.range.end, text));
    Diagnostic(Range(start, end), None, None, None, None, e.message, None, None, None)
  }

  /** The diagnostics of a list of parser errors, in the parser's order. */
  function Diagnose(text: string, errors: seq<ParseError>, positionFrom: (nat, string) -> TextPosition): (ds: seq<Diagnostic>)
    ensures |ds| == |errors|
  {
    if errors == [] then []
    else Diagnose(text, errors[..|errors| - 1], positionFrom) + [ToDiagnostic(text, errors[|errors| - 1], positionFrom)]
  }

  /** Entry `i` of the diagnostics list is made from parser error `i` alone: its message
      verbatim, its range the narrowed translations of the error's start and end offsets
      against the same text, and every other field absent. */
  lemma {:induction false} DiagnoseAt(text: string, errors: seq<ParseError>, positionFrom: (nat, string) -> TextPosition, i: nat)
    requires i < |errors|
    ensures var d, e := Diagnose(text, errors, positionFrom)[i], errors[i];
      && d.message == e.message
      && d.range.start == ToLspPosition(positionFrom(e.range.start, text))
      && d.range.end == ToLspPosition(positionFrom(e.range.end, text))
      && d.severity == None && d.code == None && d.codeDescription == None && d.source == None
      && d.relatedInformation == None && d.tags == None && d.data == None
  {
    if i < |errors| - 1 {
      DiagnoseAt(text, errors[..|errors| - 1], positionFrom, i);
    }
  }

  /** The diagnostics of a text: none when it parses, one per parser error otherwise. */
  function DiagnosticsOf(text: string, env: Env): (ds: seq<Diagnostic>)
    ensures env.parse(text).Parsed? ==> ds == []
    ensures env.parse(text).Failed? ==> |ds| == |env.parse(text).errors|
  {
    match env.parse(text)
    case Parsed => []
    case Failed(errors) => Diagnose(text, errors, env.positionFrom)
  }

  /** The publishDiagnostics notification for one document. */
  function PublishNotification(uri: Uri, diagnostics: seq<Diagnostic>): Message {
    NotificationMsg(Notification(PUBLISH_DIAGNOSTICS, PublishDiagnostics(PublishDiagnosticsParams(uri, diagnostics, None))))
  }

  /** The notification for one change whose file can be read. */
  function PublishFor(change: FileEvent, files: Files, env: Env): Message
    requires change.uri.path in files
  {
    PublishNotification(change.uri, DiagnosticsOf(files[change.uri.path], env))
  }

  /** What a list of changes publishes, and the path whose read failed, if one did. */
  datatype Publication = Publication(sent: seq<Message>, failed: Option<string>)

  /** The per-change loop: one notification per change, in order, until the first file
      that cannot be read, which ends the whole run. */
  function PublishChanges(changes: seq<FileEvent>, files: Files, env: Env): (p: Publication)
    ensures |p.sent| <= |changes|
    ensures p.failed.None? ==> |p.sent| == |changes|
    ensures p.failed.Some? ==> p.failed.value !in files
    decreases |changes|
  {
    if changes == [] then Publication([], None)
    else if changes[0].uri.path !in files then Publication([], Some(changes[0].uri.path))
    else
      var rest := PublishChanges(changes[1..], files, env);
      Publication([PublishFor(changes[0], files, env)] + rest.sent, rest.failed)
  }

  /** One notification per change, in the order of the changes, each with that change's
      URI, the diagnostics of the file's current text and no version; the loop fails
      exactly when some file cannot be read, and then stops at the first such change,
      publishing nothing for it or for any later change. */
  lemma {:induction false} PublishChangesSpec(changes: seq<FileEvent>, files: Files, env: Env)
    ensures var p := PublishChanges(changes, files, env);
      && (p.failed.None? <==> forall i | 0 <= i < |changes| :: changes[i].uri.path in files)
      && (p.failed.None? ==> |p.sent| == |changes|)
      && (p.failed.Some? ==>
            && |p.sent| < |changes|
            && p.failed.value == changes[|p.sent|].uri.path
            && p.failed.value !in files)
      && (forall i | 0 <= i < |p.sent| ::
            && changes[i].uri.path in files
            && p.sent[i] == PublishNotification(changes[i].uri, DiagnosticsOf(files[changes[i].uri.path], env)))
  {
    if changes != [] && changes[0].uri.path in files {
      PublishChangesSpec(changes[1..], files, env);
      var p, rest := PublishChanges(changes, files, env), PublishChanges(changes[1..], files, env);
      forall i | 0 <= i < |p.sent|
        ensures changes[i].uri.path in files
        ensures p.sent[i] == PublishNotification(changes[i].uri, DiagnosticsOf(files[changes[i].uri.path], env))
      {
        if i > 0 {
          assert p.sent[i] == rest.sent[i - 1];
          assert changes[i] == changes[1..][i - 1];
        }
      }
      if p.failed.None? {
        forall i | 0 <= i < |changes| ensures changes[i].uri.path in files {
          if i > 0 { assert changes[i] == changes[1..][i - 1]; }
        }
      }
    }
  }

  /** The inner loop of `run`: push one diagnostic per parser error. */
  method CollectDiagnostics(text: string, errors: seq<ParseError>, positionFrom: (nat, string) -> TextPosition)
    returns (diagnostics: seq<Diagnostic>)
    ensures diagnostics == Diagnose(text, errors, positionFrom)
  {
    diagnostics := [];
    for k := 0 to |errors|
      invariant diagnostics == Diagnose(text, errors[..k], positionFrom)
    {
      var error := errors[k];
      var start := ToLspPosition(positionFrom(error.range.start, text));
      var end := ToLspPosition(positionFrom(error.range.end, text));
      diagnostics := diagnostics + [Diagnostic(Range(start, end), None, None, None, None, error.message, None, None, None)];
      assert errors[..k + 1][..k] == errors[..k];
    }
    assert errors[..|errors|] == errors;
  }

  /** The per-change loop's invariant carried over a change whose file can be read. */
  lemma PublishAdvance(changes: seq<FileEvent>, j: nat, sent: seq<Message>, files: Files, env: Env)
    requires j < |changes| && changes[j].uri.path in files
    requires var rest := PublishChanges(changes[j..], files, env);
      PublishChanges(changes, files, env) == Publication(sent + rest.sent, rest.failed)
    ensures var rest := PublishChanges(changes[j + 1..], files, env);
      PublishChanges(changes, files, env) == Publication((sent + [PublishFor(changes[j], files, env)]) + rest.sent, rest.failed)
  {
    assert changes[j..][1..] == changes[j + 1..];
    var rest := PublishChanges(changes[j + 1..], files, env);
    assert sent + ([PublishFor(changes[j], files, env)] + rest.sent) == (sent + [PublishFor(changes[j], files, env)]) + rest.sent;
  }

  /** The loop over the changes of one notification: read, parse, collect, send. A
      missing file returns its path, and nothing more is sent. */
  method PublishChangesLoop(changes: seq<FileEvent>, files: Files, env: Env) returns (sent: seq<Message>, failed: Option<string>)
    ensures Publication(sent, failed) == PublishChanges(changes, files, env)
  {
    sent := [];
    for j := 0 to |changes|
      invariant var rest := PublishChanges(changes[j..], files, env);
        PublishChanges(changes, files, env) == Publication(sent + rest.sent, rest.failed)
    {
      var change := changes[j];
      var path := change.uri.path;
      if path !in files {
        assert sent + [] == sent;
        return sent, Some(path);
      }
      var input := files[path];
      var diagnostics: seq<Diagnostic> := [];
      match env.parse(input) {
        case Failed(errors) =>
          diagnostics := CollectDiagnostics(input, errors, env.positionFrom);
        case Parsed =>
      }
      assert diagnostics == DiagnosticsOf(input, env);
      PublishAdvance(changes, j, sent, files, env);
      sent := sent + [PublishNotification(change.uri, diagnostics)];
    }
    assert changes[|changes|..] == [];
    assert sent + [] == sent;
    failed := None;
  }
}
