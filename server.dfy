/** The server loop: take inbound messages one at a time, route requests, publish
    diagnostics for watched-file changes, and end on shutdown, on a fatal error or when
    the inbound queue is exhausted. Sends are appends to the outbound sequence. */
module Server {
  import opened Lsp
  import opened Collaborators
  import opened Dispatch
  import opened Diagnostics

  /** An inbound message together with the file system as the loop finds it while
      handling that message: files change between notifications, and each
      notification's changes are read from the files as they are when that
      notification is handled. */
  datatype Delivery = Delivery(msg: Message, files: Files)

  /** What a session sent, in order, and how it ended. */
  datatype Execution = Execution(sent: seq<Message>, outcome: Outcome)

  /** `e` preceded by messages sent earlier. */
  function Then(earlier: seq<Message>, e: Execution): Execution {
    Execution(earlier + e.sent, e.outcome)
  }

  /** Handling of one inbound message. Responses are only traced; a notification other
      than a well-formed didChangeWatchedFiles is ignored. */
  function Step(d: Delivery, env: Env): (r: StepResult)
    ensures d.msg.RequestMsg? ==> |r.sent| <= 1
    ensures d.msg.ResponseMsg? ==> r == Continue([])
    ensures r.Stop? ==> r.outcome != Exhausted
    ensures r.Stop? && r.outcome.ReadFailed? ==> d.msg.NotificationMsg? && r.outcome.path !in d.files
  {
    match d.msg
    case RequestMsg(req) => HandleRequest(req, env)
    case ResponseMsg(_) => Continue([])
    case NotificationMsg(n) =>
      match ExtractNotification(n, DID_CHANGE_WATCHED_FILES, env.decodeWatchedFiles)
      case None => Continue([])
      case Some(event) =>
        var p := PublishChanges(event.changes, d.files, env);
        if p.failed.Some? then Stop(p.sent, ReadFailed(p.failed.value)) else Continue(p.sent)
  }

  /** Everything the messages send when each is handled, one after another. */
  function Sends(inbound: seq<Delivery>, env: Env): seq<Message>
    decreases |inbound|
  {
    if inbound == [] then [] else Step(inbound[0], env).sent + Sends(inbound[1..], env)
  }

  /** The specification of a session over the inbound messages: each message is handled
      in turn until one stops the loop or none is left. What it sends is a prefix of what
      all the messages send, and all of it when the input runs out. */
  function Session(inbound: seq<Delivery>, env: Env): (e: Execution)
    ensures e.sent <= Sends(inbound, env)
    ensures e.outcome == Exhausted ==> e.sent == Sends(inbound, env)
    decreases |inbound|
  {
    if inbound == [] then Execution([], Exhausted)
    else match Step(inbound[0], env)
      case Continue(sent) => Then(sent, Session(inbound[1..], env))
      case Stop(sent, outcome) => Execution(sent, outcome)
  }

  /** The loop invariant carried over one message. */
  lemma Advance(inbound: seq<Delivery>, i: nat, outbound: seq<Message>, env: Env)
    requires i < |inbound| && Step(inbound[i], env).Continue?
    requires Session(inbound, env) == Then(outbound, Session(inbound[i..], env))
    ensures Session(inbound, env) == Then(outbound + Step(inbound[i], env).sent, Session(inbound[i + 1..], env))
  {
    assert inbound[i..][1..] == inbound[i + 1..];
    var rest := Session(inbound[i + 1..], env);
    assert outbound + (Step(inbound[i], env).sent + rest.sent) == (outbound + Step(inbound[i], env).sent) + rest.sent;
  }

  /** The body of the dispatch loop: what one inbound message sends, and the outcome
      when it ends the loop. */
  method Handle(d: Delivery, env: Env) returns (sent: seq<Message>, stop: Option<Outcome>)
    ensures Step(d, env) == if stop.None? then Continue(sent) else Stop(sent, stop.value)
  {
    sent := [];
    stop := None;
    match d.msg
    case RequestMsg(req) =>
      if IsShutdown(req) {
        return [ResponseMsg(ShutdownAck(req.id))], Some(ShutDown);
      }
      var req1;
      match Cast(req, DEFINITION, env.decodeDefinition) {
        case Extracted(id, _) =>
          return [ResponseMsg(EmptyResult(id))], None;
        case JsonError(m) =>
          return [], Some(Panicked(m));
        case MethodMismatch(r) =>
          req1 := r;
      }
      match Cast(req1, REFERENCES, env.decodeReferences) {
        case Extracted(id, _) =>
          return [ResponseMsg(EmptyResult(id))], None;
        case JsonError(m) =>
          return [], Some(Panicked(m));
        case MethodMismatch(_) =>
      }
    case ResponseMsg(_) =>
    case NotificationMsg(n) =>
      match ExtractNotification(n, DID_CHANGE_WATCHED_FILES, env.decodeWatchedFiles) {
        case Some(event) =>
          var failed;
          sent, failed := PublishChangesLoop(event.changes, d.files, env);
          if failed.Some? {
            stop := Some(ReadFailed(failed.value));
          }
        case None =>
      }
  }

  /** The dispatch loop of the server. */
  method Run(inbound: seq<Delivery>, env: Env) returns (outbound: seq<Message>, outcome: Outcome)
    ensures Execution(outbound, outcome) == Session(inbound, env)
  {
    outbound := [];
    for i := 0 to |inbound|
      invariant Session(inbound, env) == Then(outbound, Session(inbound[i..], env))
    {
      var sent, stop := Handle(inbound[i], env);
      if stop.Some? {
        return outbound + sent, stop.value;
      }
      Advance(inbound, i, outbound, env);
      outbound := outbound + sent;
    }
    assert inbound[|inbound|..] == [];
    assert outbound + [] == outbound;
    outcome := Exhausted;
  }
}
