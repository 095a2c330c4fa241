/** Typed extraction of a request's parameters and the routing of one request: the
    shutdown check, then textDocument/definition, then textDocument/references. */
module Dispatch {
  import opened Lsp
  import opened Collaborators

  /** The three outcomes of extracting a method's parameters from a request. */
  datatype ExtractResult<P> =
    | Extracted(id: RequestId, params: P)
    | JsonError(methodName: string)
    | MethodMismatch(req: Request)

  /** How a session ends. `ShutDown` and `Exhausted` are the two successful returns;
      `Panicked` aborts on malformed parameters of the named method; `ReadFailed`
      returns the I/O error of reading the named path. */
  datatype Outcome = ShutDown | Exhausted | Panicked(methodName: string) | ReadFailed(path: string)

  /** What handling one inbound message sends, and whether the loop goes on. */
  datatype StepResult = Continue(sent: seq<Message>) | Stop(sent: seq<Message>, outcome: Outcome)

  /** Extraction of a request's parameters for `methodName`: a request for another method is
      handed back unchanged, so that the next candidate can try it. */
  function Cast<P(==)>(req: Request, methodName: string, decode: Value -> Option<P>): (r: ExtractResult<P>)
    ensures r.MethodMismatch? <==> req.methodName != methodName
    ensures r.MethodMismatch? ==> r.req == req
    ensures r.Extracted? <==> req.methodName == methodName && decode(req.params).Some?
    ensures r.Extracted? ==> r.id == req.id && decode(req.params) == Some(r.params)
    ensures r.JsonError? ==> r.methodName == methodName
  {
    if req.methodName != methodName then MethodMismatch(req)
    else match decode(req.params)
      case Some(p) => Extracted(req.id, p)
      case None => JsonError(methodName)
  }

  /** Extraction of a notification's parameters; both failures are collapsed to `None`,
      as the loop only asks whether extraction succeeded. */
  function ExtractNotification<P(==)>(n: Notification, methodName: string, decode: Params -> Option<P>): (r: Option<P>)
    ensures r.Some? <==> n.methodName == methodName && decode(n.params).Some?
    ensures r.Some? ==> decode(n.params) == r
  {
    if n.methodName != methodName then None else decode(n.params)
  }

  /** The connection's shutdown test. */
  predicate IsShutdown(req: Request) {
    req.methodName == SHUTDOWN
  }

  /** The acknowledgement the connection sends for a shutdown request. */
  function ShutdownAck(id: RequestId): Response {
    Response(id, Some(Null), None)
  }

  /** The canned answer to definition and references requests: an empty array. */
  function EmptyResult(id: RequestId): Response {
    Response(id, Some(Array([])), None)
  }

  /** Whether `resp` is a well-formed answer to `req`: same id, a result and no error,
      and the result the server gives for that method. */
  predicate Answers(req: Request, resp: Response) {
    && resp.id == req.id
    && resp.error == None
    && (|| (req.methodName == SHUTDOWN && resp.result == Some(Null))
        || (req.methodName in {DEFINITION, REFERENCES} && resp.result == Some(Array([]))))
  }

  /** Routing of one request through the ordered chain of extractors: shutdown first,
      then definition, then references; the first match answers, malformed parameters
      of a matched method abort, and a request no extractor takes gets no answer. */
  function HandleRequest(req: Request, env: Env): (s: StepResult)
    ensures |s.sent| <= 1
    ensures forall m | m in s.sent :: m.ResponseMsg? && Answers(req, m.resp)
  {
    if IsShutdown(req) then Stop([ResponseMsg(ShutdownAck(req.id))], ShutDown)
    else match Cast(req, DEFINITION, env.decodeDefinition)
      case Extracted(id, _) => Continue([ResponseMsg(EmptyResult(id))])
      case JsonError(m) => Stop([], Panicked(m))
      case MethodMismatch(req) =>
        match Cast(req, REFERENCES, env.decodeReferences)
        case Extracted(id, _) => Continue([ResponseMsg(EmptyResult(id))])
        case JsonError(m) => Stop([], Panicked(m))
        case MethodMismatch(_) => Continue([])
  }

  /** The same routing written as a single match on the method name. */
  function HandleByMethod(req: Request, env: Env): StepResult {
    if req.methodName == SHUTDOWN then
      Stop([ResponseMsg(ShutdownAck(req.id))], ShutDown)
    else if req.methodName == DEFINITION then
      if env.decodeDefinition(req.params).Some? then Continue([ResponseMsg(EmptyResult(req.id))])
      else Stop([], Panicked(DEFINITION))
    else if req.methodName == REFERENCES then
      if env.decodeReferences(req.params).Some? then Continue([ResponseMsg(EmptyResult(req.id))])
      else Stop([], Panicked(REFERENCES))
    else
      Continue([])
  }

  /** The chain of extractors is equivalent to the match on the method name: trying
      definition before references and handing a mismatched request on unchanged loses
      nothing. */
  lemma ChainIsMethodMatch(req: Request, env: Env)
    ensures HandleRequest(req, env) == HandleByMethod(req, env)
  {
    if !IsShutdown(req) && req.methodName != DEFINITION {
      var c := Cast(req, DEFINITION, env.decodeDefinition);
      assert c == MethodMismatch(req);
    }
  }

  /** What one request produces: exactly one answer when its method is shutdown, or is
      definition or references with well-formed parameters; otherwise nothing. The loop
      stops exactly on shutdown and on malformed parameters of a recognised method. */
  lemma RequestOutcome(req: Request, env: Env)
    ensures var s := HandleRequest(req, env);
      && (|s.sent| == 1 <==>
            || req.methodName == SHUTDOWN
            || (req.methodName == DEFINITION && env.decodeDefinition(req.params).Some?)
            || (req.methodName == REFERENCES && env.decodeReferences(req.params).Some?))
      && (s.Stop? <==>
            || req.methodName == SHUTDOWN
            || (req.methodName == DEFINITION && env.decodeDefinition(req.params).None?)
            || (req.methodName == REFERENCES && env.decodeReferences(req.params).None?))
      && (s.Stop? ==> s.outcome == if req.methodName == SHUTDOWN then ShutDown else Panicked(req.methodName))
  {
    ChainIsMethodMatch(req, env);
  }
}
