/** Properties of whole sessions: what the loop sends, when it stops, and that nothing
    after a stop is processed. */
module ServerProperties {
  import opened Lsp
  import opened Collaborators
  import opened Dispatch
  import opened Diagnostics
  import opened Server

  /** `m` is a publishDiagnostics notification without a version. */
  predicate IsPublication(m: Message) {
    && m.NotificationMsg?
    && m.notification.methodName == PUBLISH_DIAGNOSTICS
    && m.notification.params.PublishDiagnostics?
    && m.notification.params.pdm.version == None
  }

  /** `m` may be sent during a session over `inbound`: a response answering one of its
      requests, or a versionless publishDiagnostics notification; never a request. */
  predicate SentFor(inbound: seq<Delivery>, m: Message) {
    && (m.ResponseMsg? ==>
          exists j | 0 <= j < |inbound| :: inbound[j].msg.RequestMsg? && Answers(inbound[j].msg.req, m.resp))
    && (m.NotificationMsg? ==> IsPublication(m))
    && !m.RequestMsg?
  }

  /** One message sends only answers to itself, when it is a request, and versionless
      publishDiagnostics notifications, when it is a notification; never a request. */
  lemma StepSends(d: Delivery, env: Env)
    ensures forall x | x in Step(d, env).sent ::
      && (x.ResponseMsg? ==> d.msg.RequestMsg? && Answers(d.msg.req, x.resp))
      && (x.NotificationMsg? ==> d.msg.NotificationMsg? && IsPublication(x))
      && !x.RequestMsg?
  {
    if d.msg.NotificationMsg? {
      var n := d.msg.notification;
      var e := ExtractNotification(n, DID_CHANGE_WATCHED_FILES, env.decodeWatchedFiles);
      if e.Some? {
        PublishChangesSpec(e.value.changes, d.files, env);
      }
    }
  }

  /** A message is handled silently, sending nothing and letting the loop go on, exactly
      when it is a response, a request for a method other than shutdown, definition and
      references, or a notification that is not a well-formed didChangeWatchedFiles or
      lists no change. */
  lemma SilentStep(msg: Message, files: Files, env: Env)
    ensures Step(Delivery(msg, files), env) == Continue([]) <==>
      || msg.ResponseMsg?
      || (msg.RequestMsg? && msg.req.methodName !in {SHUTDOWN, DEFINITION, REFERENCES})
      || (&& msg.NotificationMsg?
          && (|| msg.notification.methodName != DID_CHANGE_WATCHED_FILES
              || env.decodeWatchedFiles(msg.notification.params).None?
              || env.decodeWatchedFiles(msg.notification.params).value.changes == []))
  {
    match msg
    case RequestMsg(req) =>
      RequestOutcome(req, env);
    case ResponseMsg(_) =>
    case NotificationMsg(n) =>
      var e := ExtractNotification(n, DID_CHANGE_WATCHED_FILES, env.decodeWatchedFiles);
      if e.Some? {
        var changes := e.value.changes;
        PublishChangesSpec(changes, files, env);
        if changes != [] {
          var p := PublishChanges(changes, files, env);
          assert p.failed.None? ==> |p.sent| > 0;
        }
      }
  }

  /** `Session` of a sequence with first delivery `m`. */
  lemma SessionCons(m: Delivery, rest: seq<Delivery>, env: Env)
    ensures var s := Step(m, env);
      Session([m] + rest, env) ==
        if s.Continue? then Then(s.sent, Session(rest, env)) else Execution(s.sent, s.outcome)
  {
    assert ([m] + rest)[1..] == rest;
  }

  lemma ThenThen(a: seq<Message>, b: seq<Message>, e: Execution)
    ensures Then(a, Then(b, e)) == Then(a + b, e)
  {
    assert a + (b + e.sent) == (a + b) + e.sent;
  }

  /** A prefix that runs to exhaustion is followed by the session of what comes next. */
  lemma {:induction false} SessionAppend(p: seq<Delivery>, q: seq<Delivery>, env: Env)
    requires Session(p, env).outcome == Exhausted
    ensures Session(p + q, env) == Then(Session(p, env).sent, Session(q, env))
  {
    if p == [] {
      assert p + q == q;
    } else {
      var m, tail := p[0], p[1..];
      assert p == [m] + tail;
      assert p + q == [m] + (tail + q);
      SessionCons(m, tail, env);
      var sent := Step(m, env).sent;
      assert Session(p, env) == Then(sent, Session(tail, env));
      SessionAppend(tail, q, env);
      SessionCons(m, tail + q, env);
      calc {
        Session(p + q, env);
        Then(sent, Session(tail + q, env));
        Then(sent, Then(Session(tail, env).sent, Session(q, env)));
        { ThenThen(sent, Session(tail, env).sent, Session(q, env)); }
        Then(Session(p, env).sent, Session(q, env));
      }
    }
  }

  /** Once the loop has stopped, no later inbound message is processed or sends
      anything. */
  lemma {:induction false} SessionStopsEarly(p: seq<Delivery>, q: seq<Delivery>, env: Env)
    requires Session(p, env).outcome != Exhausted
    ensures Session(p + q, env) == Session(p, env)
  {
    assert p != [];
    assert (p + q)[0] == p[0];
    assert (p + q)[1..] == p[1..] + q;
    if Step(p[0], env).Continue? {
      SessionStopsEarly(p[1..], q, env);
    }
  }

  /** A message that stops the loop, once reached, ends the session with what it sent
      and its outcome; whatever follows it is ignored. */
  lemma StopEndsSession(p: seq<Delivery>, m: Delivery, q: seq<Delivery>, env: Env)
    requires Session(p, env).outcome == Exhausted
    requires Step(m, env).Stop?
    ensures Session(p + [m] + q, env) == Execution(Session(p, env).sent + Step(m, env).sent, Step(m, env).outcome)
  {
    SessionAppend(p, [m] + q, env);
    SessionCons(m, q, env);
    assert p + [m] + q == p + ([m] + q);
  }

  /** A shutdown request reached by the loop is acknowledged with its own id and ends the
      session successfully; whatever follows it is ignored. */
  lemma ShutdownEndsSession(p: seq<Delivery>, req: Request, files: Files, q: seq<Delivery>, env: Env)
    requires Session(p, env).outcome == Exhausted
    requires req.methodName == SHUTDOWN
    ensures Session(p + [Delivery(RequestMsg(req), files)] + q, env)
      == Execution(Session(p, env).sent + [ResponseMsg(Response(req.id, Some(Null), None))], ShutDown)
  {
    StopEndsSession(p, Delivery(RequestMsg(req), files), q, env);
  }

  /** Malformed parameters of a definition or references request abort the session
      without answering it; nothing after it is processed. */
  lemma MalformedParamsAbort(p: seq<Delivery>, req: Request, files: Files, q: seq<Delivery>, env: Env)
    requires Session(p, env).outcome == Exhausted
    requires || (req.methodName == DEFINITION && env.decodeDefinition(req.params).None?)
             || (req.methodName == REFERENCES && env.decodeReferences(req.params).None?)
    ensures Session(p + [Delivery(RequestMsg(req), files)] + q, env) == Execution(Session(p, env).sent, Panicked(req.methodName))
  {
    RequestOutcome(req, env);
    StopEndsSession(p, Delivery(RequestMsg(req), files), q, env);
    assert Session(p, env).sent + [] == Session(p, env).sent;
  }

  /** A watched-files notification one of whose files cannot be read ends the session
      with the read error of the first such path, after publishing the changes before it
      only. */
  lemma ReadFailureEndsSession(p: seq<Delivery>, n: Notification, files: Files, q: seq<Delivery>, env: Env)
    requires Session(p, env).outcome == Exhausted
    requires n.methodName == DID_CHANGE_WATCHED_FILES && env.decodeWatchedFiles(n.params).Some?
    requires exists i | 0 <= i < |env.decodeWatchedFiles(n.params).value.changes| ::
      env.decodeWatchedFiles(n.params).value.changes[i].uri.path !in files
    ensures var changes := env.decodeWatchedFiles(n.params).value.changes;
      var published := PublishChanges(changes, files, env).sent;
      var e := Session(p + [Delivery(NotificationMsg(n), files)] + q, env);
      && |published| < |changes|
      && e.outcome == ReadFailed(changes[|published|].uri.path)
      && e.outcome.path !in files
      && e.sent == Session(p, env).sent + published
  {
    var changes := env.decodeWatchedFiles(n.params).value.changes;
    PublishChangesSpec(changes, files, env);
    StopEndsSession(p, Delivery(NotificationMsg(n), files), q, env);
  }

  /** The session returns because its input ran out exactly when no message stopped it,
      and then it sent what the messages sent, one after another. */
  lemma {:induction false} ExhaustedIffNoStop(inbound: seq<Delivery>, env: Env)
    ensures Session(inbound, env).outcome == Exhausted <==>
      forall k | 0 <= k < |inbound| :: Step(inbound[k], env).Continue?
    ensures Session(inbound, env).outcome == Exhausted ==> Session(inbound, env).sent == Sends(inbound, env)
  {
    if inbound != [] {
      ExhaustedIffNoStop(inbound[1..], env);
      forall k | 1 <= k < |inbound| ensures inbound[k] == inbound[1..][k - 1] { }
    }
  }

  /** Everything a session sends is a response that answers (same id, a result, no error)
      some inbound request, or a versionless publishDiagnostics notification. */
  lemma {:induction false} SessionSends(inbound: seq<Delivery>, env: Env)
    ensures forall k | 0 <= k < |Session(inbound, env).sent| :: SentFor(inbound, Session(inbound, env).sent[k])
  {
    if inbound != [] {
      var s := Step(inbound[0], env);
      var sent := Session(inbound, env).sent;
      StepSends(inbound[0], env);
      forall k | 0 <= k < |sent| ensures SentFor(inbound, sent[k]) {
        if k < |s.sent| {
          assert sent[k] == s.sent[k] && s.sent[k] in s.sent;
          if sent[k].ResponseMsg? {
            assert inbound[0].msg.RequestMsg? && Answers(inbound[0].msg.req, sent[k].resp);
          }
        } else {
          SessionSends(inbound[1..], env);
          var rest := Session(inbound[1..], env).sent;
          assert sent[k] == rest[k - |s.sent|];
          assert SentFor(inbound[1..], sent[k]);
          if sent[k].ResponseMsg? {
            var j :| 0 <= j < |inbound[1..]| && inbound[1..][j].msg.RequestMsg? && Answers(inbound[1..][j].msg.req, sent[k].resp);
            assert inbound[j + 1] == inbound[1..][j];
          }
        }
      }
    }
  }

  /** Every change is read afresh from the file system of its own notification: the same
      one-change notification delivered twice publishes the diagnostics of each
      delivery's text, so a file that parses after a failed parse has its diagnostics
      cleared by an empty list. */
  lemma {:induction false} EachChangeRereads(n: Notification, change: FileEvent, before: Files, after: Files, env: Env)
    requires n.methodName == DID_CHANGE_WATCHED_FILES
    requires env.decodeWatchedFiles(n.params) == Some(DidChangeWatchedFilesParams([change]))
    requires change.uri.path in before && change.uri.path in after
    ensures var e := Session([Delivery(NotificationMsg(n), before), Delivery(NotificationMsg(n), after)], env);
      && e.outcome == Exhausted
      && e.sent == [PublishNotification(change.uri, DiagnosticsOf(before[change.uri.path], env)),
                    PublishNotification(change.uri, DiagnosticsOf(after[change.uri.path], env))]
      && (env.parse(after[change.uri.path]).Parsed? ==>
            e.sent[1].notification.params.pdm.diagnostics == [])
  {
    var first, second := Delivery(NotificationMsg(n), before), Delivery(NotificationMsg(n), after);
    PublishChangesSpec([change], before, env);
    PublishChangesSpec([change], after, env);
    SessionCons(second, [], env);
    SessionCons(first, [second], env);
    assert [first, second] == [first] + [second];
  }
}
