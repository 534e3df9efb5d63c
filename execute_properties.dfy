/**
 * What one `execute` does, stated against the request and the callbacks
 * alone: the steps the caller takes and their order, the single send, the
 * closing request, when it throws and what the response it returns holds.
 */
module ExecuteProperties {
  import opened Wrappers
  import opened Transport
  import opened Responses
  import opened Sockets
  import opened Queries
  import opened Requests

  /** The steps the caller's thread takes: all but the `Stop`s the close callback issues. */
  function CallerSteps(steps: seq<Step>): (r: seq<Step>)
    ensures |r| <= |steps|
    decreases |steps|
  {
    if steps == [] then []
    else CallerSteps(steps[..|steps| - 1]) + (if steps[|steps| - 1].Stop? then [] else [steps[|steps| - 1]])
  }

  /**
   * What the filter keeps: no `Stop`, every other step in its order, and a
   * log without a `Stop` whole.
   */
  lemma {:induction false} CallerStepsMeaning(steps: seq<Step>)
    ensures forall i :: 0 <= i < |CallerSteps(steps)| ==> !CallerSteps(steps)[i].Stop?
    ensures (forall i :: 0 <= i < |steps| ==> !steps[i].Stop?) ==> CallerSteps(steps) == steps
    decreases |steps|
  {
    if steps != [] {
      var init := steps[..|steps| - 1];
      CallerStepsMeaning(init);
      assert steps == init + [steps[|steps| - 1]];
    }
  }

  lemma CallerStepsAppend(steps: seq<Step>, step: Step)
    ensures CallerSteps(steps + [step]) == CallerSteps(steps) + (if step.Stop? then [] else [step])
  {
    assert (steps + [step])[..|steps|] == steps;
  }

  /** One callback records a `Stop` if it is a close, and nothing otherwise. */
  lemma ApplySteps(s: Bridge, e: Event, handler: Option<string -> bool>, convert: seq<byte> -> string)
    ensures Apply(s, e, handler, convert).steps == if e.Closed? then s.steps + [Stop] else s.steps
  {
  }

  /** Callbacks add no caller step: whatever they record is a `Stop`. */
  lemma {:induction false} CallbacksAddNoCallerSteps(s: Bridge, es: seq<Event>, handler: Option<string -> bool>, convert: seq<byte> -> string)
    ensures CallerSteps(Run(s, es, handler, convert).steps) == CallerSteps(s.steps)
    decreases |es|
  {
    if es != [] {
      var prev := Run(s, es[..|es| - 1], handler, convert);
      CallbacksAddNoCallerSteps(s, es[..|es| - 1], handler, convert);
      ApplySteps(prev, es[|es| - 1], handler, convert);
      CallerStepsAppend(prev.steps, Stop);
    }
  }

  /** The last event of `a + b` satisfying `p` is the last one in `b`, else the last one in `a`. */
  lemma {:induction false} LastIndexConcat(a: seq<Event>, b: seq<Event>, p: Event -> bool)
    ensures LastIndex(a + b, p)
         == match LastIndex(b, p)
            case None => LastIndex(a, p)
            case Some(i) => Some(|a| + i)
    decreases |b|
  {
    if b == [] {
      assert a + b == a;
    } else {
      assert (a + b)[..|a + b| - 1] == a + b[..|b| - 1];
      LastIndexConcat(a, b[..|b| - 1], p);
    }
  }

  /** The session handed over by the last open callback among `es`, if any. */
  function LastSession(es: seq<Event>): (r: Option<Session>)
    ensures r.None? <==> forall i :: 0 <= i < |es| ==> !es[i].Opened?
  {
    match LastIndex(es, IsOpen)
    case None => None
    case Some(i) => Some(es[i].session)
  }

  /** Whether some callback among `es` is an open or a close. */
  predicate AnyLifecycle(es: seq<Event>) {
    exists i :: 0 <= i < |es| && IsLifecycle(es[i])
  }

  /** Whether some callback among `es` releases the completion gate. */
  predicate AnyCompletion(es: seq<Event>, handler: Option<string -> bool>, convert: seq<byte> -> string) {
    exists i :: 0 <= i < |es| && ReleasesCompletion(es[i], handler, convert)
  }

  /** The last open of `a + b` is the last one in `b`, else the last one in `a`. */
  lemma LastSessionConcat(a: seq<Event>, b: seq<Event>)
    ensures LastSession(a + b) == if LastSession(b).Some? then LastSession(b) else LastSession(a)
  {
    LastIndexConcat(a, b, IsOpen);
    match LastIndex(b, IsOpen)
    case None =>
    case Some(i) => assert (a + b)[|a| + i] == b[i];
  }

  /** Some callback of `a + b` releases the completion gate iff one in `a` or one in `b` does. */
  lemma CompletionInConcat(a: seq<Event>, b: seq<Event>, handler: Option<string -> bool>, convert: seq<byte> -> string)
    ensures AnyCompletion(a + b, handler, convert) <==> AnyCompletion(a, handler, convert) || AnyCompletion(b, handler, convert)
  {
    if AnyCompletion(a + b, handler, convert) {
      var i :| 0 <= i < |a + b| && ReleasesCompletion((a + b)[i], handler, convert);
      if i < |a| {
        assert (a + b)[i] == a[i];
      } else {
        assert (a + b)[i] == b[i - |a|];
      }
    }
    if AnyCompletion(a, handler, convert) {
      var i :| 0 <= i < |a| && ReleasesCompletion(a[i], handler, convert);
      assert (a + b)[i] == a[i];
    }
    if AnyCompletion(b, handler, convert) {
      var i :| 0 <= i < |b| && ReleasesCompletion(b[i], handler, convert);
      assert (a + b)[|a| + i] == b[i];
    }
  }

  /**
   * The open phase over a new socket: the callbacks add no caller step, the
   * open wait reports whether any open or close arrived, the session is the
   * last one opened, and the completion gate is released only by a callback.
   */
  lemma OpenPhase(started: seq<Step>, pre: seq<Event>, handler: Option<string -> bool>, convert: seq<byte> -> string, timeout: int)
    ensures var w := AwaitOpenSpec(Run(Fresh(started), pre, handler, convert), timeout);
      && CallerSteps(w.steps) == CallerSteps(started) + [AwaitOpen(timeout, AnyLifecycle(pre))]
      && w.session == LastSession(pre)
      && w.closeLatch <= 1
      && (Released(w.closeLatch) <==> AnyCompletion(pre, handler, convert))
  {
    var s1 := Run(Fresh(started), pre, handler, convert);
    CallbacksAddNoCallerSteps(Fresh(started), pre, handler, convert);
    OpenGateReleased(Fresh(started), pre, handler, convert);
    CompletionGateReleased(Fresh(started), pre, handler, convert);
    GatesNeverRearm(Fresh(started), pre, handler, convert);
    SessionIsLastOpened(Fresh(started), pre, handler, convert);
    CallerStepsAppend(s1.steps, AwaitOpen(timeout, Released(s1.openLatch)));
  }

  /**
   * The callbacks between the open wait and the send: they add no caller
   * step; the session is the last one opened before the send, and the
   * completion gate is released only by a callback before the send.
   */
  lemma ReadyPhase(started: seq<Step>, pre: seq<Event>, mid: seq<Event>, handler: Option<string -> bool>,
                   convert: seq<byte> -> string, timeout: int)
    ensures var r := Run(AwaitOpenSpec(Run(Fresh(started), pre, handler, convert), timeout), mid, handler, convert);
      && CallerSteps(r.steps) == CallerSteps(started) + [AwaitOpen(timeout, AnyLifecycle(pre))]
      && r.session == LastSession(pre + mid)
      && r.closeLatch <= 1
      && (Released(r.closeLatch) <==> AnyCompletion(pre + mid, handler, convert))
  {
    var w := AwaitOpenSpec(Run(Fresh(started), pre, handler, convert), timeout);
    OpenPhase(started, pre, handler, convert, timeout);
    CallbacksAddNoCallerSteps(w, mid, handler, convert);
    CompletionGateReleased(w, mid, handler, convert);
    GatesNeverRearm(w, mid, handler, convert);
    SessionIsLastOpened(w, mid, handler, convert);
    LastSessionConcat(pre, mid);
    CompletionInConcat(pre, mid, handler, convert);
  }

  /**
   * The send: a send step over the session when there is a payload and a
   * session; a NullPointerException when there is a payload and no session;
   * only the steps change.
   */
  lemma SendPhaseSteps(w: Bridge, payload: Option<Payload>, ioFails: bool)
    ensures var sent := SendPhase(w, payload, ioFails);
      && sent.0 == w.(steps := sent.0.steps)
      && CallerSteps(sent.0.steps)
         == CallerSteps(w.steps) + (if payload.None? || w.session.None? then [] else [SendStep(w.session.value, payload.value)])
      && (sent.1.Fail? <==> payload.Some? && (w.session.None? || ioFails))
      && (sent.1.Fail? ==> sent.1.error == if w.session.None? then NullPointer else IOFailure)
  {
    if payload.Some? && w.session.Some? {
      CallerStepsAppend(w.steps, SendStep(w.session.value, payload.value));
    }
  }

  /**
   * The completion phase: the callbacks add no caller step, the wait
   * reports whether the gate was already released or some callback released
   * it, and the session of the last open, if any, is closed normally.
   */
  lemma ClosePhase(sent: Bridge, post: seq<Event>, handler: Option<string -> bool>, convert: seq<byte> -> string, timeout: int)
    requires sent.closeLatch <= 1
    ensures var d := AwaitCloseSpec(Run(sent, post, handler, convert), timeout);
      var session := if LastSession(post).Some? then LastSession(post) else sent.session;
      CallerSteps(d.steps)
      == CallerSteps(sent.steps) + [AwaitCompletion(timeout, Released(sent.closeLatch) || AnyCompletion(post, handler, convert))]
         + (if session.None? then [] else [CloseSession(session.value, NormalClosure, ClosedSessionReason)])
  {
    var s2 := Run(sent, post, handler, convert);
    CallbacksAddNoCallerSteps(sent, post, handler, convert);
    CompletionGateReleased(sent, post, handler, convert);
    SessionIsLastOpened(sent, post, handler, convert);
    var waited := s2.steps + [AwaitCompletion(timeout, Released(s2.closeLatch))];
    CallerStepsAppend(s2.steps, AwaitCompletion(timeout, Released(s2.closeLatch)));
    if s2.session.Some? {
      CallerStepsAppend(waited, CloseSession(s2.session.value, NormalClosure, ClosedSessionReason));
    }
  }

  /**
   * The caller's steps of one call, from its pieces: start; unless it throws
   * before connecting, the connect; unless connecting throws, the open wait
   * and the send, if any; unless the send throws, the completion wait and
   * the close, if any.
   */
  function ReferenceSteps(connect: Step, awaitOpen: Step, send: seq<Step>, awaitCompletion: Step, closing: seq<Step>,
                          failsBeforeConnect: bool, connectFails: bool, sendThrows: bool): seq<Step> {
    if failsBeforeConnect then [Start]
    else if connectFails then [Start, connect]
    else if sendThrows then [Start, connect, awaitOpen] + send
    else [Start, connect, awaitOpen] + send + [awaitCompletion] + closing
  }

  /**
   * The caller's steps in `execute`, read off the request and the callbacks:
   * start; unless starting throws or the rewritten address is malformed,
   * connect to it with the upgrade headers; unless connecting throws, the
   * open wait, released by any open or close callback before it returns;
   * the send of the selected payload over the session of the last open
   * callback before the send, which throws when there is none; unless the
   * send threw, the completion wait, released by any completing message or
   * close so far; and the normal close of the session of the last open
   * callback, if there was one.
   */
  function ExpectedCallerSteps(f: RequestState, handler: Option<string -> bool>, converter: Option<seq<byte> -> string>, env: Environment): seq<Step> {
    var convert := Converter(converter, env.platform);
    var address := f.url + QueryStringOf(f.query);
    var payload := SelectPayload(f.bytes, f.body);
    var session := LastSession(env.beforeOpenWait + env.beforeSend);
    var send := if payload.None? || session.None? then [] else [SendStep(session.value, payload.value)];
    var closing := if LastSession(Events(env)).None? then []
                   else [CloseSession(LastSession(Events(env)).value, NormalClosure, ClosedSessionReason)];
    ReferenceSteps(Connect(address, UpgradeHeaders(f.headers)), AwaitOpen(f.timeout, AnyLifecycle(env.beforeOpenWait)), send,
                   AwaitCompletion(f.timeout, AnyCompletion(Events(env), handler, convert)), closing,
                   env.startFails || env.malformed(address), env.connectFails, payload.Some? && (session.None? || env.sendFails))
  }

  /** The caller's steps of the conversation over a new socket, phase by phase. */
  lemma ConverseCallerSteps(started: seq<Step>, payload: Option<Payload>, timeout: int,
                            handler: Option<string -> bool>, convert: seq<byte> -> string, env: Environment)
    ensures var (done, outcome) := ConverseSpec(Fresh(started), payload, timeout, handler, convert, env);
      var session := LastSession(env.beforeOpenWait + env.beforeSend);
      var opening := CallerSteps(started) + [AwaitOpen(timeout, AnyLifecycle(env.beforeOpenWait))]
                     + (if payload.None? || session.None? then [] else [SendStep(session.value, payload.value)]);
      var closing := if LastSession(Events(env)).None? then []
                     else [CloseSession(LastSession(Events(env)).value, NormalClosure, ClosedSessionReason)];
      && (outcome.Fail? <==> payload.Some? && (session.None? || env.sendFails))
      && (outcome.Fail? ==> outcome.error == if session.None? then NullPointer else IOFailure)
      && (outcome.Fail? ==> CallerSteps(done.steps) == opening)
      && (outcome.Pass? ==> CallerSteps(done.steps)
                            == opening + [AwaitCompletion(timeout, AnyCompletion(Events(env), handler, convert))] + closing)
  {
    var w := AwaitOpenSpec(Run(Fresh(started), env.beforeOpenWait, handler, convert), timeout);
    var ready := Run(w, env.beforeSend, handler, convert);
    ReadyPhase(started, env.beforeOpenWait, env.beforeSend, handler, convert, timeout);
    SendPhaseSteps(ready, payload, env.sendFails);
    var sent := SendPhase(ready, payload, env.sendFails);
    if sent.1.Pass? {
      ClosePhase(sent.0, env.beforeCompletionWait, handler, convert, timeout);
      CompletionInConcat(env.beforeOpenWait + env.beforeSend, env.beforeCompletionWait, handler, convert);
      LastSessionConcat(env.beforeOpenWait + env.beforeSend, env.beforeCompletionWait);
    }
  }

  /** The caller's steps of one connection are the reference steps built from its pieces. */
  lemma ConnectionCallerSteps(url: string, headers: map<string, string>, payload: Option<Payload>, timeout: int,
                              handler: Option<string -> bool>, convert: seq<byte> -> string, env: Environment)
    ensures var session := LastSession(env.beforeOpenWait + env.beforeSend);
      var send := if payload.None? || session.None? then [] else [SendStep(session.value, payload.value)];
      var closing := if LastSession(Events(env)).None? then []
                     else [CloseSession(LastSession(Events(env)).value, NormalClosure, ClosedSessionReason)];
      CallerSteps(ConnectionSpec(url, headers, payload, timeout, handler, convert, env).0)
      == ReferenceSteps(Connect(url, headers), AwaitOpen(timeout, AnyLifecycle(env.beforeOpenWait)), send,
                        AwaitCompletion(timeout, AnyCompletion(Events(env), handler, convert)), closing,
                        env.startFails || env.malformed(url), env.connectFails, payload.Some? && (session.None? || env.sendFails))
  {
    CallerStepsAppend([], Start);
    assert [] + [Start] == [Start];
    if !env.startFails && !env.malformed(url) {
      CallerStepsAppend([Start], Connect(url, headers));
      assert [Start] + [Connect(url, headers)] == [Start, Connect(url, headers)];
      if !env.connectFails {
        ConnectionConverses(url, headers, payload, timeout, handler, convert, env);
        ConversationCallerSteps(ConnectionSpec(url, headers, payload, timeout, handler, convert, env).0,
                                url, headers, payload, timeout, handler, convert, env);
      }
    }
  }

  /** A connection that gets past starting, parsing and connecting takes the steps of its conversation. */
  lemma ConnectionConverses(url: string, headers: map<string, string>, payload: Option<Payload>, timeout: int,
                            handler: Option<string -> bool>, convert: seq<byte> -> string, env: Environment)
    requires !env.startFails && !env.malformed(url) && !env.connectFails
    ensures ConnectionSpec(url, headers, payload, timeout, handler, convert, env).0
         == ConverseSpec(Fresh([Start, Connect(url, headers)]), payload, timeout, handler, convert, env).0.steps
  {
  }

  /**
   * The caller's steps of a conversation after start and connect: those two,
   * the open wait, the send if any and, unless the send throws, the
   * completion wait and the close if any.
   */
  lemma ConversationCallerSteps(steps: seq<Step>, url: string, headers: map<string, string>, payload: Option<Payload>, timeout: int,
                                handler: Option<string -> bool>, convert: seq<byte> -> string, env: Environment)
    requires steps == ConverseSpec(Fresh([Start, Connect(url, headers)]), payload, timeout, handler, convert, env).0.steps
    ensures var session := LastSession(env.beforeOpenWait + env.beforeSend);
      var send := if payload.None? || session.None? then [] else [SendStep(session.value, payload.value)];
      var closing := if LastSession(Events(env)).None? then []
                     else [CloseSession(LastSession(Events(env)).value, NormalClosure, ClosedSessionReason)];
      var opening := [Start, Connect(url, headers), AwaitOpen(timeout, AnyLifecycle(env.beforeOpenWait))] + send;
      && (payload.Some? && (session.None? || env.sendFails) ==> CallerSteps(steps) == opening)
      && (!(payload.Some? && (session.None? || env.sendFails)) ==>
            CallerSteps(steps) == opening + [AwaitCompletion(timeout, AnyCompletion(Events(env), handler, convert))] + closing)
  {
    var started := [Start, Connect(url, headers)];
    CallerStepsAppend([], Start);
    assert [] + [Start] == [Start];
    CallerStepsAppend([Start], started[1]);
    assert [Start] + [started[1]] == started;
    ConverseCallerSteps(started, payload, timeout, handler, convert, env);
    var session := LastSession(env.beforeOpenWait + env.beforeSend);
    var send := if payload.None? || session.None? then [] else [SendStep(session.value, payload.value)];
    assert started + [AwaitOpen(timeout, AnyLifecycle(env.beforeOpenWait))] + send
        == [Start, Connect(url, headers), AwaitOpen(timeout, AnyLifecycle(env.beforeOpenWait))] + send;
  }

  /** The caller's steps of `execute` are exactly the expected ones. */
  lemma ExecuteCallerSteps(f: RequestState, handler: Option<string -> bool>, converter: Option<seq<byte> -> string>, env: Environment)
    ensures CallerSteps(ExecuteSpec(f, handler, converter, env).steps) == ExpectedCallerSteps(f, handler, converter, env)
  {
    ConnectionCallerSteps(f.url + QueryStringOf(f.query), UpgradeHeaders(f.headers), SelectPayload(f.bytes, f.body), f.timeout,
                          handler, Converter(converter, env.platform), env);
  }

  /** The position of each kind of step in the fixed order of `execute`; `Stop` comes from a callback. */
  function Rank(step: Step): nat {
    match step
    case Start => 0
    case Connect(_, _) => 1
    case AwaitOpen(_, _) => 2
    case SendBinary(_, _) => 3
    case SendText(_, _) => 3
    case AwaitCompletion(_, _) => 4
    case CloseSession(_, _, _) => 5
    case Stop => 6
  }

  /** Each step ranks strictly above the one before it. */
  predicate Ascending(steps: seq<Step>) {
    forall i :: 0 < i < |steps| ==> Rank(steps[i - 1]) < Rank(steps[i])
  }

  predicate IsSend(step: Step) {
    step.SendBinary? || step.SendText?
  }

  lemma AscendingAppend(steps: seq<Step>, step: Step)
    requires Ascending(steps)
    requires |steps| > 0 ==> Rank(steps[|steps| - 1]) < Rank(step)
    ensures Ascending(steps + [step])
  {
    var r := steps + [step];
    forall i | 0 < i < |r|
      ensures Rank(r[i - 1]) < Rank(r[i])
    {
      if i < |steps| {
        assert r[i - 1] == steps[i - 1] && r[i] == steps[i];
      }
    }
  }

  /**
   * The pieces of the reference steps, in order: start and connect, the open
   * wait, at most one send, the completion wait, at most one close.
   */
  lemma PiecesAscending(connect: Step, awaitOpen: Step, send: seq<Step>, awaitCompletion: Step, closing: seq<Step>)
    requires connect.Connect? && awaitOpen.AwaitOpen? && awaitCompletion.AwaitCompletion?
    requires |send| <= 1 && (|send| == 1 ==> IsSend(send[0]))
    requires |closing| <= 1 && (|closing| == 1 ==> closing[0].CloseSession?)
    ensures Ascending([Start])
    ensures Ascending([Start, connect])
    ensures Ascending([Start, connect, awaitOpen] + send)
    ensures Ascending([Start, connect, awaitOpen] + send + [awaitCompletion] + closing)
  {
    AscendingAppend([Start], connect);
    assert [Start] + [connect] == [Start, connect];
    AscendingAppend([Start, connect], awaitOpen);
    assert [Start, connect] + [awaitOpen] == [Start, connect, awaitOpen];
    var opening := [Start, connect, awaitOpen] + send;
    if |send| == 1 {
      AscendingAppend([Start, connect, awaitOpen], send[0]);
      assert [Start, connect, awaitOpen] + [send[0]] == opening;
    } else {
      assert opening == [Start, connect, awaitOpen];
    }
    AscendingAppend(opening, awaitCompletion);
    var waited := opening + [awaitCompletion];
    if |closing| == 1 {
      AscendingAppend(waited, closing[0]);
      assert waited + [closing[0]] == waited + closing;
    } else {
      assert waited + closing == waited;
    }
  }

  /** Whether the pieces have the kinds `ReferenceSteps` expects. */
  predicate WellFormedPieces(connect: Step, awaitOpen: Step, send: seq<Step>, awaitCompletion: Step, closing: seq<Step>) {
    && connect.Connect? && awaitOpen.AwaitOpen? && awaitCompletion.AwaitCompletion?
    && |send| <= 1 && (|send| == 1 ==> IsSend(send[0]))
    && |closing| <= 1 && (|closing| == 1 ==> closing[0].CloseSession?)
  }

  /** The steps built from well-formed pieces are in order, start first and the connect second when there is one. */
  lemma ReferenceOrder(connect: Step, awaitOpen: Step, send: seq<Step>, awaitCompletion: Step, closing: seq<Step>,
                       failsBeforeConnect: bool, connectFails: bool, sendThrows: bool)
    requires WellFormedPieces(connect, awaitOpen, send, awaitCompletion, closing)
    ensures var calls := ReferenceSteps(connect, awaitOpen, send, awaitCompletion, closing, failsBeforeConnect, connectFails, sendThrows);
      && Ascending(calls)
      && |calls| >= 1
      && calls[0] == Start
      && (|calls| >= 2 <==> !failsBeforeConnect)
      && (|calls| >= 2 ==> calls[1] == connect)
  {
    PiecesAscending(connect, awaitOpen, send, awaitCompletion, closing);
  }

  /** In the steps built from well-formed pieces the send, if any, is the fourth step and the given one. */
  lemma ReferenceSend(connect: Step, awaitOpen: Step, send: seq<Step>, awaitCompletion: Step, closing: seq<Step>,
                      failsBeforeConnect: bool, connectFails: bool, sendThrows: bool)
    requires WellFormedPieces(connect, awaitOpen, send, awaitCompletion, closing)
    ensures var calls := ReferenceSteps(connect, awaitOpen, send, awaitCompletion, closing, failsBeforeConnect, connectFails, sendThrows);
      && (forall i :: 0 <= i < |calls| && IsSend(calls[i]) ==> i == 3)
      && (!failsBeforeConnect && !connectFails && |send| == 1 <==> |calls| > 3 && IsSend(calls[3]))
      && (|calls| > 3 && IsSend(calls[3]) ==> calls[3] == send[0])
  {
    ReferenceOrder(connect, awaitOpen, send, awaitCompletion, closing, failsBeforeConnect, connectFails, sendThrows);
  }

  /** When nothing throws, the steps built from well-formed pieces end with the completion wait and then the close, if any. */
  lemma ReferenceTail(connect: Step, awaitOpen: Step, send: seq<Step>, awaitCompletion: Step, closing: seq<Step>,
                      failsBeforeConnect: bool, connectFails: bool, sendThrows: bool)
    requires WellFormedPieces(connect, awaitOpen, send, awaitCompletion, closing)
    requires !failsBeforeConnect && !connectFails && !sendThrows
    ensures var calls := ReferenceSteps(connect, awaitOpen, send, awaitCompletion, closing, failsBeforeConnect, connectFails, sendThrows);
      && |calls| >= 4
      && (|closing| == 1 ==> calls[|calls| - 1] == closing[0] && calls[|calls| - 2] == awaitCompletion)
      && (|closing| == 0 ==> calls[|calls| - 1] == awaitCompletion)
  {
  }

  /**
   * The reference steps are in the fixed order, beginning with start, and
   * with the connect after it exactly when starting and parsing succeeded.
   */
  lemma ExpectedStepOrder(f: RequestState, handler: Option<string -> bool>, converter: Option<seq<byte> -> string>, env: Environment)
    ensures var calls := ExpectedCallerSteps(f, handler, converter, env);
      var address := f.url + QueryStringOf(f.query);
      && Ascending(calls)
      && |calls| >= 1
      && calls[0] == Start
      && (|calls| >= 2 <==> !env.startFails && !env.malformed(address))
      && (|calls| >= 2 ==> calls[1] == Connect(address, UpgradeHeaders(f.headers)))
  {
    var convert := Converter(converter, env.platform);
    var address := f.url + QueryStringOf(f.query);
    var payload := SelectPayload(f.bytes, f.body);
    var session := LastSession(env.beforeOpenWait + env.beforeSend);
    var send := if payload.None? || session.None? then [] else [SendStep(session.value, payload.value)];
    var closing := if LastSession(Events(env)).None? then []
                   else [CloseSession(LastSession(Events(env)).value, NormalClosure, ClosedSessionReason)];
    ReferenceOrder(Connect(address, UpgradeHeaders(f.headers)), AwaitOpen(f.timeout, AnyLifecycle(env.beforeOpenWait)), send,
                   AwaitCompletion(f.timeout, AnyCompletion(Events(env), handler, convert)), closing,
                   env.startFails || env.malformed(address), env.connectFails, payload.Some? && (session.None? || env.sendFails));
  }

  /**
   * The fixed order: start; then, unless starting throws or the rewritten
   * address is malformed, connect to it with the upgrade headers; then each
   * later kind of step at most once and in order (open wait, send,
   * completion wait, close).
   */
  lemma ExecuteStepOrder(f: RequestState, handler: Option<string -> bool>, converter: Option<seq<byte> -> string>, env: Environment)
    ensures var calls := CallerSteps(ExecuteSpec(f, handler, converter, env).steps);
      var address := f.url + QueryStringOf(f.query);
      && (forall i, j :: 0 <= i < j < |calls| ==> Rank(calls[i]) < Rank(calls[j]))
      && |calls| >= 1
      && calls[0] == Start
      && (|calls| >= 2 <==> !env.startFails && !env.malformed(address))
      && (|calls| >= 2 ==> calls[1] == Connect(address, UpgradeHeaders(f.headers)))
  {
    ExecuteCallerSteps(f, handler, converter, env);
    StepOrderOf(CallerSteps(ExecuteSpec(f, handler, converter, env).steps), f, handler, converter, env);
  }

  /** Any steps equal to the reference ones are in the fixed order, pairwise. */
  lemma StepOrderOf(calls: seq<Step>, f: RequestState, handler: Option<string -> bool>, converter: Option<seq<byte> -> string>, env: Environment)
    requires calls == ExpectedCallerSteps(f, handler, converter, env)
    ensures var address := f.url + QueryStringOf(f.query);
      && (forall i, j :: 0 <= i < j < |calls| ==> Rank(calls[i]) < Rank(calls[j]))
      && |calls| >= 1
      && calls[0] == Start
      && (|calls| >= 2 <==> !env.startFails && !env.malformed(address))
      && (|calls| >= 2 ==> calls[1] == Connect(address, UpgradeHeaders(f.headers)))
  {
    ExpectedStepOrder(f, handler, converter, env);
    AscendingPairwise(calls);
  }

  /**
   * In the reference steps the send, if any, is the fourth step; it is there
   * exactly when starting, parsing and connecting succeeded, there is a
   * payload and an open callback arrived before the send, and it carries the
   * selected payload over that session.
   */
  lemma ExpectedSend(f: RequestState, handler: Option<string -> bool>, converter: Option<seq<byte> -> string>, env: Environment)
    ensures var calls := ExpectedCallerSteps(f, handler, converter, env);
      var payload := SelectPayload(f.bytes, f.body);
      var session := LastSession(env.beforeOpenWait + env.beforeSend);
      var connected := !env.startFails && !env.malformed(f.url + QueryStringOf(f.query)) && !env.connectFails;
      && (forall i :: 0 <= i < |calls| && IsSend(calls[i]) ==> i == 3)
      && (connected && payload.Some? && session.Some? <==> |calls| > 3 && IsSend(calls[3]))
      && (|calls| > 3 && IsSend(calls[3]) ==> calls[3] == SendStep(session.value, payload.value))
  {
    var convert := Converter(converter, env.platform);
    var address := f.url + QueryStringOf(f.query);
    var payload := SelectPayload(f.bytes, f.body);
    var session := LastSession(env.beforeOpenWait + env.beforeSend);
    var send := if payload.None? || session.None? then [] else [SendStep(session.value, payload.value)];
    var closing := if LastSession(Events(env)).None? then []
                   else [CloseSession(LastSession(Events(env)).value, NormalClosure, ClosedSessionReason)];
    ReferenceSend(Connect(address, UpgradeHeaders(f.headers)), AwaitOpen(f.timeout, AnyLifecycle(env.beforeOpenWait)), send,
                  AwaitCompletion(f.timeout, AnyCompletion(Events(env), handler, convert)), closing,
                  env.startFails || env.malformed(address), env.connectFails, payload.Some? && (session.None? || env.sendFails));
  }

  /**
   * At most one send, always the fourth caller step; it happens exactly when
   * starting, parsing and connecting succeeded, there is a payload and an
   * open callback arrived before the send (before or after the open wait
   * returned); it carries the selected payload over that session: the bytes
   * when non-empty, else the body.
   */
  lemma ExecuteSendsOnce(f: RequestState, handler: Option<string -> bool>, converter: Option<seq<byte> -> string>, env: Environment)
    ensures var calls := CallerSteps(ExecuteSpec(f, handler, converter, env).steps);
      var payload := SelectPayload(f.bytes, f.body);
      var session := LastSession(env.beforeOpenWait + env.beforeSend);
      var connected := !env.startFails && !env.malformed(f.url + QueryStringOf(f.query)) && !env.connectFails;
      && (forall i :: 0 <= i < |calls| && IsSend(calls[i]) ==> i == 3)
      && ((exists i :: 0 <= i < |calls| && IsSend(calls[i])) <==> connected && payload.Some? && session.Some?)
      && (|calls| > 3 && IsSend(calls[3]) ==>
            && calls[3] == SendStep(session.value, payload.value)
            && (calls[3].SendBinary? <==> f.bytes.Some? && |f.bytes.value| > 0)
            && (calls[3].SendBinary? ==> calls[3].data == f.bytes.value)
            && (calls[3].SendText? ==> calls[3].text == f.body.value))
  {
    ExecuteCallerSteps(f, handler, converter, env);
    ExpectedSend(f, handler, converter, env);
  }

  /** In an ascending sequence every later step ranks higher. */
  lemma AscendingPairwise(steps: seq<Step>)
    requires Ascending(steps)
    ensures forall i, j :: 0 <= i < j < |steps| ==> Rank(steps[i]) < Rank(steps[j])
  {
    forall i, j | 0 <= i < j < |steps|
      ensures Rank(steps[i]) < Rank(steps[j])
    {
      AscendingRankGrows(steps, i, j);
    }
  }

  /** In an ascending sequence ranks grow with the index. */
  lemma {:induction false} AscendingRankGrows(steps: seq<Step>, i: nat, j: nat)
    requires Ascending(steps)
    requires i < j < |steps|
    ensures Rank(steps[i]) < Rank(steps[j])
    decreases j - i
  {
    if i + 1 < j {
      AscendingRankGrows(steps, i + 1, j);
    }
  }

  /**
   * `execute` throws exactly when starting the client throws, the rewritten
   * address is malformed, connecting throws, or there is a payload and
   * either no open callback arrived before the send (it dereferences a null
   * session) or the send fails; the result of the open wait itself is never
   * looked at.
   */
  lemma ExecuteOutcome(f: RequestState, handler: Option<string -> bool>, converter: Option<seq<byte> -> string>, env: Environment)
    ensures var x := ExecuteSpec(f, handler, converter, env);
      var address := f.url + QueryStringOf(f.query);
      var payload := SelectPayload(f.bytes, f.body);
      var session := LastSession(env.beforeOpenWait + env.beforeSend);
      && (x.response.Thrown? <==> env.startFails || env.malformed(address) || env.connectFails
                                  || (payload.Some? && (session.None? || env.sendFails)))
      && (x.response.Thrown? ==> x.response.error == if env.startFails then StartFailure
                                                     else if env.malformed(address) then UriSyntax
                                                     else if env.connectFails then ConnectFailure
                                                     else if session.None? then NullPointer
                                                     else IOFailure)
  {
    var started := [Start, Connect(f.url + QueryStringOf(f.query), UpgradeHeaders(f.headers))];
    ConverseCallerSteps(started, SelectPayload(f.bytes, f.body), f.timeout, handler, Converter(converter, env.platform), env);
  }

  /** A call that reaches the completion wait ends with it, then with the close of the last session, if any. */
  lemma ExpectedClosingTail(f: RequestState, handler: Option<string -> bool>, converter: Option<seq<byte> -> string>, env: Environment)
    requires !env.startFails && !env.malformed(f.url + QueryStringOf(f.query)) && !env.connectFails
    requires !(SelectPayload(f.bytes, f.body).Some? && (LastSession(env.beforeOpenWait + env.beforeSend).None? || env.sendFails))
    ensures var calls := ExpectedCallerSteps(f, handler, converter, env);
      var session := LastSession(Events(env));
      var wait := AwaitCompletion(f.timeout, AnyCompletion(Events(env), handler, Converter(converter, env.platform)));
      && |calls| >= 4
      && (session.Some? ==>
            calls[|calls| - 1] == CloseSession(session.value, NormalClosure, ClosedSessionReason) && calls[|calls| - 2] == wait)
      && (session.None? ==> calls[|calls| - 1] == wait)
  {
    var convert := Converter(converter, env.platform);
    var address := f.url + QueryStringOf(f.query);
    var payload := SelectPayload(f.bytes, f.body);
    var session := LastSession(env.beforeOpenWait + env.beforeSend);
    var send := if payload.None? || session.None? then [] else [SendStep(session.value, payload.value)];
    var closing := if LastSession(Events(env)).None? then []
                   else [CloseSession(LastSession(Events(env)).value, NormalClosure, ClosedSessionReason)];
    ReferenceTail(Connect(address, UpgradeHeaders(f.headers)), AwaitOpen(f.timeout, AnyLifecycle(env.beforeOpenWait)), send,
                  AwaitCompletion(f.timeout, AnyCompletion(Events(env), handler, convert)), closing,
                  env.startFails || env.malformed(address), env.connectFails, payload.Some? && (session.None? || env.sendFails));
  }

  /**
   * Whenever `execute` returns, its last step is the completion wait followed
   * by a normal close of the session, if any open callback arrived at all.
   */
  lemma ExecuteAlwaysCloses(f: RequestState, handler: Option<string -> bool>, converter: Option<seq<byte> -> string>, env: Environment)
    ensures var x := ExecuteSpec(f, handler, converter, env);
      var calls := CallerSteps(x.steps);
      var session := LastSession(Events(env));
      var convert := Converter(converter, env.platform);
      x.response.Ok? ==>
        && |calls| >= 4
        && (session.Some? ==>
              && calls[|calls| - 1] == CloseSession(session.value, NormalClosure, ClosedSessionReason)
              && calls[|calls| - 2] == AwaitCompletion(f.timeout, AnyCompletion(Events(env), handler, convert)))
        && (session.None? ==> calls[|calls| - 1] == AwaitCompletion(f.timeout, AnyCompletion(Events(env), handler, convert)))
  {
    ExecuteOutcome(f, handler, converter, env);
    ExecuteCallerSteps(f, handler, converter, env);
    if ExecuteSpec(f, handler, converter, env).response.Ok? {
      ExpectedClosingTail(f, handler, converter, env);
    }
  }

  /** The status a response reports after the callbacks `es`: the code of the last close, else 1000. */
  function LastStatus(es: seq<Event>): (r: int)
    ensures r == NormalClosure || exists i :: 0 <= i < |es| && es[i].Closed? && es[i].code == r
    ensures (forall i :: 0 <= i < |es| ==> !es[i].Closed?) ==> r == NormalClosure
  {
    match LastIndex(es, IsClose)
    case None => NormalClosure
    case Some(i) => es[i].code
  }

  /** The bytes a response holds after the callbacks `es`: those of the last frame, if any. */
  function LastFrameBytes(es: seq<Event>): (r: Option<seq<byte>>)
    ensures r.None? <==> forall i :: 0 <= i < |es| ==> !es[i].FrameReceived?
    ensures r.Some? ==> exists i :: 0 <= i < |es| && es[i].FrameReceived? && r.value == FrameBytes(es[i].payload)
  {
    match LastIndex(es, IsFrame)
    case None => None
    case Some(i) => Some(FrameBytes(es[i].payload))
  }

  /** The end time a response holds after the callbacks `es`: the clock at the last frame, if any. */
  function LastFrameTime(es: seq<Event>): (r: Option<int>)
    ensures r.None? <==> forall i :: 0 <= i < |es| ==> !es[i].FrameReceived?
    ensures r.Some? ==> exists i :: 0 <= i < |es| && es[i].FrameReceived? && r.value == es[i].now
  {
    match LastIndex(es, IsFrame)
    case None => None
    case Some(i) => Some(es[i].now)
  }

  /** The last close of `a + b` is the last one in `b`, else the last one in `a`. */
  lemma LastStatusConcat(a: seq<Event>, b: seq<Event>)
    ensures LastStatus(a + b) == if LastIndex(b, IsClose).Some? then LastStatus(b) else LastStatus(a)
  {
    LastIndexConcat(a, b, IsClose);
    match LastIndex(b, IsClose)
    case None =>
    case Some(i) => assert (a + b)[|a| + i] == b[i];
  }

  /** The last frame of `a + b` is the last one in `b`, else the last one in `a`. */
  lemma LastFrameBytesConcat(a: seq<Event>, b: seq<Event>)
    ensures LastFrameBytes(a + b) == if LastIndex(b, IsFrame).Some? then LastFrameBytes(b) else LastFrameBytes(a)
  {
    LastIndexConcat(a, b, IsFrame);
    match LastIndex(b, IsFrame)
    case None =>
    case Some(i) => assert (a + b)[|a| + i] == b[i];
  }

  /** The clock at the last frame of `a + b` is that of the last one in `b`, else of the last one in `a`. */
  lemma LastFrameTimeConcat(a: seq<Event>, b: seq<Event>)
    ensures LastFrameTime(a + b) == if LastIndex(b, IsFrame).Some? then LastFrameTime(b) else LastFrameTime(a)
  {
    LastIndexConcat(a, b, IsFrame);
    match LastIndex(b, IsFrame)
    case None =>
    case Some(i) => assert (a + b)[|a| + i] == b[i];
  }

  /** The response fields of a bridge after callbacks: overwritten by the last close and the last frame. */
  lemma FieldsAfterCallbacks(s: Bridge, es: seq<Event>, handler: Option<string -> bool>, convert: seq<byte> -> string)
    ensures Run(s, es, handler, convert).status == if LastIndex(es, IsClose).Some? then LastStatus(es) else s.status
    ensures Run(s, es, handler, convert).bytes == if LastIndex(es, IsFrame).Some? then LastFrameBytes(es) else s.bytes
    ensures Run(s, es, handler, convert).endTime == if LastIndex(es, IsFrame).Some? then LastFrameTime(es) else s.endTime
  {
    StatusIsLastClose(s, es, handler, convert);
    PayloadIsLastFrame(s, es, handler, convert);
  }

  /** After the open phase over a new socket, the response holds the last close and the last frame so far. */
  lemma OpenPhaseFields(started: seq<Step>, pre: seq<Event>, handler: Option<string -> bool>, convert: seq<byte> -> string, timeout: int)
    ensures var w := AwaitOpenSpec(Run(Fresh(started), pre, handler, convert), timeout);
      && w.status == LastStatus(pre)
      && w.bytes == LastFrameBytes(pre)
      && w.endTime == LastFrameTime(pre)
  {
    FieldsAfterCallbacks(Fresh(started), pre, handler, convert);
  }

  /** After the callbacks before the send, the response holds the last close and the last frame so far. */
  lemma ReadyPhaseFields(started: seq<Step>, pre: seq<Event>, mid: seq<Event>, handler: Option<string -> bool>,
                         convert: seq<byte> -> string, timeout: int)
    ensures var r := Run(AwaitOpenSpec(Run(Fresh(started), pre, handler, convert), timeout), mid, handler, convert);
      && r.status == LastStatus(pre + mid)
      && r.bytes == LastFrameBytes(pre + mid)
      && r.endTime == LastFrameTime(pre + mid)
  {
    OpenPhaseFields(started, pre, handler, convert, timeout);
    FieldsAfterCallbacks(AwaitOpenSpec(Run(Fresh(started), pre, handler, convert), timeout), mid, handler, convert);
    LastStatusConcat(pre, mid);
    LastFrameBytesConcat(pre, mid);
    LastFrameTimeConcat(pre, mid);
  }

  /** The completion phase leaves the response fields to the later callbacks, else as they were. */
  lemma ClosePhaseFields(sent: Bridge, post: seq<Event>, handler: Option<string -> bool>, convert: seq<byte> -> string, timeout: int)
    ensures var d := AwaitCloseSpec(Run(sent, post, handler, convert), timeout);
      && d.status == (if LastIndex(post, IsClose).Some? then LastStatus(post) else sent.status)
      && d.bytes == (if LastIndex(post, IsFrame).Some? then LastFrameBytes(post) else sent.bytes)
      && d.endTime == (if LastIndex(post, IsFrame).Some? then LastFrameTime(post) else sent.endTime)
  {
    FieldsAfterCallbacks(sent, post, handler, convert);
  }

  /** The response fields after a conversation that did not throw: the last close and the last frame. */
  lemma ConverseResponse(started: seq<Step>, payload: Option<Payload>, timeout: int,
                         handler: Option<string -> bool>, convert: seq<byte> -> string, env: Environment)
    ensures var (done, outcome) := ConverseSpec(Fresh(started), payload, timeout, handler, convert, env);
      outcome.Pass? ==>
        && done.status == LastStatus(Events(env))
        && done.bytes == LastFrameBytes(Events(env))
        && done.endTime == LastFrameTime(Events(env))
  {
    var w := AwaitOpenSpec(Run(Fresh(started), env.beforeOpenWait, handler, convert), timeout);
    var ready := Run(w, env.beforeSend, handler, convert);
    ReadyPhaseFields(started, env.beforeOpenWait, env.beforeSend, handler, convert, timeout);
    SendPhaseSteps(ready, payload, env.sendFails);
    ClosePhaseFields(SendPhase(ready, payload, env.sendFails).0, env.beforeCompletionWait, handler, convert, timeout);
    var early := env.beforeOpenWait + env.beforeSend;
    LastStatusConcat(early, env.beforeCompletionWait);
    LastFrameBytesConcat(early, env.beforeCompletionWait);
    LastFrameTimeConcat(early, env.beforeCompletionWait);
  }

  /**
   * The response `execute` returns: stamped with the clock at its start,
   * with the status of the last close callback (1000 when none arrived) and
   * the bytes and end time of the last frame, whichever message completed
   * the call.
   */
  lemma ExecuteResponse(f: RequestState, handler: Option<string -> bool>, converter: Option<seq<byte> -> string>, env: Environment)
    ensures var x := ExecuteSpec(f, handler, converter, env);
      x.response.Ok? ==>
        x.response.value == ResponseView(env.now, LastFrameTime(Events(env)), LastStatus(Events(env)), LastFrameBytes(Events(env)))
  {
    var started := [Start, Connect(f.url + QueryStringOf(f.query), UpgradeHeaders(f.headers))];
    ConverseResponse(started, SelectPayload(f.bytes, f.body), f.timeout, handler, Converter(converter, env.platform), env);
  }

  /**
   * A call in which no close callback arrives, because the server never
   * closed before the completion wait timed out, reports status 1000: the
   * same as a normal close.
   */
  lemma TimeoutReadsAsNormalClosure(f: RequestState, handler: Option<string -> bool>, converter: Option<seq<byte> -> string>, env: Environment)
    requires forall i :: 0 <= i < |Events(env)| ==> !Events(env)[i].Closed?
    ensures var x := ExecuteSpec(f, handler, converter, env);
      x.response.Ok? ==> x.response.value.status == NormalClosure
  {
    ExecuteResponse(f, handler, converter, env);
  }

  /**
   * `execute` rewrites the address in place, so a second call on the same
   * request appends the query string again.
   */
  lemma SecondExecuteAppendsQueryAgain(f: RequestState, handler: Option<string -> bool>, converter: Option<seq<byte> -> string>,
                                       first: Environment, second: Environment)
    ensures var again := f.(url := ExecuteSpec(f, handler, converter, first).url);
      var qs := QueryStringOf(f.query);
      && ExecuteSpec(again, handler, converter, second).url == f.url + qs + qs
      && (f.query.Some? && |f.query.value| > 0 ==> |ExecuteSpec(again, handler, converter, second).url| > |f.url + qs| > |f.url|)
  {
  }
}
