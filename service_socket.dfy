/**
 * The bridge between the transport's callbacks and the blocked caller: two
 * one-shot gates, the session and connection flag, and the response the
 * callbacks write into.
 *
 * The pure part describes one bridge state (`Bridge`) and how each event and
 * each caller-side operation changes it; the class `ServiceSocket` holds that
 * state in fields and is proved against those functions.
 */
module Sockets {
  import opened Wrappers
  import opened Transport
  import opened Responses

  /** The reason string `awaitClose` passes when it closes the session. */
  const ClosedSessionReason: string := "closed session."

  /** `countDown()` on a CountDownLatch: one lower, never below zero. */
  function CountDown(count: nat): (r: nat)
    ensures r <= count
    ensures r == 0 <==> count <= 1
  {
    if count == 0 then 0 else count - 1
  }

  /** What `await` on a latch observes: whether its count has reached zero. */
  predicate Released(count: nat) {
    count == 0
  }

  /**
   * One bridge state: the two latch counts, the session and `connected`
   * flag, the three response fields the callbacks write, and the steps taken
   * against the transport so far.
   */
  datatype Bridge = Bridge(
    openLatch: nat,
    closeLatch: nat,
    session: Option<Session>,
    connected: bool,
    endTime: Option<int>,
    status: int,
    bytes: Option<seq<byte>>,
    steps: seq<Step>)

  /** A new socket over a new response: both gates pending with count 1. */
  function Fresh(steps: seq<Step>): Bridge {
    Bridge(1, 1, None, false, None, NormalClosure, None, steps)
  }

  /** Whether a received message completes the call: no predicate, or the predicate holds. */
  predicate Completes(handler: Option<string -> bool>, message: string) {
    handler.None? || handler.value(message)
  }

  /**
   * The bytes `onFrame` stores: the whole backing array when the buffer has
   * one, otherwise a copy of exactly its remaining bytes.
   */
  function FrameBytes(payload: ByteBuffer): seq<byte> {
    if payload.hasArray then payload.backing else Remaining(payload)
  }

  /** How one callback changes the bridge. */
  function Apply(s: Bridge, e: Event, handler: Option<string -> bool>, convert: seq<byte> -> string): Bridge {
    match e
    case Opened(session) =>
      s.(session := Some(session), connected := true, openLatch := CountDown(s.openLatch))
    case TextMessage(text) =>
      if Completes(handler, text) then s.(closeLatch := CountDown(s.closeLatch)) else s
    case BinaryMessage(data, _, _) =>
      // the converter sees the whole array; offset and length are not used
      if Completes(handler, convert(data)) then s.(closeLatch := CountDown(s.closeLatch)) else s
    case FrameReceived(payload, now) =>
      s.(endTime := Some(now), bytes := Some(FrameBytes(payload)))
    case Closed(code, _) =>
      // client.stop() is attempted; whatever it throws is swallowed
      s.(status := code, openLatch := CountDown(s.openLatch), closeLatch := CountDown(s.closeLatch),
         connected := false, steps := s.steps + [Stop])
  }

  /** The bridge after the callbacks `es`, delivered one at a time in order. */
  function Run(s: Bridge, es: seq<Event>, handler: Option<string -> bool>, convert: seq<byte> -> string): Bridge
    decreases |es|
  {
    if es == [] then s
    else Apply(Run(s, es[..|es| - 1], handler, convert), es[|es| - 1], handler, convert)
  }

  // Kinds of event, for the lemmas below.

  predicate IsOpen(e: Event) { e.Opened? }
  predicate IsClose(e: Event) { e.Closed? }
  predicate IsFrame(e: Event) { e.FrameReceived? }
  predicate IsLifecycle(e: Event) { e.Opened? || e.Closed? }

  /** Whether `e` releases the completion gate: a completing message, or a close. */
  predicate ReleasesCompletion(e: Event, handler: Option<string -> bool>, convert: seq<byte> -> string) {
    match e
    case TextMessage(text) => Completes(handler, text)
    case BinaryMessage(data, _, _) => Completes(handler, convert(data))
    case Closed(_, _) => true
    case _ => false
  }

  /** The index of the last event satisfying `p`, if any. */
  function LastIndex(es: seq<Event>, p: Event -> bool): (r: Option<nat>)
    ensures r.Some? ==> r.value < |es| && p(es[r.value])
    ensures r.Some? ==> forall j :: r.value < j < |es| ==> !p(es[j])
    ensures r.None? ==> forall j :: 0 <= j < |es| ==> !p(es[j])
    decreases |es|
  {
    if es == [] then None
    else if p(es[|es| - 1]) then Some(|es| - 1)
    else LastIndex(es[..|es| - 1], p)
  }

  /** How many events satisfy `p`. */
  function CountWhere(es: seq<Event>, p: Event -> bool): nat
    decreases |es|
  {
    if es == [] then 0
    else CountWhere(es[..|es| - 1], p) + (if p(es[|es| - 1]) then 1 else 0)
  }

  /** No event re-arms a gate: both counts only go down. */
  lemma {:induction false} GatesNeverRearm(s: Bridge, es: seq<Event>, handler: Option<string -> bool>, convert: seq<byte> -> string)
    ensures Run(s, es, handler, convert).openLatch <= s.openLatch
    ensures Run(s, es, handler, convert).closeLatch <= s.closeLatch
    decreases |es|
  {
    if es != [] {
      GatesNeverRearm(s, es[..|es| - 1], handler, convert);
    }
  }

  /** The open gate is released exactly when it already was, or some open or close event arrived. */
  lemma {:induction false} OpenGateReleased(s: Bridge, es: seq<Event>, handler: Option<string -> bool>, convert: seq<byte> -> string)
    requires s.openLatch <= 1
    ensures Released(Run(s, es, handler, convert).openLatch)
        <==> Released(s.openLatch) || exists i :: 0 <= i < |es| && IsLifecycle(es[i])
    decreases |es|
  {
    if es != [] {
      var init := es[..|es| - 1];
      OpenGateReleased(s, init, handler, convert);
      GatesNeverRearm(s, init, handler, convert);
      if exists i :: 0 <= i < |init| && IsLifecycle(init[i]) {
        var i :| 0 <= i < |init| && IsLifecycle(init[i]);
        assert es[i] == init[i];
      }
      if exists i :: 0 <= i < |es| && IsLifecycle(es[i]) {
        var i :| 0 <= i < |es| && IsLifecycle(es[i]);
        if i < |init| {
          assert init[i] == es[i];
        }
      }
    }
  }

  /**
   * The completion gate is released exactly when it already was, or some
   * message satisfied the predicate, or a close arrived.
   */
  lemma {:induction false} CompletionGateReleased(s: Bridge, es: seq<Event>, handler: Option<string -> bool>, convert: seq<byte> -> string)
    requires s.closeLatch <= 1
    ensures Released(Run(s, es, handler, convert).closeLatch)
        <==> Released(s.closeLatch) || exists i :: 0 <= i < |es| && ReleasesCompletion(es[i], handler, convert)
    decreases |es|
  {
    if es != [] {
      var init := es[..|es| - 1];
      CompletionGateReleased(s, init, handler, convert);
      GatesNeverRearm(s, init, handler, convert);
      if exists i :: 0 <= i < |init| && ReleasesCompletion(init[i], handler, convert) {
        var i :| 0 <= i < |init| && ReleasesCompletion(init[i], handler, convert);
        assert es[i] == init[i];
      }
      if exists i :: 0 <= i < |es| && ReleasesCompletion(es[i], handler, convert) {
        var i :| 0 <= i < |es| && ReleasesCompletion(es[i], handler, convert);
        if i < |init| {
          assert init[i] == es[i];
        }
      }
    }
  }

  /** `isConnected()` is true after an open and false after a close, whichever came last. */
  lemma {:induction false} ConnectedFollowsLastLifecycleEvent(s: Bridge, es: seq<Event>, handler: Option<string -> bool>, convert: seq<byte> -> string)
    ensures Run(s, es, handler, convert).connected
         == match LastIndex(es, IsLifecycle)
            case None => s.connected
            case Some(i) => es[i].Opened?
    decreases |es|
  {
    if es != [] {
      ConnectedFollowsLastLifecycleEvent(s, es[..|es| - 1], handler, convert);
    }
  }

  /** The session is the one delivered by the last open event, and is never cleared. */
  lemma {:induction false} SessionIsLastOpened(s: Bridge, es: seq<Event>, handler: Option<string -> bool>, convert: seq<byte> -> string)
    ensures Run(s, es, handler, convert).session
         == match LastIndex(es, IsOpen)
            case None => s.session
            case Some(i) => Some(es[i].session)
    decreases |es|
  {
    if es != [] {
      SessionIsLastOpened(s, es[..|es| - 1], handler, convert);
    }
  }

  /** The recorded status is the code of the last close event, or what it was before. */
  lemma {:induction false} StatusIsLastClose(s: Bridge, es: seq<Event>, handler: Option<string -> bool>, convert: seq<byte> -> string)
    ensures Run(s, es, handler, convert).status
         == match LastIndex(es, IsClose)
            case None => s.status
            case Some(i) => es[i].code
    decreases |es|
  {
    if es != [] {
      StatusIsLastClose(s, es[..|es| - 1], handler, convert);
    }
  }

  /**
   * Last writer wins: the stored bytes and end time are those of the last
   * frame, not of the message that completed the call.
   */
  lemma {:induction false} PayloadIsLastFrame(s: Bridge, es: seq<Event>, handler: Option<string -> bool>, convert: seq<byte> -> string)
    ensures Run(s, es, handler, convert).bytes
         == match LastIndex(es, IsFrame)
            case None => s.bytes
            case Some(i) => Some(FrameBytes(es[i].payload))
    ensures Run(s, es, handler, convert).endTime
         == match LastIndex(es, IsFrame)
            case None => s.endTime
            case Some(i) => Some(es[i].now)
    decreases |es|
  {
    if es != [] {
      PayloadIsLastFrame(s, es[..|es| - 1], handler, convert);
    }
  }

  /** Callbacks only ever add `Stop` steps, one per close event. */
  lemma {:induction false} CallbacksOnlyStop(s: Bridge, es: seq<Event>, handler: Option<string -> bool>, convert: seq<byte> -> string)
    ensures |Run(s, es, handler, convert).steps| == |s.steps| + CountWhere(es, IsClose)
    ensures Run(s, es, handler, convert).steps[..|s.steps|] == s.steps
    ensures forall i :: |s.steps| <= i < |Run(s, es, handler, convert).steps| ==> Run(s, es, handler, convert).steps[i] == Stop
    decreases |es|
  {
    if es != [] {
      CallbacksOnlyStop(s, es[..|es| - 1], handler, convert);
    }
  }

  /** The caller-side `close(code, reason)`: a request to the session, if there is one. */
  function CloseSpec(s: Bridge, code: int, reason: string): Bridge {
    if s.session.Some? then s.(steps := s.steps + [CloseSession(s.session.value, code, reason)]) else s
  }

  /** `awaitOpen`: the wait returns whether the open gate is released. */
  function AwaitOpenSpec(s: Bridge, timeout: int): Bridge {
    s.(steps := s.steps + [AwaitOpen(timeout, Released(s.openLatch))])
  }

  /** `awaitClose`: the wait returns, then the session is always closed normally. */
  function AwaitCloseSpec(s: Bridge, timeout: int): Bridge {
    CloseSpec(s.(steps := s.steps + [AwaitCompletion(timeout, Released(s.closeLatch))]), NormalClosure, ClosedSessionReason)
  }

  /** The step that sending `p` over `session` takes. */
  function SendStep(session: Session, p: Payload): Step {
    match p
    case Binary(data) => SendBinary(session, data)
    case Text(text) => SendText(session, text)
  }

  /**
   * `sendMessage`: with no session, `session.getRemote()` throws a
   * NullPointerException before anything is sent; otherwise the payload is
   * handed to the transport, which may report an I/O failure.
   */
  function SendSpec(s: Bridge, p: Payload, ioFails: bool): (Bridge, Outcome) {
    if s.session.None? then (s, Fail(NullPointer))
    else (s.(steps := s.steps + [SendStep(s.session.value, p)]), if ioFails then Fail(IOFailure) else Pass)
  }

  class ServiceSocket {
    const transport: Transport
    const response: Response
    /** The completion predicate (`closeConnectHandler`); None when the caller gave none. */
    const handler: Option<string -> bool>
    /** The byte-to-string converter, never null here. */
    const convert: seq<byte> -> string
    var openLatch: nat
    var closeLatch: nat
    var session: Option<Session>
    var connected: bool

    /** Each latch was created with count 1 and is never counted up. */
    ghost predicate Valid()
      reads this
    {
      openLatch <= 1 && closeLatch <= 1
    }

    function State(): Bridge
      reads this, response, transport
    {
      Bridge(openLatch, closeLatch, session, connected, response.endTime, response.status, response.bytes, transport.steps)
    }

    constructor (transport: Transport, response: Response, handler: Option<string -> bool>, convert: seq<byte> -> string)
      ensures this.transport == transport && this.response == response
      ensures this.handler == handler && this.convert == convert
      ensures openLatch == 1 && closeLatch == 1 && session == None && !connected
      ensures Valid()
    {
      this.transport := transport;
      this.response := response;
      this.handler := handler;
      this.convert := convert;
      openLatch := 1;
      closeLatch := 1;
      session := None;
      connected := false;
    }

    /** Text `onMessage`: counts the completion gate down iff the message completes the call. */
    method OnTextMessage(message: string)
      requires Valid()
      modifies this
      ensures Valid()
      ensures State() == Apply(old(State()), TextMessage(message), handler, convert)
      ensures closeLatch == if Completes(handler, message) then CountDown(old(closeLatch)) else old(closeLatch)
      ensures openLatch == old(openLatch) && session == old(session) && connected == old(connected)
    {
      if handler.None? || handler.value(message) {
        closeLatch := CountDown(closeLatch);
      }
    }

    /** Binary `onMessage`: the predicate sees the decoding of the whole array; offset and length are ignored. */
    method OnBinaryMessage(message: seq<byte>, offset: int, length: int)
      requires Valid()
      modifies this
      ensures Valid()
      ensures State() == Apply(old(State()), BinaryMessage(message, offset, length), handler, convert)
      ensures closeLatch == if Completes(handler, convert(message)) then CountDown(old(closeLatch)) else old(closeLatch)
      ensures openLatch == old(openLatch) && session == old(session) && connected == old(connected)
    {
      if handler.None? || handler.value(convert(message)) {
        closeLatch := CountDown(closeLatch);
      }
    }

    /** `onFrame`: overwrites the response's end time and bytes; nothing else changes. */
    method OnFrame(payload: ByteBuffer, now: int)
      modifies response
      ensures State() == Apply(old(State()), FrameReceived(payload, now), handler, convert)
      ensures response.endTime == Some(now)
      ensures !payload.hasArray ==> response.bytes == Some(Remaining(payload))
      ensures payload.hasArray ==> response.bytes == Some(payload.backing)
      ensures response.status == old(response.status)
    {
      response.endTime := Some(now);
      var bytes: seq<byte>;
      if payload.hasArray {
        bytes := payload.backing;
      } else {
        bytes := payload.backing[payload.position..payload.limit];
      }
      response.bytes := Some(bytes);
    }

    /** `onOpen`: records the session, marks the socket connected and releases the open gate. */
    method OnOpen(s: Session)
      requires Valid()
      modifies this
      ensures Valid()
      ensures State() == Apply(old(State()), Opened(s), handler, convert)
      ensures session == Some(s) && connected && Released(openLatch)
      ensures closeLatch == old(closeLatch)
    {
      session := Some(s);
      connected := true;
      openLatch := CountDown(openLatch);
    }

    /**
     * `onClose`: records the status, releases both gates whether or not the
     * socket ever opened, marks it disconnected and stops the client.
     */
    method OnClose(code: int, reason: string)
      requires Valid()
      modifies this, response, transport
      ensures Valid()
      ensures State() == Apply(old(State()), Closed(code, reason), handler, convert)
      ensures response.status == code && Released(openLatch) && Released(closeLatch) && !connected
      ensures session == old(session)
    {
      response.status := code;
      openLatch := CountDown(openLatch);
      closeLatch := CountDown(closeLatch);
      connected := false;
      transport.Record(Stop);
    }

    /** The transport delivering one callback. */
    method Deliver(e: Event)
      requires Valid()
      modifies this, response, transport
      ensures Valid()
      ensures State() == Apply(old(State()), e, handler, convert)
    {
      match e
      case Opened(s) => OnOpen(s);
      case TextMessage(text) => OnTextMessage(text);
      case BinaryMessage(data, offset, length) => OnBinaryMessage(data, offset, length);
      case FrameReceived(payload, now) => OnFrame(payload, now);
      case Closed(code, reason) => OnClose(code, reason);
    }

    /** The transport delivering callbacks one at a time, in order. */
    method Dispatch(events: seq<Event>)
      requires Valid()
      modifies this, response, transport
      ensures Valid()
      ensures State() == Run(old(State()), events, handler, convert)
    {
      var i := 0;
      while i < |events|
        invariant 0 <= i <= |events|
        invariant Valid()
        invariant State() == Run(old(State()), events[..i], handler, convert)
      {
        Deliver(events[i]);
        assert events[..i + 1][..i] == events[..i];
        i := i + 1;
      }
      assert events[..|events|] == events;
    }

    /** `awaitOpen`: whether the open gate is released when the wait returns. */
    method AwaitOpen(timeout: int) returns (released: bool)
      modifies transport
      ensures released == Released(openLatch)
      ensures State() == AwaitOpenSpec(old(State()), timeout)
    {
      released := openLatch == 0;
      transport.Record(Step.AwaitOpen(timeout, released));
    }

    /** `awaitClose`: reads the completion gate, then always closes with 1000, and returns the reading. */
    method AwaitClose(timeout: int) returns (released: bool)
      modifies transport
      ensures released == Released(closeLatch)
      ensures State() == AwaitCloseSpec(old(State()), timeout)
    {
      released := closeLatch == 0;
      transport.Record(AwaitCompletion(timeout, released));
      Close(NormalClosure, ClosedSessionReason);
    }

    /** `close(code, text)`: asks the session to close; a no-op when there is no session. */
    method Close(code: int, text: string)
      modifies transport
      ensures State() == CloseSpec(old(State()), code, text)
      ensures session.None? ==> transport.steps == old(transport.steps)
      ensures session.Some? ==> transport.steps == old(transport.steps) + [CloseSession(session.value, code, text)]
    {
      if session.Some? {
        transport.Record(CloseSession(session.value, code, text));
      }
    }

    /** `close()`: `close(1000, "closed session.")`. */
    method CloseNormally()
      modifies transport
      ensures State() == CloseSpec(old(State()), NormalClosure, ClosedSessionReason)
    {
      Close(NormalClosure, ClosedSessionReason);
    }

    /** `sendMessage(byte[])`. */
    method SendBinaryMessage(data: seq<byte>, ioFails: bool) returns (outcome: Outcome)
      modifies transport
      ensures (State(), outcome) == SendSpec(old(State()), Binary(data), ioFails)
    {
      if session.None? {
        return Fail(NullPointer);
      }
      transport.Record(SendBinary(session.value, data));
      outcome := if ioFails then Fail(IOFailure) else Pass;
    }

    /** `sendMessage(String)`. */
    method SendTextMessage(text: string, ioFails: bool) returns (outcome: Outcome)
      modifies transport
      ensures (State(), outcome) == SendSpec(old(State()), Text(text), ioFails)
    {
      if session.None? {
        return Fail(NullPointer);
      }
      transport.Record(SendText(session.value, text));
      outcome := if ioFails then Fail(IOFailure) else Pass;
    }

    /** `getSession()`: the bridge's session, which `SessionIsLastOpened` pins to the last open. */
    function GetSession(): (r: Option<Session>)
      reads this
      ensures r == State().session
    {
      session
    }

    /** `isConnected()`: the bridge's flag, which `ConnectedFollowsLastLifecycleEvent` pins to the last open or close. */
    function IsConnected(): (r: bool)
      reads this
      ensures r == State().connected
    {
      connected
    }
  }
}
