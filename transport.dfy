/**
 * The transport beneath the client, seen from outside: the session handles it
 * hands out, the events it delivers to the socket's callbacks, and the log of
 * everything the client does against it.
 */
module Transport {
  import opened Wrappers

  /** An open session handle delivered by the connect callback. */
  datatype Session = Session(id: nat)

  /**
   * A java.nio.ByteBuffer: its storage, whether that storage is an accessible
   * array (`hasArray()`), and the readable window `position..limit`.
   */
  datatype Buffer = Buffer(backing: seq<byte>, hasArray: bool, position: nat, limit: nat)

  /** The buffer invariant `position <= limit <= capacity`. */
  type ByteBuffer = b: Buffer | b.position <= b.limit <= |b.backing|
    witness Buffer([], false, 0, 0)

  /** The bytes `remaining()` counts: the window `position..limit`. */
  function Remaining(b: ByteBuffer): (r: seq<byte>)
    ensures |r| == b.limit - b.position
  {
    b.backing[b.position..b.limit]
  }

  /** One callback delivered by the transport, with the clock reading for frames. */
  datatype Event =
    | Opened(session: Session)
    | TextMessage(text: string)
    | BinaryMessage(data: seq<byte>, offset: int, length: int)
    | FrameReceived(payload: ByteBuffer, now: int)
    | Closed(code: int, reason: string)

  /** What `execute` sends once the connection is open. */
  datatype Payload = Binary(data: seq<byte>) | Text(text: string)

  /** One observable step of the client, in the order it happens. */
  datatype Step =
    | Start                                                   // client.start()
    | Connect(uri: string, headers: map<string, string>)      // client.connect(socket, uri, upgrade request)
    | AwaitOpen(timeout: int, released: bool)                 // the wait for the open gate returned
    | SendBinary(session: Session, data: seq<byte>)           // session.getRemote().sendBytes(..)
    | SendText(session: Session, text: string)                // session.getRemote().sendString(..)
    | AwaitCompletion(timeout: int, released: bool)           // the wait for the completion gate returned
    | CloseSession(session: Session, code: int, reason: string) // session.close(code, reason)
    | Stop                                                    // client.stop(), from the close callback

  /** The abstract transport: it records every step taken against it. */
  class Transport {
    var steps: seq<Step>

    constructor ()
      ensures steps == []
    {
      steps := [];
    }

    method Record(step: Step)
      modifies this
      ensures steps == old(steps) + [step]
    {
      steps := steps + [step];
    }
  }
}
