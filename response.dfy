/**
 * The result of one call: a mutable record whose end time, close status and
 * last payload are written in place by the socket's callbacks.
 */
module Responses {
  import opened Wrappers

  /** Status code 1000, "normal closure" (section 7.4.1 of RFC 6455). */
  const NormalClosure: int := 1000

  /** A snapshot of a response's fields. */
  datatype ResponseView = ResponseView(startTime: int, endTime: Option<int>, status: int, bytes: Option<seq<byte>>)

  class Response {
    /** Set once by the constructor; a `const` cannot be reassigned. */
    const startTime: int
    var endTime: Option<int>
    var status: int
    var bytes: Option<seq<byte>>

    constructor (startTime: int)
      ensures this.startTime == startTime
      ensures endTime == None && status == NormalClosure && bytes == None
    {
      this.startTime := startTime;
      endTime := None;
      status := NormalClosure;
      bytes := None;
    }

    function View(): ResponseView
      reads this
    {
      ResponseView(startTime, endTime, status, bytes)
    }

    /** `startTime()`: the clock when the call began, as the snapshot shows it. */
    function StartTime(): (r: int)
      reads this
      ensures r == View().startTime
    {
      startTime
    }

    /** `endTime()`: the clock at the last frame; absent until a frame arrives. */
    function EndTime(): (r: Option<int>)
      reads this
      ensures r == View().endTime
    {
      endTime
    }

    /** `status()`: the code of the last close, 1000 until one arrives. */
    function Status(): (r: int)
      reads this
      ensures r == View().status
    {
      status
    }

    /** `bytes()`: the payload of the last frame; absent until a frame arrives. */
    function Bytes(): (r: Option<seq<byte>>)
      reads this
      ensures r == View().bytes
    {
      bytes
    }

    /**
     * `text(f)`: the converter applied to the stored bytes, null included;
     * a function, so it cannot change the bytes it reads.
     */
    function TextWith(convert: Option<seq<byte>> -> string): (r: string)
      reads this
      ensures r == convert(View().bytes)
    {
      convert(bytes)
    }

    /**
     * `text()`: the platform decoding of the stored bytes; with no bytes
     * stored, `new String(null)` throws.
     */
    function Text(platform: seq<byte> -> string): (r: Result<string>)
      reads this
      ensures r.Ok? <==> bytes.Some?
      ensures r.Ok? ==> r.value == platform(bytes.value)
      ensures r.Thrown? ==> r.error == NullPointer
    {
      if bytes.Some? then Ok(platform(bytes.value)) else Thrown(NullPointer)
    }

    /**
     * `text()` is `text(f)` with an `f` that ignores its argument and decodes
     * the stored bytes the platform's way; when there are none, that decoding
     * throws before `f` can return.
     */
    lemma TextIsTextWithPlatform(platform: seq<byte> -> string)
      ensures bytes.Some? ==> var stored := bytes.value; Text(platform) == Ok(TextWith(_ => platform(stored)))
      ensures bytes.None? ==> Text(platform) == Thrown(NullPointer)
    {
    }
  }
}
