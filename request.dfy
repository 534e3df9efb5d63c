/**
 * The call descriptor: a fluent builder over the target address, payload,
 * headers, query and timeout, and `execute`, which drives one connection
 * through the socket and returns the response.
 */
module Requests {
  import opened Wrappers
  import opened Transport
  import opened Responses
  import opened Sockets
  import opened Queries

  /** The timeout a request starts with, and the one a non-positive setting falls back to. */
  const DefaultTimeout: int := 60

  /** `timeout(t)`: positive settings are kept, every other one becomes 60. */
  function NormalizeTimeout(t: int): (r: int)
    ensures r > 0
    ensures t > 0 ==> r == t
    ensures t <= 0 ==> r == DefaultTimeout
  {
    if t > 0 then t else DefaultTimeout
  }

  /** The fields of a request, as a value. */
  datatype RequestState = RequestState(
    body: Option<string>,
    bytes: Option<seq<byte>>,
    url: string,
    timeout: int,
    headers: Option<map<string, string>>,
    query: Option<seq<(string, string)>>)

  /**
   * What `execute` sends: the bytes when present and non-empty, else the
   * body when present, else nothing.
   */
  function SelectPayload(bytes: Option<seq<byte>>, body: Option<string>): (r: Option<Payload>)
    ensures (r.Some? && r.value.Binary?) <==> bytes.Some? && |bytes.value| > 0
    ensures r.Some? && r.value.Binary? ==> r.value.data == bytes.value
    ensures (r.Some? && r.value.Text?) <==> (bytes.None? || |bytes.value| == 0) && body.Some?
    ensures r.Some? && r.value.Text? ==> r.value.text == body.value
  {
    if bytes.Some? && |bytes.value| > 0 then Some(Binary(bytes.value))
    else if body.Some? then Some(Text(body.value))
    else None
  }

  /**
   * The headers of the upgrade request. They are copied only from a
   * non-empty map, which gives the same headers as copying any map: the
   * guard only keeps a null map from being read.
   */
  function UpgradeHeaders(headers: Option<map<string, string>>): (r: map<string, string>)
    ensures headers.Some? ==> r == headers.value
    ensures headers.None? ==> r == map[]
  {
    if headers.Some? && |headers.value| > 0 then headers.value else map[]
  }

  /** The converter the socket uses: the caller's, or `String::new` when none is given. */
  function Converter(converter: Option<seq<byte> -> string>, platform: seq<byte> -> string): (r: seq<byte> -> string)
    ensures converter.Some? ==> r == converter.value
    ensures converter.None? ==> r == platform
  {
    if converter.Some? then converter.value else platform
  }

  /**
   * What `execute` cannot see: the clock at its start, the platform's
   * byte-to-string decoding, whether starting the client throws, which
   * addresses `new URI` rejects, whether connecting throws, the callbacks
   * delivered before the open wait returns, those delivered after it
   * returns and before the send, whether the transport fails the send, and
   * the callbacks delivered after the send and before the completion wait
   * returns.
   */
  datatype Environment = Environment(
    now: int,
    platform: seq<byte> -> string,
    startFails: bool,
    malformed: string -> bool,
    connectFails: bool,
    beforeOpenWait: seq<Event>,
    beforeSend: seq<Event>,
    sendFails: bool,
    beforeCompletionWait: seq<Event>)

  /** Every callback of one call, in delivery order. */
  function Events(env: Environment): seq<Event> {
    env.beforeOpenWait + env.beforeSend + env.beforeCompletionWait
  }

  /** What one `execute` leaves behind: the rewritten address, the steps taken, and its result. */
  datatype Execution = Execution(url: string, steps: seq<Step>, response: Result<ResponseView>)

  /** The send step of `execute`, if there is a payload to send. */
  function SendPhase(s: Bridge, payload: Option<Payload>, ioFails: bool): (Bridge, Outcome) {
    if payload.None? then (s, Pass) else SendSpec(s, payload.value, ioFails)
  }

  /**
   * The part of `execute` after connecting, on the bridge: the open wait,
   * the send, the completion wait and the closing request.
   */
  function ConverseSpec(s: Bridge, payload: Option<Payload>, timeout: int, handler: Option<string -> bool>,
                        convert: seq<byte> -> string, env: Environment): (Bridge, Outcome)
  {
    var waited := AwaitOpenSpec(Run(s, env.beforeOpenWait, handler, convert), timeout);
    var ready := Run(waited, env.beforeSend, handler, convert);
    var (sent, outcome) := SendPhase(ready, payload, env.sendFails);
    if outcome.Fail? then (sent, outcome)
    else (AwaitCloseSpec(Run(sent, env.beforeCompletionWait, handler, convert), timeout), Pass)
  }

  /**
   * One connection driven to its end: start the client, parse `url`,
   * connect to it with `headers`, then converse; the steps taken and what
   * `execute` returns. The address is parsed before `connect` is called, so
   * a malformed one throws after the start and before any connect.
   */
  function ConnectionSpec(url: string, headers: map<string, string>, payload: Option<Payload>, timeout: int,
                          handler: Option<string -> bool>, convert: seq<byte> -> string, env: Environment): (r: (seq<Step>, Result<ResponseView>))
    ensures env.startFails || env.malformed(url) ==> r.0 == [Start] && r.1.Thrown?
    ensures env.startFails ==> r.1.error == StartFailure
    ensures !env.startFails && env.malformed(url) ==> r.1.error == UriSyntax
    ensures !env.startFails && !env.malformed(url) && env.connectFails ==> r == ([Start, Connect(url, headers)], Thrown(ConnectFailure))
  {
    if env.startFails then ([Start], Thrown(StartFailure))
    else if env.malformed(url) then ([Start], Thrown(UriSyntax))
    else
      var started := [Start, Connect(url, headers)];
      if env.connectFails then (started, Thrown(ConnectFailure))
      else
        var (done, outcome) := ConverseSpec(Fresh(started), payload, timeout, handler, convert, env);
        if outcome.Fail? then (done.steps, Thrown(outcome.error))
        else (done.steps, Ok(ResponseView(env.now, done.endTime, done.status, done.bytes)))
  }

  /**
   * `execute(handler, converter)` on a request with fields `f`, as a value:
   * the address it is left with and connects to, the steps it takes and
   * its result; when starting the client or parsing the address throws,
   * starting is the only step.
   */
  function ExecuteSpec(f: RequestState, handler: Option<string -> bool>, converter: Option<seq<byte> -> string>, env: Environment): (r: Execution)
    ensures r.url == f.url + QueryStringOf(f.query)
    ensures env.startFails || env.malformed(r.url) ==> r.steps == [Start] && r.response.Thrown?
  {
    var url := f.url + QueryStringOf(f.query);
    var connection := ConnectionSpec(url, UpgradeHeaders(f.headers), SelectPayload(f.bytes, f.body), f.timeout,
                                     handler, Converter(converter, env.platform), env);
    Execution(url, connection.0, connection.1)
  }

  /** A new response stamped `now`, a new client, and a new socket over both. */
  method NewSocket(now: int, handler: Option<string -> bool>, convert: seq<byte> -> string) returns (socket: ServiceSocket)
    ensures fresh(socket) && fresh(socket.response) && fresh(socket.transport)
    ensures socket.Valid() && socket.State() == Fresh([])
    ensures socket.response.startTime == now && socket.handler == handler && socket.convert == convert
  {
    var response := new Response(now);
    var transport := new Transport();
    socket := new ServiceSocket(transport, response, handler, convert);
  }

  /** The conversation over a connected socket, as `execute` runs it. */
  method Converse(socket: ServiceSocket, payload: Option<Payload>, timeout: int, env: Environment) returns (outcome: Outcome)
    requires socket.Valid()
    modifies socket, socket.response, socket.transport
    ensures (socket.State(), outcome) == ConverseSpec(old(socket.State()), payload, timeout, socket.handler, socket.convert, env)
  {
    socket.Dispatch(env.beforeOpenWait);
    var openedInTime := socket.AwaitOpen(timeout);  // not looked at
    socket.Dispatch(env.beforeSend);
    outcome := Pass;
    match payload {
      case Some(Binary(data)) =>
        outcome := socket.SendBinaryMessage(data, env.sendFails);
      case Some(Text(text)) =>
        outcome := socket.SendTextMessage(text, env.sendFails);
      case None =>
    }
    if outcome.Fail? {
      return;
    }
    socket.Dispatch(env.beforeCompletionWait);
    var completed := socket.AwaitClose(timeout);
  }

  /** One connection driven to its end, over a new socket and a new response. */
  method RunConnection(url: string, headers: map<string, string>, payload: Option<Payload>, timeout: int,
                       handler: Option<string -> bool>, convert: seq<byte> -> string, env: Environment)
    returns (r: Result<Response>, steps: seq<Step>)
    ensures var x := ConnectionSpec(url, headers, payload, timeout, handler, convert, env);
      && steps == x.0
      && r.Ok? == x.1.Ok?
      && (r.Ok? ==> fresh(r.value) && r.value.View() == x.1.value)
      && (r.Thrown? ==> r.error == x.1.error)
  {
    var socket := NewSocket(env.now, handler, convert);
    var transport := socket.transport;
    transport.Record(Start);
    if env.startFails {
      return Thrown(StartFailure), transport.steps;
    }
    if env.malformed(url) {
      return Thrown(UriSyntax), transport.steps;
    }
    transport.Record(Connect(url, headers));
    if env.connectFails {
      return Thrown(ConnectFailure), transport.steps;
    }
    assert socket.State() == Fresh([Start, Connect(url, headers)]);
    ghost var spec := ConverseSpec(Fresh([Start, Connect(url, headers)]), payload, timeout, handler, convert, env);
    var sent := Converse(socket, payload, timeout, env);
    assert sent == spec.1 && transport.steps == spec.0.steps;
    if sent.Fail? {
      return Thrown(sent.error), transport.steps;
    }
    assert socket.response.View() == ResponseView(env.now, spec.0.endTime, spec.0.status, spec.0.bytes);
    return Ok(socket.response), transport.steps;
  }

  /**
   * The connection `execute` drives for a request with fields `f` whose
   * query string is `qs`: the upgrade headers and the payload it chooses.
   */
  method Drive(f: RequestState, qs: string, handler: Option<string -> bool>, converter: Option<seq<byte> -> string>, env: Environment)
    returns (r: Result<Response>, steps: seq<Step>)
    requires qs == QueryStringOf(f.query)
    ensures var x := ExecuteSpec(f, handler, converter, env);
      && steps == x.steps
      && r.Ok? == x.response.Ok?
      && (r.Ok? ==> fresh(r.value) && r.value.View() == x.response.value)
      && (r.Thrown? ==> r.error == x.response.error)
  {
    var upgrade := UpgradeHeaders(f.headers);
    var payload := SelectPayload(f.bytes, f.body);
    r, steps := RunConnection(f.url + qs, upgrade, payload, f.timeout, handler, Converter(converter, env.platform), env);
  }

  class Request {
    var body: Option<string>
    var bytes: Option<seq<byte>>
    var url: string
    var timeout: int
    var headers: Option<map<string, string>>
    var query: Option<seq<(string, string)>>

    function State(): RequestState
      reads this
    {
      RequestState(body, bytes, url, timeout, headers, query)
    }

    /** The timeout is always positive. */
    ghost predicate Valid()
      reads this
    {
      timeout > 0
    }

    constructor (url: string)
      ensures State() == RequestState(None, None, url, DefaultTimeout, None, None)
      ensures Valid()
      ensures Body() == "" && Bytes() == [] && Headers() == map[] && QueryText() == ""
      ensures Url() == url && Timeout() == DefaultTimeout
    {
      body := None;
      bytes := None;
      this.url := url;
      timeout := DefaultTimeout;
      headers := None;
      query := None;
    }

    method WithBody(body: Option<string>) returns (r: Request)
      requires Valid()
      modifies this
      ensures r == this
      ensures Valid()
      ensures State() == old(State()).(body := body)
    {
      this.body := body;
      r := this;
    }

    method WithBytes(bytes: Option<seq<byte>>) returns (r: Request)
      requires Valid()
      modifies this
      ensures r == this
      ensures Valid()
      ensures State() == old(State()).(bytes := bytes)
    {
      this.bytes := bytes;
      r := this;
    }

    /** `query(customizer)`: the customizer fills a fresh, empty map. */
    method WithQueryCustomizer(customize: seq<(string, string)> -> seq<(string, string)>) returns (r: Request)
      requires Valid()
      modifies this
      ensures r == this
      ensures Valid()
      ensures State() == old(State()).(query := Some(customize([])))
    {
      query := Some(customize([]));
      r := this;
    }

    method WithQuery(query: Option<seq<(string, string)>>) returns (r: Request)
      requires Valid()
      modifies this
      ensures r == this
      ensures Valid()
      ensures State() == old(State()).(query := query)
    {
      this.query := query;
      r := this;
    }

    /** `headers(customizer)`: the customizer fills a fresh, empty map. */
    method WithHeadersCustomizer(customize: map<string, string> -> map<string, string>) returns (r: Request)
      requires Valid()
      modifies this
      ensures r == this
      ensures Valid()
      ensures State() == old(State()).(headers := Some(customize(map[])))
    {
      headers := Some(customize(map[]));
      r := this;
    }

    method WithHeaders(headers: Option<map<string, string>>) returns (r: Request)
      requires Valid()
      modifies this
      ensures r == this
      ensures Valid()
      ensures State() == old(State()).(headers := headers)
    {
      this.headers := headers;
      r := this;
    }

    method WithTimeout(timeout: int) returns (r: Request)
      requires Valid()
      modifies this
      ensures r == this
      ensures State() == old(State()).(timeout := NormalizeTimeout(timeout))
      ensures Valid()
    {
      this.timeout := NormalizeTimeout(timeout);
      r := this;
    }

    /** `body()`: the body, or "" when none is set. */
    function Body(): (r: string)
      reads this
      ensures body.Some? ==> r == body.value
      ensures body.None? ==> r == ""
    {
      if body.None? then "" else body.value
    }

    /** `bytes()`: the bytes, or an empty array when none are set. */
    function Bytes(): (r: seq<byte>)
      reads this
      ensures bytes.Some? ==> r == bytes.value
      ensures bytes.None? ==> r == []
    {
      if bytes.None? then [] else bytes.value
    }

    /** `query()`: "" when no query is set, else the map's printed form, which is never empty. */
    function QueryText(): (r: string)
      reads this
      ensures r == "" <==> query.None?
      ensures query.Some? ==> r == MapText(query.value)
    {
      if query.None? then "" else MapText(query.value)
    }

    /** `headers()`: the headers, or an empty map when none are set. */
    function Headers(): (r: map<string, string>)
      reads this
      ensures headers.Some? ==> r == headers.value
      ensures headers.None? ==> r == map[]
    {
      if headers.None? then map[] else headers.value
    }

    /** `url()`: the address, as `execute` last left it. */
    function Url(): (r: string)
      reads this
      ensures r == State().url
    {
      url
    }

    /** `timeout()`: the timeout in seconds, positive under the class invariant. */
    function Timeout(): (r: int)
      reads this
      ensures r == State().timeout
      ensures Valid() ==> r > 0
    {
      timeout
    }

    /** `getQueryString()`: a `StringJoiner("&")` filled entry by entry. */
    method QueryString() returns (qs: string)
      ensures qs == QueryStringOf(query)
      ensures qs == "" <==> query.None? || |query.value| == 0
    {
      var joined := "";
      if query.Some? && |query.value| > 0 {
        var entries := query.value;
        var i := 0;
        while i < |entries|
          invariant 0 <= i <= |entries|
          invariant joined == Join(Items(entries[..i]), "&")
        {
          var item := entries[i].0 + "=" + entries[i].1;
          assert Items(entries[..i + 1]) == Items(entries[..i]) + [item];
          if i == 0 {
            joined := item;
          } else {
            joined := joined + "&" + item;
          }
          i := i + 1;
        }
        assert entries[..i] == entries;
      }
      qs := if |joined| > 0 then "?" + joined else joined;
    }

    /**
     * `execute(handler, converter)`: applies the headers, appends the query
     * to `url`, connects, waits for the open gate (ignoring what the wait
     * returns), sends at most one payload, waits for the completion gate and
     * always closes.
     */
    method Execute(handler: Option<string -> bool>, converter: Option<seq<byte> -> string>, env: Environment)
      returns (r: Result<Response>, steps: seq<Step>)
      requires Valid()
      modifies this
      ensures State() == old(State()).(url := old(url) + QueryStringOf(old(query)))
      ensures Valid()
      ensures var x := ExecuteSpec(old(State()), handler, converter, env);
        && url == x.url
        && steps == x.steps
        && r.Ok? == x.response.Ok?
        && (r.Ok? ==> fresh(r.value) && r.value.View() == x.response.value)
        && (r.Thrown? ==> r.error == x.response.error)
    {
      var qs := QueryString();
      r, steps := Drive(State(), qs, handler, converter, env);
      url := url + qs;
    }

    /** `execute(handler)`: no converter, so bytes are decoded the platform's way. */
    method ExecuteWith(handler: Option<string -> bool>, env: Environment) returns (r: Result<Response>, steps: seq<Step>)
      requires Valid()
      modifies this
      ensures State() == old(State()).(url := old(url) + QueryStringOf(old(query)))
      ensures Valid()
      ensures var x := ExecuteSpec(old(State()), handler, None, env);
        && steps == x.steps
        && r.Ok? == x.response.Ok?
        && (r.Ok? ==> fresh(r.value) && r.value.View() == x.response.value)
        && (r.Thrown? ==> r.error == x.response.error)
    {
      r, steps := Execute(handler, None, env);
    }

    /** `execute()`: no predicate, so the first message of any kind completes the call. */
    method ExecuteDefault(env: Environment) returns (r: Result<Response>, steps: seq<Step>)
      requires Valid()
      modifies this
      ensures State() == old(State()).(url := old(url) + QueryStringOf(old(query)))
      ensures Valid()
      ensures var x := ExecuteSpec(old(State()), None, None, env);
        && steps == x.steps
        && r.Ok? == x.response.Ok?
        && (r.Ok? ==> fresh(r.value) && r.value.View() == x.response.value)
        && (r.Thrown? ==> r.error == x.response.error)
    {
      r, steps := ExecuteWith(None, env);
    }
  }
}
