# simple-websocket, modelled in Dafny

simple-websocket is a small synchronous WebSocket client built on Jetty. A
`Request` describes one call: the address, an optional text body or byte
payload, the upgrade headers, a query map and a timeout in seconds.
`Request.execute(handler, converter)` drives one connection to its end:

- it creates a `Response` stamped with the current time and a `ServiceSocket` over it;
- it copies the headers into the upgrade request and appends the query string to the address;
- it starts the client, parses the address and connects;
- it waits for the open gate, sends at most one payload, and waits for the completion gate;
- once the completion wait returns, it asks the session to close with status 1000 ("normal closure", section 7.4.1 of RFC 6455) if a session was ever opened; it gets there only when nothing before it threw.

The `ServiceSocket` bridges the transport's callbacks and the blocked caller. It holds two
one-shot `CountDownLatch(1)` gates, the session, a `connected` flag and the shared `Response`,
which its callbacks write into.

The model has seven modules, one file each:

| file | module | what it holds |
|---|---|---|
| `wrappers.dfy` | `Wrappers` | `Option`, `Result` and `Outcome`, the five exceptions `execute` can raise in the model, and signed `byte` |
| `transport.dfy` | `Transport` | the abstract transport: sessions, byte buffers, the callbacks it delivers (`Event`), and a class that logs every `Step` the client takes against it |
| `response.dfy` | `Responses` | the class `Response`, with the fields the callbacks assign in place |
| `service_socket.dfy` | `Sockets` | the socket's state as a value (`Bridge`), and one function per callback and per caller-side operation; the class `ServiceSocket` holds that state in fields and each method is proved against its function |
| `query.dfy` | `Queries` | the query string and its inverse, and the printed form of a query map |
| `request.dfy` | `Requests` | the builder class `Request`, the driver `execute` as a value (`ExecuteSpec`), and the methods that carry it out over a new socket |
| `execute_properties.dfy` | `ExecuteProperties` | what one `execute` does, stated against the request and the callbacks alone |

A latch is a natural-number counter. Counting down is `max(0, c - 1)`, and an await reads
whether the counter is 0. Callbacks are sequential method calls. Whatever the caller cannot see
is an `Environment` parameter of `execute`:

- the clock;
- the platform's byte decoding;
- whether starting the client throws, which addresses `new URI` rejects, and whether connecting throws;
- the callbacks delivered in three groups: before the open wait returns, after it returns and before the send, and after the send and before the completion wait returns;
- whether the transport fails the send.

The observable behaviour is the log of `Step`s on the transport: `Start`, `Connect`,
`AwaitOpen`, `SendBinary`/`SendText`, `AwaitCompletion`, `CloseSession`, and `Stop`, which the
close callback issues. Alongside the log come the response and whether `execute` throws.

## Model

The sources are the three files under `src/main/java/io/github/xiaomisum/simplewebsocket/`.

| member | source | states |
|---|---|---|
| Transport.Remaining | src/main/java/io/github/xiaomisum/simplewebsocket/ServiceSocket.java:117-119 | a buffer without an accessible array yields exactly `limit - position` bytes, the window `remaining()` counts |
| Transport.Transport.Record | src/main/java/io/github/xiaomisum/simplewebsocket/Request.java:192-193 | every call on the client is appended to its log, in order |
| Responses.Response.constructor | src/main/java/io/github/xiaomisum/simplewebsocket/Response.java:49-67 | a new response has the given start time, no end time, status 1000 and no bytes; the start time is a `const` and never changes |
| Responses.Response.TextWith | src/main/java/io/github/xiaomisum/simplewebsocket/Response.java:120-122 | `text(f)` is `f` applied to the stored bytes, absent ones included, and reads them without changing them |
| Responses.Response.StartTime | src/main/java/io/github/xiaomisum/simplewebsocket/Response.java:74-76 | `startTime()` reads the start time of the response's snapshot, which `ExecuteResponse` fixes to the clock at the start of `execute` |
| Responses.Response.EndTime | src/main/java/io/github/xiaomisum/simplewebsocket/Response.java:83-85 | `endTime()` reads the snapshot's end time, the clock at the last frame (`ExecuteResponse`) |
| Responses.Response.Status | src/main/java/io/github/xiaomisum/simplewebsocket/Response.java:92-94 | `status()` reads the snapshot's status, the code of the last close or 1000 (`ExecuteResponse`) |
| Responses.Response.Bytes | src/main/java/io/github/xiaomisum/simplewebsocket/Response.java:101-103 | `bytes()` reads the snapshot's bytes, those of the last frame (`ExecuteResponse`) |
| Responses.Response.TextIsTextWithPlatform | src/main/java/io/github/xiaomisum/simplewebsocket/Response.java:110-122 | `text()` equals `text(f)` for an `f` that decodes the stored bytes the platform's way; with no bytes stored it throws a NullPointerException instead |
| Responses.Response.Text | src/main/java/io/github/xiaomisum/simplewebsocket/Response.java:110-112 | `text()` succeeds exactly when bytes are stored, and is then the platform decoding of them; with no bytes it throws a NullPointerException |
| Sockets.CountDown | src/main/java/io/github/xiaomisum/simplewebsocket/ServiceSocket.java:57-58 | counting a latch down never raises it, and leaves it at zero exactly when it was at most one |
| Sockets.GatesNeverRearm | src/main/java/io/github/xiaomisum/simplewebsocket/ServiceSocket.java:57-58 | no run of callbacks raises either latch count |
| Sockets.OpenGateReleased | src/main/java/io/github/xiaomisum/simplewebsocket/ServiceSocket.java:131-135 | after callbacks, the open gate is released iff it already was or some open or close callback arrived |
| Sockets.CompletionGateReleased | src/main/java/io/github/xiaomisum/simplewebsocket/ServiceSocket.java:83-102 | after callbacks, the completion gate is released iff it already was, or some text message satisfied the predicate (or there is none), or some binary message's whole-array decoding did, or a close arrived |
| Sockets.ConnectedFollowsLastLifecycleEvent | src/main/java/io/github/xiaomisum/simplewebsocket/ServiceSocket.java:131-155 | `isConnected()` is true if the last open-or-close callback was an open, false if it was a close, unchanged if there was none |
| Sockets.SessionIsLastOpened | src/main/java/io/github/xiaomisum/simplewebsocket/ServiceSocket.java:131-155 | the session is the one delivered by the last open callback; a close does not clear it |
| Sockets.StatusIsLastClose | src/main/java/io/github/xiaomisum/simplewebsocket/ServiceSocket.java:143-155 | the response status is the code of the last close callback, or what it was before |
| Sockets.PayloadIsLastFrame | src/main/java/io/github/xiaomisum/simplewebsocket/ServiceSocket.java:109-122 | last writer wins: the stored bytes and end time are those of the last frame, whatever message completed the call |
| Sockets.CallbacksOnlyStop | src/main/java/io/github/xiaomisum/simplewebsocket/ServiceSocket.java:143-155 | callbacks add exactly one client stop per close callback to the log and nothing else |
| Sockets.ServiceSocket.constructor | src/main/java/io/github/xiaomisum/simplewebsocket/ServiceSocket.java:57-75 | both gates start pending with count 1, no session, not connected |
| Sockets.ServiceSocket.OnTextMessage | src/main/java/io/github/xiaomisum/simplewebsocket/ServiceSocket.java:82-87 | the completion gate counts down iff there is no predicate or it accepts the message; nothing else changes |
| Sockets.ServiceSocket.OnBinaryMessage | src/main/java/io/github/xiaomisum/simplewebsocket/ServiceSocket.java:96-102 | the predicate sees the converter applied to the whole array, offset and length ignored; the same release rule |
| Sockets.ServiceSocket.OnFrame | src/main/java/io/github/xiaomisum/simplewebsocket/ServiceSocket.java:109-122 | the end time and bytes are overwritten; an array-backed buffer gives its whole array, any other exactly its remaining bytes; status and gates untouched |
| Sockets.ServiceSocket.OnOpen | src/main/java/io/github/xiaomisum/simplewebsocket/ServiceSocket.java:130-135 | the session is stored, `connected` set and the open gate released; the completion gate is unchanged |
| Sockets.ServiceSocket.OnClose | src/main/java/io/github/xiaomisum/simplewebsocket/ServiceSocket.java:143-155 | the status is recorded, both gates released even if the socket never opened, `connected` cleared, the client stopped; it returns normally |
| Sockets.ServiceSocket.Deliver | src/main/java/io/github/xiaomisum/simplewebsocket/ServiceSocket.java:82-155 | one callback changes the socket exactly as its function says, and keeps both latches at most 1 |
| Sockets.ServiceSocket.Dispatch | src/main/java/io/github/xiaomisum/simplewebsocket/ServiceSocket.java:82-155 | callbacks delivered one at a time, in order, leave the socket in the state of the fold of their functions |
| Sockets.ServiceSocket.AwaitOpen | src/main/java/io/github/xiaomisum/simplewebsocket/ServiceSocket.java:180-182 | returns whether the open gate is released, and changes nothing else |
| Sockets.ServiceSocket.AwaitClose | src/main/java/io/github/xiaomisum/simplewebsocket/ServiceSocket.java:166-170 | returns whether the completion gate is released, and then always closes with 1000 and "closed session." |
| Sockets.ServiceSocket.Close | src/main/java/io/github/xiaomisum/simplewebsocket/ServiceSocket.java:226-231 | with no session nothing happens; otherwise the session is asked to close with the given code and text |
| Sockets.ServiceSocket.CloseNormally | src/main/java/io/github/xiaomisum/simplewebsocket/ServiceSocket.java:216-218 | `close()` is `close(1000, "closed session.")` |
| Sockets.ServiceSocket.SendBinaryMessage | src/main/java/io/github/xiaomisum/simplewebsocket/ServiceSocket.java:199-201 | with no session it throws a NullPointerException and sends nothing; otherwise the bytes go out over the session, and the transport may report an I/O failure |
| Sockets.ServiceSocket.SendTextMessage | src/main/java/io/github/xiaomisum/simplewebsocket/ServiceSocket.java:209-211 | the same, for a string |
| Sockets.ServiceSocket.GetSession | src/main/java/io/github/xiaomisum/simplewebsocket/ServiceSocket.java:189-191 | `getSession()` reads the session of the socket's state, which `SessionIsLastOpened` pins to the last open callback |
| Sockets.ServiceSocket.IsConnected | src/main/java/io/github/xiaomisum/simplewebsocket/ServiceSocket.java:238-240 | `isConnected()` reads the flag of the socket's state, which `ConnectedFollowsLastLifecycleEvent` pins to the last open or close callback |
| Queries.Join | src/main/java/io/github/xiaomisum/simplewebsocket/Request.java:211-213 | what a `StringJoiner` holds: a non-empty list of items yields at least its last item |
| Queries.Items | src/main/java/io/github/xiaomisum/simplewebsocket/Request.java:213 | one `key=value` item per entry |
| Queries.QueryStringOf | src/main/java/io/github/xiaomisum/simplewebsocket/Request.java:210-216 | the query string is "" for an absent or empty query, else "?" followed by the items joined by "&" |
| Queries.MapText | src/main/java/io/github/xiaomisum/simplewebsocket/Request.java:242-244 | a map prints in braces |
| Queries.SplitJoin | src/main/java/io/github/xiaomisum/simplewebsocket/Request.java:211-215 | joining items with a separator none of them holds, then cutting at it, gives the items back |
| Queries.ParseItemOfEntry | src/main/java/io/github/xiaomisum/simplewebsocket/Request.java:213 | a `key=value` item cuts back into key and value when the key holds no "=" |
| Queries.QueryRoundTrip | src/main/java/io/github/xiaomisum/simplewebsocket/Request.java:210-216 | the query string lists exactly the entries, in iteration order, when no key or value needs escaping |
| Requests.NormalizeTimeout | src/main/java/io/github/xiaomisum/simplewebsocket/Request.java:149-152 | a positive timeout is kept, any other becomes 60; the result is always positive |
| Requests.SelectPayload | src/main/java/io/github/xiaomisum/simplewebsocket/Request.java:196-200 | binary is chosen iff bytes are present and non-empty; text iff they are not and a body is present; nothing otherwise; each carries its field |
| Requests.UpgradeHeaders | src/main/java/io/github/xiaomisum/simplewebsocket/Request.java:187-190 | the upgrade request carries the header map when one is set, and no headers otherwise |
| Requests.Converter | src/main/java/io/github/xiaomisum/simplewebsocket/Request.java:186 | the socket decodes with the caller's converter when one is given, else the platform's `String::new` |
| Requests.ConnectionSpec | src/main/java/io/github/xiaomisum/simplewebsocket/Request.java:192-201 | a failing start throws a start failure and a malformed address a URI syntax error, both with starting as the only step; a failing connect throws after exactly start and connect |
| Requests.ExecuteSpec | src/main/java/io/github/xiaomisum/simplewebsocket/Request.java:183-203 | `execute` leaves the address extended by the query string, and when starting throws or that address is malformed it takes no step but the start and throws |
| Requests.NewSocket | src/main/java/io/github/xiaomisum/simplewebsocket/Request.java:184-186 | a new response stamped with the clock and a new socket in its initial state |
| Requests.Converse | src/main/java/io/github/xiaomisum/simplewebsocket/Request.java:194-201 | the open wait, the callbacks that arrive before the send, the send, the completion wait and the close leave the socket exactly as their functions compose; the open wait's result is not looked at |
| Requests.RunConnection | src/main/java/io/github/xiaomisum/simplewebsocket/Request.java:184-202 | start; stop with the start failure or the URI syntax error before any connect; connect; then converse; the steps and the result are those of the connection's function |
| Requests.Drive | src/main/java/io/github/xiaomisum/simplewebsocket/Request.java:186-202 | the connection `execute` drives uses the upgrade headers, the selected payload and the default converter when none is given |
| Requests.Request.constructor | src/main/java/io/github/xiaomisum/simplewebsocket/Request.java:52-71 | a new request keeps the address and has timeout 60 and no other field set; it reads as body "", no bytes, no headers and query "" |
| Requests.Request.WithBody | src/main/java/io/github/xiaomisum/simplewebsocket/Request.java:79-82 | replaces only the body and returns the same request |
| Requests.Request.WithBytes | src/main/java/io/github/xiaomisum/simplewebsocket/Request.java:90-93 | replaces only the bytes and returns the same request |
| Requests.Request.WithQueryCustomizer | src/main/java/io/github/xiaomisum/simplewebsocket/Request.java:101-106 | the query becomes what the customizer makes of a new empty map; nothing else changes |
| Requests.Request.WithQuery | src/main/java/io/github/xiaomisum/simplewebsocket/Request.java:114-117 | replaces only the query and returns the same request |
| Requests.Request.WithHeadersCustomizer | src/main/java/io/github/xiaomisum/simplewebsocket/Request.java:125-130 | the headers become what the customizer makes of a new empty map; nothing else changes |
| Requests.Request.WithHeaders | src/main/java/io/github/xiaomisum/simplewebsocket/Request.java:138-141 | replaces only the headers and returns the same request |
| Requests.Request.WithTimeout | src/main/java/io/github/xiaomisum/simplewebsocket/Request.java:149-152 | replaces only the timeout, normalised, so the timeout stays positive |
| Requests.Request.Body | src/main/java/io/github/xiaomisum/simplewebsocket/Request.java:224-226 | the body, or "" when none is set |
| Requests.Request.Bytes | src/main/java/io/github/xiaomisum/simplewebsocket/Request.java:233-235 | the bytes, or none when none are set |
| Requests.Request.QueryText | src/main/java/io/github/xiaomisum/simplewebsocket/Request.java:242-244 | "" exactly when no query is set; a set query, even an empty one, reads as its printed map `{k=v, ...}` (`MapText`) |
| Requests.Request.Headers | src/main/java/io/github/xiaomisum/simplewebsocket/Request.java:251-253 | the headers, or an empty map when none are set |
| Requests.Request.Url | src/main/java/io/github/xiaomisum/simplewebsocket/Request.java:260-262 | `url()` reads the address of the request's state, which `Execute` extends by the query string |
| Requests.Request.Timeout | src/main/java/io/github/xiaomisum/simplewebsocket/Request.java:269-271 | `timeout()` reads the request's timeout, which is positive under the class invariant that the constructor and every setter keep |
| Requests.Request.QueryString | src/main/java/io/github/xiaomisum/simplewebsocket/Request.java:210-216 | the joiner loop computes the query string, which is empty exactly when the query is absent or empty |
| Requests.Request.Execute | src/main/java/io/github/xiaomisum/simplewebsocket/Request.java:183-203 | only the address changes, to itself plus the query string, and the timeout stays positive; the steps, whether it throws, and the response are those of `ExecuteSpec` |
| Requests.Request.ExecuteWith | src/main/java/io/github/xiaomisum/simplewebsocket/Request.java:171-173 | `execute(handler)` is `execute(handler, null)` |
| Requests.Request.ExecuteDefault | src/main/java/io/github/xiaomisum/simplewebsocket/Request.java:160-162 | `execute()` is `execute(null, null)` |
| ExecuteProperties.CallerSteps | src/main/java/io/github/xiaomisum/simplewebsocket/Request.java:192-201 | the caller's steps drop the client stops the close callback issues, so they are never more than the steps |
| ExecuteProperties.CallerStepsMeaning | src/main/java/io/github/xiaomisum/simplewebsocket/ServiceSocket.java:143-155 | no caller step is a client stop, and a log without a stop is its own caller steps |
| ExecuteProperties.CallbacksAddNoCallerSteps | src/main/java/io/github/xiaomisum/simplewebsocket/ServiceSocket.java:82-155 | callbacks add no caller step |
| ExecuteProperties.LastSession | src/main/java/io/github/xiaomisum/simplewebsocket/ServiceSocket.java:131-135 | there is no session exactly when no open callback arrived |
| ExecuteProperties.OpenPhase | src/main/java/io/github/xiaomisum/simplewebsocket/Request.java:192-194 | over a new socket, the open wait is released iff an open or close callback arrived; the session is the last one opened; the completion gate is released only by a callback |
| ExecuteProperties.ReadyPhase | src/main/java/io/github/xiaomisum/simplewebsocket/Request.java:194-196 | callbacks after the open wait and before the send add no caller step; the send sees the session of the last open callback in either group, and the completion gate is released iff a callback in either group released it |
| ExecuteProperties.SendPhaseSteps | src/main/java/io/github/xiaomisum/simplewebsocket/Request.java:196-200 | a payload and a session give one send step; a payload and no session throw a NullPointerException; only the log changes |
| ExecuteProperties.ClosePhase | src/main/java/io/github/xiaomisum/simplewebsocket/ServiceSocket.java:166-170 | the completion wait reports any release so far, then the session of the last open, if any, is closed normally |
| ExecuteProperties.ConnectionCallerSteps | src/main/java/io/github/xiaomisum/simplewebsocket/Request.java:192-201 | the caller's steps of one connection are the reference steps built from its pieces: start only when starting or parsing throws, start and connect when connecting throws, and the whole conversation otherwise |
| ExecuteProperties.ExecuteCallerSteps | src/main/java/io/github/xiaomisum/simplewebsocket/Request.java:183-203 | the caller's steps of `execute` are exactly a reference sequence read off the request and the callbacks (`ExpectedCallerSteps`) |
| ExecuteProperties.ExecuteStepOrder | src/main/java/io/github/xiaomisum/simplewebsocket/Request.java:191-201 | start first; a connect to the address plus query string with the upgrade headers second, exactly when starting did not throw and the address parses; then open wait, send, completion wait and close, each at most once and in that order |
| ExecuteProperties.ExecuteSendsOnce | src/main/java/io/github/xiaomisum/simplewebsocket/Request.java:192-200 | at most one send, always the fourth step; there is one iff starting, parsing and connecting succeeded, there is a payload, and an open callback arrived before the send (before or after the open wait returned); it carries the bytes when non-empty, else the body |
| ExecuteProperties.ExecuteOutcome | src/main/java/io/github/xiaomisum/simplewebsocket/Request.java:192-201 | `execute` throws iff starting throws, the address does not parse, connecting throws, or there is a payload and either no open callback arrived before the send (NullPointerException) or the send fails; each case with its own exception; the open wait's own result never matters |
| ExecuteProperties.ExecuteAlwaysCloses | src/main/java/io/github/xiaomisum/simplewebsocket/Request.java:201 | when `execute` returns, its last steps are the completion wait and, if any session was opened, a close with 1000 and "closed session." |
| ExecuteProperties.LastStatus | src/main/java/io/github/xiaomisum/simplewebsocket/Response.java:55 | the status after callbacks is 1000 or the code of some close, and 1000 when no close arrived |
| ExecuteProperties.LastFrameBytes | src/main/java/io/github/xiaomisum/simplewebsocket/ServiceSocket.java:110-122 | bytes are stored iff some frame arrived, and then they are a frame's bytes |
| ExecuteProperties.LastFrameTime | src/main/java/io/github/xiaomisum/simplewebsocket/ServiceSocket.java:110-111 | an end time is stored iff some frame arrived, and then it is a frame's clock reading |
| ExecuteProperties.ConverseResponse | src/main/java/io/github/xiaomisum/simplewebsocket/Request.java:194-201 | after a conversation that does not throw, the response holds the last close's status and the last frame's bytes and time over all three groups of callbacks |
| ExecuteProperties.ExecuteResponse | src/main/java/io/github/xiaomisum/simplewebsocket/Request.java:184-202 | the response `execute` returns has the clock at its start, the status of the last close (1000 if none) and the bytes and end time of the last frame |
| ExecuteProperties.TimeoutReadsAsNormalClosure | src/main/java/io/github/xiaomisum/simplewebsocket/Response.java:55 | when no close callback arrives, the call reports 1000, the same status as a normal close |
| ExecuteProperties.SecondExecuteAppendsQueryAgain | src/main/java/io/github/xiaomisum/simplewebsocket/Request.java:191 | a second `execute` on the same request appends the query string a second time |

The methods in the table are proved equal to specification functions that have no row of their own, because their meaning is stated through those methods and the lemmas about them:

- `Sockets.Apply` gives the effect of one callback (ServiceSocket.java:83-155), and `Sockets.Run` folds it over a sequence of callbacks.
- `Sockets.FrameBytes` gives the bytes `onFrame` stores (ServiceSocket.java:113-121).
- `Sockets.CloseSpec` gives the caller-side close (ServiceSocket.java:216-231).
- `Sockets.AwaitOpenSpec` and `Sockets.AwaitCloseSpec` give the two waits (ServiceSocket.java:166-170, 180-182).
- `Sockets.SendSpec` gives the send (ServiceSocket.java:199-211).
- `Requests.SendPhase` gives the payload choice and send of `execute` (Request.java:196-200).
- `Requests.ConverseSpec` gives the steps from the open wait to the close (Request.java:194-201).

The ordering, single-send and closing properties also rest on the construction in
`ExecuteProperties`:

- `ExpectedCallerSteps` is the reference definition. It computes the pieces of a call and hands them to `ReferenceSteps`, which assembles them.
- `PiecesAscending`, `ReferenceOrder` and `ExpectedStepOrder` show that the reference steps are in order.
- `ReferenceSend` and `ExpectedSend` show that the reference contains at most one send, in fourth position.
- `ReferenceTail` and `ExpectedClosingTail` show how a call that reaches the completion wait ends.

## Left out

- Jetty plumbing: client construction, `start`, `connect`, `stop` and `ClientUpgradeRequest` are the abstract `Transport`. `new URI` is a predicate on the address that says which addresses it rejects; RFC 3986 syntax is not spelled out. Flags say whether starting or connecting throws.
- Real blocking waits, timeouts and cross-thread delivery: callbacks are sequential calls in three groups. The first arrives before the open wait returns, the second after it and before the send, and the third after the send and before the completion wait returns. An await reads its gate. Callbacks that arrive during a send, between the completion wait and the close, or after `execute` returns are not modelled.
- `System.currentTimeMillis()`: it is an integer parameter, read once at the start of `execute` and once per frame.
- Charset decoding (`new String(bytes)`): the platform decoding and the converter are opaque functions.
- `HashMap` iteration order: a query is a sequence of pairs in that order. No particular order is asserted.
- Query values are `Object`s printed with `toString()`: they are modelled as strings.
- Keys and values are never escaped: the round trip is stated only for entries without `&`, and without `=` in the key.
- `Response.save` (Response.java:130-138): file I/O.
- The network side of `sendMessage`: the model records which payload went out over which session, and lets the transport report an I/O failure.
- Java's 32-bit `int` and 64-bit `long` ranges: timeouts, status codes and times are unbounded integers. Nothing the client does wraps them.
- `null` values: the address and every header and query key and value are strings, never `null`. Java would concatenate a `null` address (Request.java:191) or a `null` query key or value (Request.java:213) as the text "null"; the model has no such input. A predicate returning `null` and a frame without a payload are not modelled either. A field that may be unset is an `Option`, and the code's handling of an unset field is modelled.
- Reference semantics: `Requests.Request.WithBytes`, `Requests.Request.WithQuery` and `Requests.Request.WithHeaders` store a value, where Java stores the caller's array or map (Request.java:90-93, 114-117, 138-141). `Requests.Request.Bytes` and `Requests.Request.Headers` return a value, where Java returns that same object (Request.java:233-235, 251-253). `Sockets.ServiceSocket.OnFrame` stores a value, where Java keeps the frame's backing array. The model therefore does not capture aliasing: a later change by the caller to the array or map, or to a frame's buffer, would change the request or the response in Java and does not in the model.
- `ExecuteProperties.ExecuteOutcome`, `Sockets.ServiceSocket.AwaitOpen` and `Sockets.ServiceSocket.AwaitClose`: thread interruption is not modelled. In Java both waits can throw `InterruptedException` (ServiceSocket.java:166, 180), and it propagates out of `execute`; the "throws exactly when" of `ExecuteOutcome` covers only the five modelled causes.
- `Requests.Request.Execute`, `Requests.Request.ExecuteWith` and `Requests.Request.ExecuteDefault`: besides the response, they return the list of steps taken. It is an observation for the properties above and not part of the Java signature.
- The order in which `execute` creates the response, the socket and the upgrade request before it rewrites the address is not modelled. None of that is visible until the client starts.

Where the code and its documentation disagree, the model follows the code:

- Closing is not a no-op after the peer has closed. `onClose` never clears the session, so `awaitClose` still asks the session to close (`SessionIsLastOpened`, `ExecuteAlwaysCloses`).
- For an array-backed frame, `onFrame` stores the buffer's whole array, not only its readable window (`OnFrame`, `FrameBytes`).
