# Verified model of boost_web

A Dafny model of the session machinery of boost_web and of the two services shipped with it, with
proofs of what they promise over whole runs.

## What is modelled

**WebSocket session** (`Websocket*.dfy`, the connectors apart). A session is an object with a receive deque, a send deque, two
counters and a close latch; every completion handler updates them in place (`WebsocketSession.dfy`, class
`WebsocketSession`). Each handler is proved against a step function over values (`WebsocketMachine.dfy`).
The state also holds what the stream and its executor owe the session: reads, writes and closes that have
been started, and closures that have been posted. None of these is limited to one by construction (a
second read or write would show), so "at most one" is a theorem. Whatever the application does in a
callback is a list of calls on the connection, arbitrary in every theorem of `WebsocketInvariant.dfy`,
`WebsocketTheorems.dfy` and `WebsocketCallbacks.dfy` that does not say otherwise; calls from outside callbacks are events of their own.

**Echo service** (`EchoService.dfy`): the same session, with the callbacks the echo service makes.

**Counting services** (`TestService.dfy`, `CountingProtocol.dfy`, `CountingCompletion.dfy`,
`CountingFleet.dfy`): a client and a server session joined by a wire, each run by the test service; and many
such pairs sharing the services' counters.

**Connectors** (`WebsocketConnector.dfy`): the plain and the TLS client connector, composed with the session
that a successful attempt starts.

**HTTP session** (`HttpSession.dfy`, `HttpMachine.dfy`, `HttpTheorems.dfy`): the pipelining request/response
session with its bounded response queue (response order under pipelining is section 6.3.2 of RFC 7230).

**Request handling** (`HttpUtility.dfy`): the guard on the request target, the branches of the answer, and
keep-alive.

**Multipart parser** (`Multipart.dfy`, `MultipartRounds.dfy`, `MultipartRoundTrip.dfy`, `Text.dfy`): the
form-data parser of the test service, any body, and its round trip with a printer of multipart bodies (section 5.1.1 of RFC 2046).

### Assumptions about the surroundings

- The handlers of one connection run one at a time, each to its end (src/listener.cpp:76,
  src/websocket_connector_plain.cpp:20-21, src/websocket_connector_ssl.cpp:20-21).
- An asynchronous operation never completes inside the call that starts it, and posted closures run in
  the order they were posted.
- Outside its callbacks, the application acts on a connection only after some callback has shown it to it.
- Between the two counting services, the wire loses, duplicates and reorders nothing; a message may
  arrive as soon as it has been given to async_write, before the sender's own handler runs. In an
  error-free run, a read ends as closed only once the peer has asked to close and all it handed over has
  arrived.
- Bytes are characters. Increments of the queue counters do not overflow (a queue of 2^64 nodes does not
  fit in memory); their decrement is modelled with its wrap-around.

### Where the code differs from its documentation, or from what one might expect

- readme.md:318 calls `on_close` the last callback. It need not be: `CallbackAfterClose` gives a run.
  `LastCallbackUnlessFilled` gives the exact condition when the application fills nothing more, and
  `LastCallbackExactly` when it may.
- readme.md:449 says `on_send` is called when all data has been sent. It is called once for every frame
  written in full (`CallbacksMatchTransfers`); `SentWithMoreQueued` gives a run in which more is queued, and
  `AllSentExactly` says when nothing is.
- A read that fails leaves its slot in the receive queue, so that afterwards the queue is one node longer
  than the counter although no read is outstanding (`FailedReadLeavesSlot` gives a run). Nothing else does:
  the queue is longer exactly while a read is outstanding if and only if no read has failed
  (`ReceivingIsOrdered`).
- `recv_buffer_has_data` is true while the only node is the slot a read is filling. Dropping that node
  wraps the counter and breaks the read (`DroppingTheSlotFaults`; `DroppingTooEarly` gives a run);
  `DropHarmlessExactly` gives the test that avoids it.
- A write that falls short, that fails, or after which `on_send` returns false with more queued, leaves the
  queue unsent for good (`StallsExactly`, `StalledForEver`).
- An HTTP upgrade does not look at the response queue (`UpgradeBehindResponse`, `UpgradeIsClean`).
- The multipart parser searches for the blank line from the opening delimiter, so a first header block
  that starts with an empty line is misread (`EmptyLineMisread` gives one, `RoundTripExactly` the condition).

## Model

| member | source | states |
|---|---|---|
| WebsocketSession.WebsocketSession.RecvBufferDrop | inc/websocket_session_base.hpp:212-221 | drops the front node and counts down with wrap-around, or reports an empty queue |
| WebsocketSession.WebsocketSession.SendBufferFill | inc/websocket_session_base.hpp:230-244 | posts a copy of the data and touches neither queue nor counter |
| WebsocketSession.WebsocketSession.Notify | inc/boost_web.h:210-216 | one callback: the notice, then the application's calls in order |
| WebsocketSession.WebsocketSession.Run | inc/websocket_session_base.hpp:260-269 | the client's start: on_connect with the identity given, then a read or a close |
| WebsocketSession.WebsocketSession.OnAccept | inc/websocket_session_base.hpp:329-347 | the whole new state after an accept, failed or not |
| WebsocketSession.WebsocketSession.OnRecv | inc/websocket_session_base.hpp:350-377 | the whole new state after a read, failed or not |
| WebsocketSession.WebsocketSession.OnSend | inc/websocket_session_base.hpp:380-413 | the whole new state after a write that failed, fell short or completed |
| WebsocketSession.WebsocketSession.OnClose | inc/websocket_session_base.hpp:416-425 | the close latch and its one callback |
| WebsocketSession.WebsocketSession.OnPost | inc/websocket_session_base.hpp:428-437 | a posted node joins the queue and is written at once if alone |
| WebsocketSession.WebsocketSession.Dispatch | inc/websocket_session_base.hpp:260-437 | every handler of the object performs its step and keeps the invariant |
| WebsocketInvariant.StepKeeps | inc/websocket_session_base.hpp:260-437 | the invariant over sending, receiving, closing and the callback log survives every handler, whatever the application does inside it |
| WebsocketTheorems.SendingIsOrdered | inc/websocket_session_base.hpp:314-326 | in every run at most one write is outstanding, it is that of the front node, the counter is the queue length, and written, queued and posted frames are exactly the filled ones in order |
| WebsocketTheorems.WriteIsStable | inc/websocket_session_base.hpp:320-325 | over any stretch of a run without its completion, a write stays outstanding alone and its node stays at the front with its bytes unchanged |
| WebsocketTheorems.FillMustBePosted | inc/websocket_session_base.hpp:403-412 | run inline instead of posted, a fill from on_send would start a second write |
| WebsocketTheorems.StallsExactly | inc/websocket_session_base.hpp:382-412 | the sender stops exactly at a failed or short write, or when on_send gives up with more queued |
| WebsocketTheorems.StalledForEver | inc/websocket_session_base.hpp:428-437 | a stopped sender never hands over or completes another frame |
| WebsocketTheorems.SendingDrains | inc/websocket_session_base.hpp:380-437 | a write is outstanding exactly while something is queued, if and only if no completion stopped the sender; then an idle session has written everything it was given |
| WebsocketTheorems.ShortWriteConsumes | inc/websocket_session_base.hpp:394-398 | a short write takes exactly what it transferred off the front node, starts nothing and changes nothing else |
| WebsocketTheorems.DropHarmlessExactly | inc/websocket_session_base.hpp:212-221 | a drop keeps the receive invariant exactly when a completed frame is held or the queue is empty |
| WebsocketTheorems.DroppingTheSlotFaults | inc/websocket_session_base.hpp:350-368 | dropping the slot being read into wraps the counter and breaks the read's completion |
| WebsocketTheorems.DroppingTooEarly | inc/websocket_session_base.hpp:212-221 | a run in which that happens |
| WebsocketTheorems.ReceivingIsOrdered | inc/websocket_session_base.hpp:299-377 | with drops inside on_recv only: received frames are dropped ones then held ones; the queue is the counter long, plus one while a read is outstanding and for good after a failed read, so plus one exactly while a read is outstanding if and only if none has failed; no assertion fails |
| WebsocketTheorems.FailedReadLeavesSlot | inc/websocket_session_base.hpp:354-362 | a run in which a failed read leaves its slot in the queue |
| WebsocketCallbacks.ClosesExactlyOnce | inc/websocket_session_base.hpp:260-280 | an opened session at rest has called on_close exactly once, none calls it twice, and the opening callback precedes all others |
| WebsocketCallbacks.CallbacksMatchTransfers | inc/websocket_session_base.hpp:366-403 | one on_recv for each frame received, one on_send for each frame written in full |
| WebsocketCallbacks.AllSentExactly | inc/websocket_session_base.hpp:400-403 | when on_send is called, everything filled has been sent if and only if the frame just written was the only one queued and nothing is posted |
| WebsocketCallbacks.SentWithMoreQueued | readme.md:449 | a run that calls on_send with a frame still to be sent |
| WebsocketCallbacks.ReadingEndsForGood | inc/websocket_session_base.hpp:350-377 | once an opened session has no read outstanding, on_recv is never called again |
| WebsocketCallbacks.FailedReadIsLast | inc/websocket_session_base.hpp:354-362 | after a failed read no read is outstanding and on_close has been called |
| WebsocketCallbacks.LogIsExact | inc/websocket_session_base.hpp:260-437 | which callbacks a completion makes depends on the completion and on the close latch only, never on what the application does in them |
| WebsocketCallbacks.LastCallbackUnlessFilled | readme.md:318 | after on_close, if the application fills nothing more, no callback can follow if and only if no read and no write is outstanding and nothing posted would be written |
| WebsocketCallbacks.LastCallbackExactly | readme.md:318 | if the application may still fill, no callback can follow if and only if no read is outstanding and the sender has stopped with something queued |
| WebsocketCallbacks.CallbackAfterClose | inc/websocket_session_base.hpp:382-388 | a run that makes a callback after on_close |
| WebsocketAccounting.StepAccounts | inc/websocket_session_base.hpp:260-437 | every handler: the closes it starts are those the application asked for in the callbacks it made, and one if that application gave the connection up; it starts a read exactly if an opening or on_recv kept the connection, a write exactly for a node posted to an empty queue or when on_send keeps with more queued; what is filled and stored is what those callbacks asked for |
| WebsocketAccounting.OperationsAreAccounted | inc/websocket_session_base.hpp:260-437 | in every run: closes outstanding and completed are the application's closes and the times it gave the connection up; reads outstanding and completed are the times it kept it; frames filled, user data and frames received are what the callbacks asked for and the reads brought |
| EchoService.EchoService.OnAccept | echo/echo_service.cpp:47-50 | the greeting is filled once and the connection counted |
| EchoService.EchoService.RecvMessage | echo/echo_service.cpp:121-153 | the front frame is dropped and filled back with its flag and bytes; an assert fails exactly on an empty queue |
| EchoService.EchoRefinement | echo/echo_service.cpp:47-153 | in every run written, queued and posted frames are the greeting followed by every frame received, so the peer sees a prefix of that, and all of it when nothing went wrong and nothing is left |
| TestService.BuildMessage | test/test_service.cpp:223-227 | message k is k copies of the block, written into a buffer block by block |
| TestService.TestService.SendMessage | test/test_service.cpp:199-238 | sends the next message, or counts a finish at the limit, or does nothing when the limit is zero |
| TestService.TestService.CheckMessage | test/test_service.cpp:283-313 | accepts exactly a message of the expected length below the limit, and fails an assert exactly when the bytes are not the expected message |
| TestService.TestService.RecvMessage | test/test_service.cpp:240-281 | checks, drops and answers, with every failing assert accounted for |
| TestService.ReceiptExactly | test/test_service.cpp:240-313 | a receipt keeps the connection exactly if the frame looks due and is not the last, finishes exactly if it is the last, fails an assert exactly if it is not the message due; one that fails the check gives the connection up with nothing dropped or filled |
| TestService.TestService.OnConnect | test/test_service.cpp:79-82 | resets the count and sends the first message |
| CountingProtocol.EndpointStep | test/test_service.cpp:199-313 | an endpoint answers each message it was due with the next, fails no assert, and counts a finish exactly when it finishes |
| CountingProtocol.CountersAgree | test/test_service.cpp:199-313 | in every run, errors included, no assert fails, at most one message is under way, and while message k is its sender counts k and its receiver k - 1 |
| CountingProtocol.FinishesAtMostOnce | test/test_service.cpp:206-217 | in every run at most one finish is counted, by the server only for an odd limit, by the client only for an even one |
| CountingCompletion.GoodLinkStep | test/test_service.cpp:199-313 | every error-free handler keeps the link sound and is one unit of a bounded amount of work |
| CountingCompletion.GoodRunsEnd | test/test_service.cpp:199-313 | an error-free run, its closing included, has at most three handlers for each message and four more |
| CountingCompletion.CountingCompletes | test/test_service.cpp:199-313 | an error-free run at rest delivered every message once and in order, msg_len times N(N+1)/2 bytes in all, counted one finish on the side the parity says, left nothing outstanding at either end, called on_close exactly once at each, and took exactly 3N+4 handlers |
| CountingFleet.FleetFinishes | test/test_service.cpp:199-218 | over any interleaving of M connections, errors included, the two services' finish counters never add up to more than M, and the one the parity rules out stays at zero |
| CountingFleet.FleetCompletes | test/test_service.cpp:199-218 | an error-free fleet of M connections at rest has completed each of them and counted exactly M finishes, all on the side the parity says |
| WebsocketConnector.Connector.OnResolve | src/websocket_connector_ssl.cpp:49-65 | the attempt moves on to connecting, or reports and gives up |
| WebsocketConnector.Connector.OnConnect | src/websocket_connector_ssl.cpp:67-85 | over TLS the attempt moves on to the TLS handshake, else to the WebSocket one |
| WebsocketConnector.Connector.OnSslHandshake | src/websocket_connector_ssl.cpp:87-107 | the attempt moves on to the WebSocket handshake, or reports and gives up |
| WebsocketConnector.Connector.OnHandshake | src/websocket_connector_plain.cpp:91-106 | a fresh session is made and run, or the attempt reports and gives up |
| WebsocketConnector.ConnectsExactlyOnce | src/websocket_connector_ssl.cpp:32-124 | in every run of an attempt and of its session, on_connect is called exactly once after the last stage, for the identity of the attempt: with no connection straight after one error under "wss" or "ws" naming a stage, or first of all callbacks of its connection |
| WebsocketConnector.StagesInOrder | src/websocket_connector_plain.cpp:38-106 | the stages, three of them or four over TLS, run in order until the first failure, which is reported under the literal protocol and stage names; a session, started with the identity, results exactly when all succeed |
| HttpSession.HttpSession.OnRecv | inc/http_session_base.hpp:135-187 | the whole new state after a read, in each of its outcomes |
| HttpSession.HttpSession.Send | inc/http_session_base.hpp:190-206 | the front response is moved out once and written |
| HttpSession.HttpSession.OnSend | inc/http_session_base.hpp:209-236 | the whole new state after a write that failed, closed or completed |
| HttpSession.HttpSession.Dispatch | inc/http_session_base.hpp:113-236 | every handler of the object performs its step and keeps the invariant |
| HttpTheorems.StepKeeps | inc/http_session_base.hpp:113-236 | the invariant over queue, reads and writes survives every handler |
| HttpTheorems.ResponsesFollowRequests | inc/http_session_base.hpp:174-236 | in every run the requests answered are those the reads brought, the responses written answer them in order, each handed over once, at most eight answered and not completed, none after a closing one, and no parser or moved response is reused |
| HttpTheorems.StepEffect | inc/http_session_base.hpp:135-236 | how each handler changes the queue's length, the reads and the writes |
| HttpTheorems.RetiresExactly | inc/http_session_base.hpp:139-231 | reading ends exactly at a read that brings no request to answer, writing exactly at a write that fails or closes |
| HttpTheorems.BackPressure | inc/http_session_base.hpp:176-235 | a read is outstanding exactly below eight queued responses and a write exactly above none, if and only if neither side has ended; then something is always outstanding |
| HttpTheorems.EndingsAreFinal | inc/http_session_base.hpp:178-231 | after reading ends no request is taken in again; after writing ends with n queued nothing is written and at most 8 - n more are taken in |
| HttpTheorems.EndingsAreSignalled | inc/http_session_base.hpp:139-226 | each side that has ended gave exactly one sign of it (an error report, a shutdown or a hand-over) unless the error was one to keep silent about; shutdowns are those for an ended stream and for a completed closing response; an undisturbed run gives none |
| HttpTheorems.UpgradeIsClean | inc/http_session_base.hpp:154-166 | an upgrade leaves the session with nothing outstanding exactly when no write was; in an undisturbed run, exactly when the response queue was empty |
| HttpTheorems.UpgradeBehindResponse | inc/http_session_base.hpp:154-166 | a run that upgrades with a response still being written |
| HttpUtility.GuardExactly | inc/http_utility.h:66-73 | a target passes exactly when it starts with a slash and no segment cut at either slash is ".." |
| HttpUtility.HandleRequest | inc/http_utility.h:36-143 | every branch answers with the request's keep-alive |
| HttpUtility.ApplicationAnswersExactly | inc/http_utility.h:70-141 | the application is asked about exactly the targets that pass the segment condition and are not paths, for verbs up to CONNECT; then the answer is its own, and otherwise it has no influence on it |
| HttpUtility.ErrorsExactly | inc/http_utility.h:70-121 | which inputs, by segments, path, file and verb, get 400, 404, 500 and 200, and the text or file each is answered with |
| HttpUtility.FilesBehindTheGuard | inc/http_utility.h:70-121 | file contents influence an answer only behind the guard, and a file is sent exactly for a GET of a readable path that passed it |
| Text.Find | test/test_service.cpp:123 | the first occurrence at or after a position, or none |
| Multipart.ParseFileBody | test/test_service.cpp:114-171 | the loop ends on every body and reports what the recursive reading of the body reports |
| Multipart.ReportsAreSound | test/test_service.cpp:123-170 | on every body reported contents are in order, disjoint, each between a blank line and the first delimiter after it |
| Multipart.StalledParse | test/test_service.cpp:147-151 | once no delimiter follows, only file names are reported |
| MultipartRounds.ParseExactly | test/test_service.cpp:114-171 | on every body the reports are those of a chain of rounds described by the first positions of each mark in the body; nothing without the first boundary |
| MultipartRounds.RoundsAreUnique | test/test_service.cpp:114-171 | that description fixes the rounds |
| MultipartRounds.StallReportsNames | test/test_service.cpp:147-151 | once no delimiter follows, one round for each successive blank line and one after the last, each reporting the first quoted name from its start under its number, or nothing |
| MultipartRoundTrip.RoundTrip | test/test_service.cpp:114-171 | a printed list of parts is parsed back into its file names and contents, in order |
| MultipartRoundTrip.RoundTripExactly | test/test_service.cpp:140-145 | for a first part without the delimiter in it, exactly when its header block does not start with an empty line |
| MultipartRoundTrip.EmptyLineMisread | test/test_service.cpp:140-145 | a part for which the round trip fails |
| MultipartRoundTrip.DelimiterAfter | test/test_service.cpp:147 | a delimiter cannot start inside a content that lacks it, its only CR being in front |

## Left out

- The listeners' start-up loops, exit and get_ports of the web manager: start-up of foreign objects in order, easy to read off.
- Protocol detection and the protocol masks: a finite table; the session's two "unsupported" outcomes stand for it.
- Sockets, TLS, timers, HTTP and WebSocket framing: outcomes of completions, any at any time.
- The graceful TLS shutdown of an HTTP session and its completion (src/http_session_ssl.cpp:152-188): counted as a shutdown.
- Files, MIME types and path concatenation: what opening the file yields is given with the request.
- Response header fields other than status and keep-alive.
- The boundary taken out of Content-Type (test/test_service.cpp:55-60): the parser's argument.
- Memory identity of queue nodes: a node is its place in the queue and its bytes, an outstanding write the ordinal of its node.
- Integer widths other than the queue counters' decrement: file_index and the message counts are unbounded.
- Calls on a connection from other threads that race with its handlers: they are taken as events between handlers.
- The connection and disconnection counters of the services: counted, with no theorem over runs.
