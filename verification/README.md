# OkHttp websocket lifecycle, in Dafny

This project models the lifecycle contract of OkHttp's non-blocking websocket,
`okhttp3.NewWebSocket`. The Java type is an interface: its behaviour is given by
doc comments, and no implementation is part of this model. The model is that
documented contract, written as an abstract state machine over immutable values:

- a socket is in one of the states Connecting, Open, Closing, Closed or Canceled;
- it holds an ordered queue of outgoing text and binary messages, and `queueSize()`
  is the sum of their payload bytes, framing excluded;
- the application calls `send(String)`, `send(ByteString)`, `close(code, reason)` and
  `cancel()`, each a pure function from a socket to its boolean return value (where
  there is one) and the socket afterwards;
- the steps the interface implies but shows no code for are environment steps: the
  peer accepting the websocket, a message arriving, the peer's close arriving, the
  writer transmitting the oldest message, the writer transmitting our close message,
  the release of a gracefully closed connection, and a failure;
- the listener's calls (onOpen, onMessage, onClosing, onClosed, onFailure) are one
  trace of events.

The buffer capacity has no value in the interface, so it is a parameter
(`Config.maxQueueSize`). So are the set of status codes of section 7.4 of RFC 6455
that `close` accepts besides 0 (`Config.isStatusCode`, left uninterpreted) and the close
reason a send that overflows the buffer uses (`Config.overflowClose`).

Modules:

- `Messages` (`messages.dfy`): messages, close reasons, `QueueSize` and its laws.
- `Listener` (`listener.dfy`): listener events and the rule that a final event ends the trace.
- `WebSocket` (`websocket.dfy`): states, the socket value, `Send`, `SendText`, `SendBytes`, `Close`, `Cancel`.
- `Environment` (`environment.dfy`): the steps of the peer and of the writer, and their guards.
- `Lifecycle` (`lifecycle.dfy`): runs of arbitrary interleavings of calls and steps, the
  invariant `Valid` every run keeps, first-in-first-out delivery, shutdown permanence,
  terminal behaviour of the trace, and the writer loop `Flush`.
- `Scenarios` (`scenarios.dfy`): concrete runs.

Decisions where the interface is silent:

- The peer may accept a websocket on which `close` was called (or a send overflowed) before the upgrade completed: onOpen is still called, and the websocket stays Closing.
- A peer-initiated close makes the socket Closing. `close` then returns false, because
  a graceful shutdown is already underway. So the peer's close is echoed as our own
  close, which lets the handshake complete.
- Closed is reached only when the socket is Closing, its queue is empty, our close has
  been transmitted after every queued message, and the peer's close has arrived.
  onClosed reports our own close code and reason.
- `cancel` keeps the untransmitted messages in the queue. No step transmits them any
  more, so they are discarded, but `queueSize()` still counts them, as the interface
  allows after a cancel. The listener receives onFailure from `cancel` only if the
  websocket had been accepted. A cancel before that makes no listener call.
- A failure step (upgrade problem, connectivity failure, a peer cutting the shutdown
  short) always calls onFailure.
- `queueSize()` is documented to return 0 when nothing is waiting. The converse does not
  hold: a zero-byte message in the queue also gives 0. The model proves the one
  direction, the exact condition (every waiting message is empty), and a witness.

## Model

| member | source | states |
|---|---|---|
| Messages.QueueSize | okhttp/src/main/java/okhttp3/NewWebSocket.java:57-64 | the payload bytes of every queued message, framing excluded: 0 when nothing is queued, and no single queued message is larger than the total |
| Messages.QueueSizeConcat | okhttp/src/main/java/okhttp3/NewWebSocket.java:57-64 | the queued byte count of two queues laid end to end is the sum of their counts |
| Messages.QueueSizeAppend | okhttp/src/main/java/okhttp3/NewWebSocket.java:57-64 | enqueuing one message grows the queued byte count by exactly that message's payload bytes |
| Messages.QueueSizeSuffix | okhttp/src/main/java/okhttp3/NewWebSocket.java:57-64 | transmitting messages from the front never grows the queued byte count |
| Messages.QueueSizeZero | okhttp/src/main/java/okhttp3/NewWebSocket.java:60-61 | the queued byte count is 0 if no messages are waiting, and is 0 exactly when every waiting message is empty |
| Messages.ZeroSizeWithMessageWaiting | okhttp/src/main/java/okhttp3/NewWebSocket.java:60-61 | a queue holding an empty message has byte count 0, so 0 does not mean that nothing waits |
| Listener.DeliverKeepsFinalAtEnd | okhttp/src/main/java/okhttp3/NewWebSocket.java:136-148 | delivering an event before any final event keeps onClosed/onFailure last, and the trace has ended exactly when that event is final |
| Listener.AtMostOneFinal | okhttp/src/main/java/okhttp3/NewWebSocket.java:136-148 | a trace whose final events come only at its end holds at most one of onClosed or onFailure |
| WebSocket.Initial | okhttp/src/main/java/okhttp3/NewWebSocket.java:29-30 | a new websocket is connecting, not yet accepted, with an empty queue (queueSize 0), nothing transmitted, no close begun, sent or received, and no listener call |
| WebSocket.Send | okhttp/src/main/java/okhttp3/NewWebSocket.java:66-90 | connecting or open and within capacity: true, message appended at the back, queueSize grows by its bytes and stays within capacity; over capacity: false and the only change is the start of a graceful shutdown (Closing, with the overflow close recorded); closing, closed or canceled: false and nothing changes |
| WebSocket.SendText | okhttp/src/main/java/okhttp3/NewWebSocket.java:66-77 | a text message is accepted exactly when the socket is connecting or open and its UTF-8 length fits the buffer: then it is appended and counted; on overflow it is rejected and the only change is the start of a graceful shutdown; when closing, closed or canceled it is rejected and nothing changes |
| WebSocket.SendBytes | okhttp/src/main/java/okhttp3/NewWebSocket.java:79-90 | a binary message is accepted exactly when the socket is connecting or open and its length fits the buffer: then it is appended and counted; on overflow it is rejected and the only change is the start of a graceful shutdown; when closing, closed or canceled it is rejected and nothing changes |
| WebSocket.Close | okhttp/src/main/java/okhttp3/NewWebSocket.java:92-104 | callable with code 0 or a status code of section 7.4 of RFC 6455 (`CloseCodeAllowed`, lines 100-101); true exactly when no graceful shutdown was underway and the socket was not closed or canceled; then the only change is Closing with the given code and reason recorded, so the queue and its order are kept; otherwise nothing changes |
| WebSocket.Cancel | okhttp/src/main/java/okhttp3/NewWebSocket.java:106-110 | from any non-terminal state the socket is Canceled and onFailure follows if it was accepted; closed or canceled sockets are unchanged; queueSize is kept, so it may be nonzero afterwards |
| WebSocket.CloseTwice | okhttp/src/main/java/okhttp3/NewWebSocket.java:97-98 | close called twice returns true then false, and the second call changes nothing |
| WebSocket.CancelIdempotent | okhttp/src/main/java/okhttp3/NewWebSocket.java:107-108 | cancelling a canceled websocket does nothing |
| Environment.Opened | okhttp/src/main/java/okhttp3/NewWebSocket.java:117-122 | the peer accepting the websocket calls onOpen; a connecting websocket becomes Open, while one that is already Closing (a `close` or an overflowing send before acceptance) is accepted but stays Closing |
| Environment.Receive | okhttp/src/main/java/okhttp3/NewWebSocket.java:124-130 | a message from the peer is handed to onMessage and changes neither state nor queue |
| Environment.PeerClose | okhttp/src/main/java/okhttp3/NewWebSocket.java:132-134 | the peer's close makes the socket Closing, is recorded, calls onClosing with its code and reason, and keeps the queue; with no close of our own begun, the peer's close is echoed as ours, otherwise ours is kept |
| Environment.TransmitHead | okhttp/src/main/java/okhttp3/NewWebSocket.java:29-35 | the writer transmits the oldest queued message: transmitted followed by queued is unchanged and queueSize drops by its bytes |
| Environment.TransmitClose | okhttp/src/main/java/okhttp3/NewWebSocket.java:92-95 | our close message is transmitted only once every enqueued message was transmitted |
| Environment.Finish | okhttp/src/main/java/okhttp3/NewWebSocket.java:136-141 | with both closes exchanged and the queue empty the websocket is Closed and onClosed is called |
| Environment.Fail | okhttp/src/main/java/okhttp3/NewWebSocket.java:40-46 | a failure cancels any non-terminal websocket, leaves untransmitted messages untransmitted and calls onFailure |
| Lifecycle.InitialValid | okhttp/src/main/java/okhttp3/NewWebSocket.java:26-30 | a new websocket satisfies the lifecycle invariant |
| Lifecycle.StepValid | okhttp/src/main/java/okhttp3/NewWebSocket.java:26-46 | every call and every peer or writer step keeps the lifecycle invariant (capacity, close bookkeeping, trace shape) |
| Lifecycle.RunValid | okhttp/src/main/java/okhttp3/NewWebSocket.java:26-46 | every run from a valid socket ends in a valid socket |
| Lifecycle.Reachable | okhttp/src/main/java/okhttp3/NewWebSocket.java:36-37 | on every run: the queue stays within capacity, Closed means an empty queue after both closes, final events come last, an accepted websocket that terminated has a final event, and a connecting one has made no listener call |
| Lifecycle.LocalCloseFixed | okhttp/src/main/java/okhttp3/NewWebSocket.java:97-98 | once a close of our own was begun, no later call or step replaces its code and reason |
| Lifecycle.OnClosedReportsClose | okhttp/src/main/java/okhttp3/NewWebSocket.java:136-141 | after close(code, reason) returned true, a websocket that reaches Closed ends its listener trace with onClosed(code, reason) |
| Lifecycle.OnClosedReportsPeerClose | okhttp/src/main/java/okhttp3/NewWebSocket.java:132-141 | after the peer's close arrived with no close of our own begun, a websocket that reaches Closed ends its listener trace with onClosed carrying the peer's code and reason |
| Lifecycle.StepKeepsOrder | okhttp/src/main/java/okhttp3/NewWebSocket.java:29-35 | one step either moves the oldest queued message to the transmitted ones or accepts one message at the back: transmitted only grows, by at most one message |
| Lifecycle.RunKeepsOrder | okhttp/src/main/java/okhttp3/NewWebSocket.java:29-35 | transmitted messages followed by queued ones are exactly the accepted messages, in acceptance order, and nothing transmitted is ever taken back |
| Lifecycle.QueueSizeAccounts | okhttp/src/main/java/okhttp3/NewWebSocket.java:57-64 | after any run, queueSize plus the bytes already transmitted equals the bytes of every accepted message |
| Lifecycle.ClosedTransmittedEverything | okhttp/src/main/java/okhttp3/NewWebSocket.java:36-37 | a websocket that reached Closed has transmitted every accepted message, in order, and has queueSize 0 |
| Lifecycle.TerminalIsStuck | okhttp/src/main/java/okhttp3/NewWebSocket.java:106-110 | in Closed or Canceled no call or step changes the socket or accepts a message |
| Lifecycle.RunFromTerminal | okhttp/src/main/java/okhttp3/NewWebSocket.java:106-110 | every run from Closed or Canceled leaves the socket as it was and accepts nothing |
| Lifecycle.NothingAfterFinalEvent | okhttp/src/main/java/okhttp3/NewWebSocket.java:136-148 | once onClosed or onFailure has been delivered, no run adds a listener call |
| Lifecycle.StepAfterShutdown | okhttp/src/main/java/okhttp3/NewWebSocket.java:33-35 | a step of a closing or ended socket accepts nothing, never reopens it and never grows queueSize |
| Lifecycle.ShutdownIsPermanent | okhttp/src/main/java/okhttp3/NewWebSocket.java:33-35 | after a graceful shutdown began, no later send is accepted, queueSize never grows, and the queued messages go out in their original order |
| Lifecycle.SendsRefusedAfterClose | okhttp/src/main/java/okhttp3/NewWebSocket.java:92-95 | after close returned true, every later send returns false and the messages enqueued before it keep their order |
| Lifecycle.Flush | okhttp/src/main/java/okhttp3/NewWebSocket.java:33-35 | the writer loop transmits every enqueued message, oldest first, empties the queue and keeps the invariant; nothing else changes (state, acceptance, both closes and the listener trace are kept) |
| Scenarios.BufferOverflowScenario | okhttp/src/main/java/okhttp3/NewWebSocket.java:70-73 | with a 10-byte buffer, "hi" and "bye" are queued in order with queueSize 5; a 10-byte message is then rejected, queueSize stays 5 and the socket is Closing |
| Scenarios.GracefulShutdownScenario | okhttp/src/main/java/okhttp3/NewWebSocket.java:92-98 | close after one message, then the close handshake, ends Closed with the message transmitted and the listener calls onOpen, onClosing, onClosed |
| Scenarios.CancelBeforeOpenScenario | okhttp/src/main/java/okhttp3/NewWebSocket.java:106-110 | a websocket cancelled before it was accepted is Canceled, cannot be accepted any more and made no listener call |

## Left out

- `request()`, `Request`, `Response` and `Factory.newWebSocket`: the HTTP upgrade belongs to collaborators that are not part of this model; the `Accept` and `Fail` steps stand for its outcome.
- UTF-8 encoding of text and the contents of `okio.ByteString`: a text message carries its encoded length as a number; a binary message is a sequence of bytes.
- Wire framing (opcodes 0x1 and 0x2) and bytes buffered by the operating system or network intermediaries: neither is counted by `queueSize()`.
- Threading and the non-blocking return of every call: the model is one interleaved sequence of calls and steps; listener calls form one trace.
- The Java `long` width of `queueSize()`: sizes are unbounded naturals; the invariant keeps them within `maxQueueSize`.
- Concrete validation of close status codes under section 7.4 of RFC 6455: `isStatusCode` is a parameter. What happens on an invalid code is not documented, so `close` requires an allowed code.
- Timers and the time a graceful shutdown may take: a timeout is one cause of the `Fail` step.
- Listener method bodies: they are empty defaults; only which call is made, and in what order, is modelled.
- The peer's own half of the connection (its queue and its states): the interface notes that the progression is independent for each peer, and only the local websocket is modelled.
