/** The steps the interface implies but the application does not call: the
    peer accepting the websocket, the peer's messages and close, the writer
    transmitting the queue, the end of the close handshake, and failures. */
module Environment {
  import opened Messages
  import opened Listener
  import opened WebSocket

  /** The peer may accept the websocket while it is connecting, or after a
      `close` issued before it was accepted. */
  predicate CanOpen(s: Socket) {
    !s.accepted && (s.state == Connecting || s.state == Closing)
  }

  /** The peer accepts the websocket; the listener's onOpen is called. */
  function Opened(s: Socket): (s': Socket)
    requires CanOpen(s)
    ensures s'.accepted
    ensures s.state == Connecting ==> s'.state == Open
    ensures s.state == Closing ==> s'.state == Closing
    ensures s'.trace == s.trace + [OnOpen]
    ensures s'.queue == s.queue
    ensures s' == s.(state := s'.state, accepted := true, trace := s.trace + [OnOpen])
  {
    s.(state := if s.state == Connecting then Open else s.state,
       accepted := true,
       trace := s.trace + [OnOpen])
  }

  /** The peer may still send while it has not sent its own close. */
  predicate PeerMaySend(s: Socket) {
    s.accepted && (s.state == Open || s.state == Closing) && s.peerClose.None?
  }

  /** A message arrives from the peer and is handed to onMessage. */
  function Receive(s: Socket, m: Message): (s': Socket)
    requires PeerMaySend(s)
    ensures s'.trace == s.trace + [OnMessage(m)]
    ensures s'.state == s.state && s'.queue == s.queue
    ensures s' == s.(trace := s'.trace)
  {
    s.(trace := s.trace + [OnMessage(m)])
  }

  /** The peer's close arrives: the socket is closing, onClosing is called, and
      if no close of our own was begun the peer's close is echoed back. */
  function PeerClose(s: Socket, why: CloseReason): (s': Socket)
    requires PeerMaySend(s)
    ensures s'.state == Closing && s'.peerClose == Some(why)
    ensures s.localClose.None? ==> s'.localClose == Some(why)
    ensures s.localClose.Some? ==> s'.localClose == s.localClose
    ensures s'.queue == s.queue
    ensures s'.trace == s.trace + [OnClosing(why.code, why.reason)]
    ensures s' == s.(state := Closing, peerClose := Some(why), localClose := s'.localClose,
                     trace := s'.trace)
  {
    s.(state := Closing,
       peerClose := Some(why),
       localClose := if s.localClose.None? then Some(why) else s.localClose,
       trace := s.trace + [OnClosing(why.code, why.reason)])
  }

  /** The writer transmits only once the websocket is accepted, and keeps
      transmitting while it is closing. */
  predicate CanTransmit(s: Socket) {
    s.accepted && (s.state == Open || s.state == Closing)
  }

  /** The writer transmits the oldest enqueued message. */
  function TransmitHead(s: Socket): (s': Socket)
    requires CanTransmit(s) && s.queue != []
    ensures s'.transmitted == s.transmitted + [s.queue[0]]
    ensures s'.queue == s.queue[1..]
    ensures s'.transmitted + s'.queue == s.transmitted + s.queue
    ensures QueueSize(s'.queue) == QueueSize(s.queue) - Size(s.queue[0])
    ensures s'.state == s.state && s'.trace == s.trace
    ensures s' == s.(queue := s'.queue, transmitted := s'.transmitted)
  {
    assert s.transmitted + s.queue == s.transmitted + [s.queue[0]] + s.queue[1..];
    s.(queue := s.queue[1..], transmitted := s.transmitted + [s.queue[0]])
  }

  /** Our close message goes out after every enqueued message. */
  predicate CanTransmitClose(s: Socket) {
    CanTransmit(s) && s.state == Closing && s.localClose.Some? && !s.closeSent && s.queue == []
  }

  /** The writer transmits our close message. */
  function TransmitClose(s: Socket): (s': Socket)
    requires CanTransmitClose(s)
    ensures s'.closeSent && s'.queue == []
    ensures s'.state == Closing && s'.transmitted == s.transmitted && s'.trace == s.trace
    ensures s' == s.(closeSent := true)
  {
    s.(closeSent := true)
  }

  /** Both peers have closed and everything enqueued went out. */
  predicate CanFinish(s: Socket) {
    && s.accepted && s.state == Closing && s.queue == []
    && s.localClose.Some? && s.closeSent && s.peerClose.Some?
  }

  /** The connection is released; onClosed reports our own close. */
  function Finish(s: Socket): (s': Socket)
    requires CanFinish(s)
    ensures s'.state == Closed && s'.queue == []
    ensures s' == s.(state := Closed, trace := s'.trace)
    ensures s'.trace == s.trace + [OnClosed(s.localClose.value.code, s.localClose.value.reason)]
  {
    s.(state := Closed,
       trace := s.trace + [OnClosed(s.localClose.value.code, s.localClose.value.reason)])
  }

  /** An upgrade problem, a connectivity failure or a peer short-circuiting
      the shutdown: the websocket is canceled and onFailure is called. */
  function Fail(s: Socket): (s': Socket)
    requires !s.state.Terminal()
    ensures s'.state == Canceled
    ensures s'.queue == s.queue && s'.transmitted == s.transmitted
    ensures s'.trace == s.trace + [OnFailure]
    ensures s' == s.(state := Canceled, trace := s'.trace)
  {
    s.(state := Canceled, trace := s.trace + [OnFailure])
  }
}
