/** The application-facing calls of a websocket: `queueSize`, `send`, `close`
    and `cancel`, as pure transitions on an immutable socket value. */
module WebSocket {
  import opened Messages
  import opened Listener

  datatype State = Connecting | Open | Closing | Closed | Canceled {
    /** The states in which new messages and a close are still accepted. */
    predicate Accepting() {
      this == Connecting || this == Open
    }

    /** The states a socket never leaves. */
    predicate Terminal() {
      this == Closed || this == Canceled
    }
  }

  /** What the interface leaves to the implementation. */
  datatype Config = Config(
    maxQueueSize: nat,           // capacity of the outgoing message buffer, in bytes
    isStatusCode: int -> bool,   // the status codes of section 7.4 of RFC 6455
    overflowClose: CloseReason)  // the close a rejected, overflowing send starts

  datatype Socket = Socket(
    state: State,
    accepted: bool,                   // the peer has accepted the websocket
    queue: seq<Message>,              // enqueued, not yet transmitted, oldest first
    transmitted: seq<Message>,        // written to the peer, oldest first
    localClose: Option<CloseReason>,  // our close message, once a shutdown began
    closeSent: bool,                  // our close message has been transmitted
    peerClose: Option<CloseReason>,   // the peer's close message, once received
    trace: seq<Event>)                // calls made to the listener so far

  /** A call's boolean return value together with the socket afterwards. */
  datatype Reply = Reply(returned: bool, after: Socket)

  /** A freshly created websocket: connecting, nothing enqueued, no calls made. */
  function Initial(): (s: Socket)
    ensures s.state == Connecting && !s.accepted
    ensures s.queue == [] && s.transmitted == [] && s.trace == []
    ensures s.localClose.None? && !s.closeSent && s.peerClose.None?
  {
    Socket(Connecting, false, [], [], None, false, None, [])
  }

  /** `close` accepts a status code of section 7.4 of RFC 6455, or 0. */
  predicate CloseCodeAllowed(cfg: Config, code: int) {
    code == 0 || cfg.isStatusCode(code)
  }

  /** Starting a graceful shutdown: refuse new messages, keep the queue. */
  function BeginShutdown(s: Socket, why: CloseReason): Socket {
    s.(state := Closing, localClose := Some(why))
  }

  /** `send`: enqueue `m` unless the socket is closing, closed or canceled, or
      unless `m` would overflow the buffer, which rejects it and begins a
      graceful shutdown. */
  function Send(cfg: Config, s: Socket, m: Message): (r: Reply)
    // accepted: appended at the back, queueSize grows by exactly its bytes
    ensures r.returned ==> r.after == s.(queue := s.queue + [m])
    ensures r.returned ==> QueueSize(r.after.queue) == QueueSize(s.queue) + Size(m)
    ensures r.returned ==> QueueSize(r.after.queue) <= cfg.maxQueueSize
    // accepted whenever it fits and the socket is connecting or open
    ensures s.state.Accepting() && QueueSize(s.queue) + Size(m) <= cfg.maxQueueSize ==> r.returned
    // overflow: rejected; the only change is a graceful shutdown, queue untouched
    ensures s.state.Accepting() && QueueSize(s.queue) + Size(m) > cfg.maxQueueSize ==>
              !r.returned && r.after == s.(state := Closing, localClose := Some(cfg.overflowClose))
    // closing, closed or canceled: rejected and nothing changes
    ensures !s.state.Accepting() ==> !r.returned && r.after == s
  {
    if !s.state.Accepting() then
      Reply(false, s)
    else if QueueSize(s.queue) + Size(m) > cfg.maxQueueSize then
      Reply(false, BeginShutdown(s, cfg.overflowClose))
    else
      QueueSizeAppend(s.queue, m);
      Reply(true, s.(queue := s.queue + [m]))
  }

  /** `send(String)`: a text message whose UTF-8 encoding takes `utf8Length` bytes. */
  function SendText(cfg: Config, s: Socket, text: string, utf8Length: nat): (r: Reply)
    ensures r.returned ==> r.after == s.(queue := s.queue + [Text(text, utf8Length)])
    ensures r.returned ==> QueueSize(r.after.queue) == QueueSize(s.queue) + utf8Length
    ensures s.state.Accepting() && QueueSize(s.queue) + utf8Length <= cfg.maxQueueSize ==> r.returned
    ensures s.state.Accepting() && QueueSize(s.queue) + utf8Length > cfg.maxQueueSize ==>
              !r.returned && r.after == s.(state := Closing, localClose := Some(cfg.overflowClose))
    ensures !s.state.Accepting() ==> !r.returned && r.after == s
    ensures !r.returned ==> r.after.queue == s.queue
  {
    Send(cfg, s, Text(text, utf8Length))
  }

  /** `send(ByteString)`: a binary message. */
  function SendBytes(cfg: Config, s: Socket, data: seq<byte>): (r: Reply)
    ensures r.returned ==> r.after == s.(queue := s.queue + [Binary(data)])
    ensures r.returned ==> QueueSize(r.after.queue) == QueueSize(s.queue) + |data|
    ensures s.state.Accepting() && QueueSize(s.queue) + |data| <= cfg.maxQueueSize ==> r.returned
    ensures s.state.Accepting() && QueueSize(s.queue) + |data| > cfg.maxQueueSize ==>
              !r.returned && r.after == s.(state := Closing, localClose := Some(cfg.overflowClose))
    ensures !s.state.Accepting() ==> !r.returned && r.after == s
    ensures !r.returned ==> r.after.queue == s.queue
  {
    Send(cfg, s, Binary(data))
  }

  /** `close`: true only for the call that initiates the graceful shutdown;
      already-enqueued messages stay queued, in order. */
  function Close(cfg: Config, s: Socket, code: int, reason: Option<string>): (r: Reply)
    requires CloseCodeAllowed(cfg, code)
    ensures r.returned <==> s.state.Accepting()
    ensures r.returned ==> r.after == s.(state := Closing, localClose := Some(CloseReason(code, reason)))
    ensures !r.returned ==> r.after == s
  {
    if s.state.Accepting() then
      Reply(true, BeginShutdown(s, CloseReason(code, reason)))
    else
      Reply(false, s)
  }

  /** `cancel`: abrupt termination. Nothing is transmitted any more, but the
      untransmitted messages still count towards `queueSize`. The listener is
      told of the failure only if the websocket had been opened. */
  function Cancel(s: Socket): (s': Socket)
    ensures s.state.Terminal() ==> s' == s
    ensures !s.state.Terminal() ==> s'.state == Canceled
    ensures !s.state.Terminal() ==> s' == s.(state := Canceled, trace := s'.trace)
    ensures s'.queue == s.queue
    ensures s'.transmitted == s.transmitted
    ensures !s.state.Terminal() && s.accepted ==> s'.trace == s.trace + [OnFailure]
    ensures !s.accepted ==> s'.trace == s.trace
  {
    if s.state.Terminal() then
      s
    else
      s.(state := Canceled, trace := if s.accepted then s.trace + [OnFailure] else s.trace)
  }

  /** Closing twice: the first call initiates the shutdown, the second is refused. */
  lemma CloseTwice(cfg: Config, s: Socket, code1: int, reason1: Option<string>,
                   code2: int, reason2: Option<string>)
    requires s.state.Accepting()
    requires CloseCodeAllowed(cfg, code1) && CloseCodeAllowed(cfg, code2)
    ensures var r1 := Close(cfg, s, code1, reason1);
            var r2 := Close(cfg, r1.after, code2, reason2);
            r1.returned && !r2.returned && r2.after == r1.after
  {
  }

  /** Cancelling a second time changes nothing. */
  lemma CancelIdempotent(s: Socket)
    ensures Cancel(Cancel(s)) == Cancel(s)
  {
  }
}
