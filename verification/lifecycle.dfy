/** Runs of a websocket: any interleaving of application calls and peer or
    writer steps, the invariant every run keeps, and what follows from it. */
module Lifecycle {
  import opened Messages
  import opened Listener
  import opened WebSocket
  import Environment

  /** One application call or one step of the peer or the writer. */
  datatype Action =
    | CallSendText(text: string, utf8Length: nat)
    | CallSendBytes(data: seq<byte>)
    | CallClose(code: int, reason: Option<string>)
    | CallCancel
    | Accept
    | Receive(message: Message)
    | PeerClose(why: CloseReason)
    | TransmitHead
    | TransmitClose
    | Finish
    | Fail

  /** Application calls are always possible, `close` with an allowed code;
      peer and writer steps only when their guard holds. */
  predicate Enabled(cfg: Config, s: Socket, a: Action) {
    match a
    case CallClose(code, _) => CloseCodeAllowed(cfg, code)
    case Accept => Environment.CanOpen(s)
    case Receive(_) => Environment.PeerMaySend(s)
    case PeerClose(_) => Environment.PeerMaySend(s)
    case TransmitHead => Environment.CanTransmit(s) && s.queue != []
    case TransmitClose => Environment.CanTransmitClose(s)
    case Finish => Environment.CanFinish(s)
    case Fail => !s.state.Terminal()
    case _ => true
  }

  function Step(cfg: Config, s: Socket, a: Action): Socket
    requires Enabled(cfg, s, a)
  {
    match a
    case CallSendText(t, n) => SendText(cfg, s, t, n).after
    case CallSendBytes(d) => SendBytes(cfg, s, d).after
    case CallClose(code, reason) => Close(cfg, s, code, reason).after
    case CallCancel => Cancel(s)
    case Accept => Environment.Opened(s)
    case Receive(m) => Environment.Receive(s, m)
    case PeerClose(why) => Environment.PeerClose(s, why)
    case TransmitHead => Environment.TransmitHead(s)
    case TransmitClose => Environment.TransmitClose(s)
    case Finish => Environment.Finish(s)
    case Fail => Environment.Fail(s)
  }

  /** A step whose guard does not hold does not happen. */
  function Apply(cfg: Config, s: Socket, a: Action): Socket {
    if Enabled(cfg, s, a) then Step(cfg, s, a) else s
  }

  function Run(cfg: Config, s: Socket, acts: seq<Action>): Socket
    decreases |acts|
  {
    if acts == [] then s else Run(cfg, Apply(cfg, s, acts[0]), acts[1..])
  }

  /** The message a step enqueues: the one a `send` returning true accepted. */
  function EnqueuedBy(cfg: Config, s: Socket, a: Action): seq<Message> {
    match a
    case CallSendText(t, n) => if SendText(cfg, s, t, n).returned then [Text(t, n)] else []
    case CallSendBytes(d) => if SendBytes(cfg, s, d).returned then [Binary(d)] else []
    case _ => []
  }

  /** Every message accepted along a run, in the order `send` accepted them. */
  function Accepted(cfg: Config, s: Socket, acts: seq<Action>): seq<Message>
    decreases |acts|
  {
    if acts == [] then []
    else EnqueuedBy(cfg, s, acts[0]) + Accepted(cfg, Apply(cfg, s, acts[0]), acts[1..])
  }

  /** What holds of every socket a run can reach. */
  predicate Valid(cfg: Config, s: Socket) {
    // the outgoing buffer never holds more than its capacity
    && QueueSize(s.queue) <= cfg.maxQueueSize
    // close bookkeeping against the lifecycle state
    && (s.state.Accepting() ==> s.localClose.None? && s.peerClose.None? && !s.closeSent)
    && (s.state == Connecting ==> !s.accepted)
    && (s.state == Open ==> s.accepted)
    && (s.state == Closing ==> s.localClose.Some?)
    && (s.state == Closed ==> s.queue == [] && s.closeSent && s.peerClose.Some?)
    && (s.closeSent ==> s.queue == [] && s.localClose.Some? && s.accepted)
    && (s.peerClose.Some? ==> s.accepted && s.localClose.Some?)
    && (!s.accepted ==> s.transmitted == [])
    // the listener trace
    && (s.accepted <==> |s.trace| > 0 && s.trace[0].OnOpen?)
    && (forall i :: 0 < i < |s.trace| ==> !s.trace[i].OnOpen?)
    && (!s.accepted && !s.state.Terminal() ==> s.trace == [])
    && FinalOnlyAtEnd(s.trace)
    && (Ended(s.trace) ==> s.state.Terminal())
    && (s.state == Closed ==> Ended(s.trace))
    && (s.state == Closed ==> s.trace[|s.trace| - 1]
                              == OnClosed(s.localClose.value.code, s.localClose.value.reason))
    && (s.state == Canceled && s.accepted ==> Ended(s.trace))
  }

  lemma InitialValid(cfg: Config)
    ensures Valid(cfg, Initial())
  {
  }

  /** Appending one event to the trace of a socket that has not terminated. */
  lemma DeliverValid(s: Socket, e: Event)
    requires FinalOnlyAtEnd(s.trace) && !Ended(s.trace)
    requires forall i :: 0 < i < |s.trace| ==> !s.trace[i].OnOpen?
    requires !e.OnOpen?
    ensures FinalOnlyAtEnd(s.trace + [e])
    ensures Ended(s.trace + [e]) <==> e.IsFinal()
    ensures forall i :: 0 < i < |s.trace + [e]| ==> !(s.trace + [e])[i].OnOpen?
    ensures |s.trace| > 0 ==> (s.trace + [e])[0] == s.trace[0]
  {
    DeliverKeepsFinalAtEnd(s.trace, e);
  }

  /** Every step keeps the invariant. */
  lemma StepValid(cfg: Config, s: Socket, a: Action)
    requires Valid(cfg, s)
    ensures Valid(cfg, Apply(cfg, s, a))
  {
    if Enabled(cfg, s, a) {
      var s' := Step(cfg, s, a);
      match a
      case CallCancel =>
        if !s.state.Terminal() && s.accepted {
          DeliverValid(s, OnFailure);
        }
      case Accept =>
        assert s.trace == [];
        assert s'.trace == [OnOpen];
      case Receive(m) =>
        DeliverValid(s, OnMessage(m));
      case PeerClose(why) =>
        DeliverValid(s, OnClosing(why.code, why.reason));
      case TransmitHead =>
        QueueSizeSuffix(s.queue, 1);
      case Finish =>
        DeliverValid(s, OnClosed(s.localClose.value.code, s.localClose.value.reason));
      case Fail =>
        DeliverValid(s, OnFailure);
      case _ =>
    }
  }

  /** Every socket a run reaches from a valid one is valid. */
  lemma {:induction false} RunValid(cfg: Config, s: Socket, acts: seq<Action>)
    requires Valid(cfg, s)
    ensures Valid(cfg, Run(cfg, s, acts))
    decreases |acts|
  {
    if acts != [] {
      StepValid(cfg, s, acts[0]);
      RunValid(cfg, Apply(cfg, s, acts[0]), acts[1..]);
    }
  }

  /** What every websocket guarantees, whatever the application and the peer do:
      the buffer stays within capacity, Closed is reached only with an empty
      queue after both closes, and exactly one of onClosed or onFailure ends
      the trace of an accepted websocket that terminated. */
  lemma Reachable(cfg: Config, acts: seq<Action>)
    ensures var s := Run(cfg, Initial(), acts);
            && QueueSize(s.queue) <= cfg.maxQueueSize
            && (s.state == Closed ==> s.queue == [] && s.closeSent && s.peerClose.Some?)
            && FinalOnlyAtEnd(s.trace)
            && (s.state.Terminal() && s.accepted ==> Ended(s.trace))
            && (!s.state.Terminal() ==> !Ended(s.trace))
            && (s.state == Connecting ==> s.trace == [] && s.transmitted == [])
  {
    InitialValid(cfg);
    RunValid(cfg, Initial(), acts);
  }

  /** Once a close of our own was begun, no call or step replaces it. */
  lemma {:induction false} LocalCloseFixed(cfg: Config, s: Socket, acts: seq<Action>)
    requires Valid(cfg, s) && s.localClose.Some?
    ensures Run(cfg, s, acts).localClose == s.localClose
    decreases |acts|
  {
    if acts != [] {
      StepValid(cfg, s, acts[0]);
      LocalCloseFixed(cfg, Apply(cfg, s, acts[0]), acts[1..]);
    }
  }

  /** After `close(code, reason)` returned true, a websocket that reaches Closed
      reports that code and reason in its last listener call, onClosed. */
  lemma OnClosedReportsClose(cfg: Config, s: Socket, code: int, reason: Option<string>,
                             acts: seq<Action>)
    requires Valid(cfg, s) && CloseCodeAllowed(cfg, code)
    requires Close(cfg, s, code, reason).returned
    ensures var t := Run(cfg, Close(cfg, s, code, reason).after, acts);
            t.state == Closed ==> |t.trace| > 0 && t.trace[|t.trace| - 1] == OnClosed(code, reason)
  {
    var c := Close(cfg, s, code, reason).after;
    StepValid(cfg, s, CallClose(code, reason));
    assert Apply(cfg, s, CallClose(code, reason)) == c;
    LocalCloseFixed(cfg, c, acts);
    RunValid(cfg, c, acts);
  }

  /** After the peer's close arrived with no close of our own begun, the peer's
      close is echoed, and a websocket that reaches Closed reports the peer's
      code and reason in its last listener call, onClosed. */
  lemma OnClosedReportsPeerClose(cfg: Config, s: Socket, why: CloseReason, acts: seq<Action>)
    requires Valid(cfg, s) && Environment.PeerMaySend(s) && s.localClose.None?
    ensures var t := Run(cfg, Environment.PeerClose(s, why), acts);
            t.state == Closed ==> |t.trace| > 0 && t.trace[|t.trace| - 1] == OnClosed(why.code, why.reason)
  {
    var c := Environment.PeerClose(s, why);
    StepValid(cfg, s, PeerClose(why));
    assert Apply(cfg, s, PeerClose(why)) == c;
    LocalCloseFixed(cfg, c, acts);
    RunValid(cfg, c, acts);
  }

  /** One step moves a message from the front of the queue to the transmitted
      ones, or accepts one message at the back: nothing transmitted is taken
      back and at most one message goes out. */
  lemma StepKeepsOrder(cfg: Config, s: Socket, a: Action)
    ensures var s' := Apply(cfg, s, a);
            s'.transmitted + s'.queue == s.transmitted + s.queue + EnqueuedBy(cfg, s, a)
    ensures var s' := Apply(cfg, s, a);
            s.transmitted <= s'.transmitted && |s'.transmitted| <= |s.transmitted| + 1
  {
    if Enabled(cfg, s, a) {
      match a
      case CallSendText(t, n) =>
        if SendText(cfg, s, t, n).returned {
          assert s.transmitted + (s.queue + [Text(t, n)]) == s.transmitted + s.queue + [Text(t, n)];
        }
      case CallSendBytes(d) =>
        if SendBytes(cfg, s, d).returned {
          assert s.transmitted + (s.queue + [Binary(d)]) == s.transmitted + s.queue + [Binary(d)];
        }
      case _ =>
    }
  }

  /** First in, first out: what has been transmitted followed by what is still
      queued is exactly what `send` accepted, in acceptance order, and what was
      transmitted stays transmitted. */
  lemma {:induction false} RunKeepsOrder(cfg: Config, s: Socket, acts: seq<Action>)
    ensures var s' := Run(cfg, s, acts);
            s'.transmitted + s'.queue == s.transmitted + s.queue + Accepted(cfg, s, acts)
    ensures s.transmitted <= Run(cfg, s, acts).transmitted
    decreases |acts|
  {
    if acts != [] {
      var s1 := Apply(cfg, s, acts[0]);
      StepKeepsOrder(cfg, s, acts[0]);
      RunKeepsOrder(cfg, s1, acts[1..]);
      assert s.transmitted + s.queue + EnqueuedBy(cfg, s, acts[0]) + Accepted(cfg, s1, acts[1..])
          == s.transmitted + s.queue + Accepted(cfg, s, acts);
    }
  }

  /** `queueSize` after any run: the bytes of every accepted message not yet
      transmitted. */
  lemma QueueSizeAccounts(cfg: Config, acts: seq<Action>)
    ensures var s := Run(cfg, Initial(), acts);
            QueueSize(s.transmitted) + QueueSize(s.queue) == QueueSize(Accepted(cfg, Initial(), acts))
  {
    var s := Run(cfg, Initial(), acts);
    RunKeepsOrder(cfg, Initial(), acts);
    assert Initial().transmitted + Initial().queue == [];
    assert s.transmitted + s.queue == Accepted(cfg, Initial(), acts);
    QueueSizeConcat(s.transmitted, s.queue);
  }

  /** A gracefully closed websocket has transmitted every accepted message, in
      order. */
  lemma ClosedTransmittedEverything(cfg: Config, acts: seq<Action>)
    ensures var s := Run(cfg, Initial(), acts);
            s.state == Closed ==> s.transmitted == Accepted(cfg, Initial(), acts) && QueueSize(s.queue) == 0
  {
    var s := Run(cfg, Initial(), acts);
    Reachable(cfg, acts);
    RunKeepsOrder(cfg, Initial(), acts);
    if s.state == Closed {
      assert s.queue == [];
      assert s.transmitted + [] == s.transmitted;
      assert Initial().transmitted + Initial().queue == [];
    }
  }

  /** Closed and Canceled are never left and nothing happens in them. */
  lemma TerminalIsStuck(cfg: Config, s: Socket, a: Action)
    requires s.state.Terminal()
    ensures Apply(cfg, s, a) == s && EnqueuedBy(cfg, s, a) == []
  {
  }

  lemma {:induction false} RunFromTerminal(cfg: Config, s: Socket, acts: seq<Action>)
    requires s.state.Terminal()
    ensures Run(cfg, s, acts) == s && Accepted(cfg, s, acts) == []
    decreases |acts|
  {
    if acts != [] {
      TerminalIsStuck(cfg, s, acts[0]);
      RunFromTerminal(cfg, s, acts[1..]);
    }
  }

  /** Once onClosed or onFailure has been delivered, the listener is never
      called again. */
  lemma NothingAfterFinalEvent(cfg: Config, s: Socket, acts: seq<Action>)
    requires Valid(cfg, s) && Ended(s.trace)
    ensures Run(cfg, s, acts).trace == s.trace
  {
    RunFromTerminal(cfg, s, acts);
  }

  /** A step of a socket that no longer accepts messages accepts none, and
      only transmits from the front of its queue. */
  lemma StepAfterShutdown(cfg: Config, s: Socket, a: Action)
    requires !s.state.Accepting()
    ensures var s' := Apply(cfg, s, a);
            && !s'.state.Accepting()
            && EnqueuedBy(cfg, s, a) == []
            && QueueSize(s'.queue) <= QueueSize(s.queue)
  {
    if Enabled(cfg, s, a) && a.TransmitHead? {
      QueueSizeSuffix(s.queue, 1);
    }
  }

  /** Once a graceful shutdown has begun (or the socket ended), no later
      `send` is accepted, `queueSize` never grows, and the messages already
      queued are transmitted in their original order or stay queued. */
  lemma {:induction false} ShutdownIsPermanent(cfg: Config, s: Socket, acts: seq<Action>)
    requires !s.state.Accepting()
    ensures var s' := Run(cfg, s, acts);
            && !s'.state.Accepting()
            && Accepted(cfg, s, acts) == []
            && QueueSize(s'.queue) <= QueueSize(s.queue)
            && s'.transmitted + s'.queue == s.transmitted + s.queue
    decreases |acts|
  {
    if acts != [] {
      var s1 := Apply(cfg, s, acts[0]);
      StepAfterShutdown(cfg, s, acts[0]);
      StepKeepsOrder(cfg, s, acts[0]);
      ShutdownIsPermanent(cfg, s1, acts[1..]);
      assert s.transmitted + s.queue + [] == s.transmitted + s.queue;
    }
  }

  /** After `close` returned true, every later `send` returns false, and the
      messages enqueued before it keep their order. */
  lemma SendsRefusedAfterClose(cfg: Config, s: Socket, code: int, reason: Option<string>,
                               acts: seq<Action>)
    requires CloseCodeAllowed(cfg, code)
    requires Close(cfg, s, code, reason).returned
    ensures var c := Close(cfg, s, code, reason).after;
            var s' := Run(cfg, c, acts);
            && Accepted(cfg, c, acts) == []
            && QueueSize(s'.queue) <= QueueSize(s.queue)
            && s'.transmitted + s'.queue == s.transmitted + s.queue
  {
    ShutdownIsPermanent(cfg, Close(cfg, s, code, reason).after, acts);
  }

  /** The writer task: transmit every enqueued message, oldest first. */
  method Flush(cfg: Config, s: Socket) returns (t: Socket)
    requires Valid(cfg, s) && Environment.CanTransmit(s)
    ensures Valid(cfg, t)
    ensures t == s.(queue := [], transmitted := s.transmitted + s.queue)
  {
    t := s;
    while t.queue != []
      invariant Valid(cfg, t) && Environment.CanTransmit(t)
      invariant t.transmitted + t.queue == s.transmitted + s.queue
      invariant t == s.(queue := t.queue, transmitted := t.transmitted)
      decreases |t.queue|
    {
      StepValid(cfg, t, TransmitHead);
      t := Environment.TransmitHead(t);
    }
    assert t.transmitted + [] == t.transmitted;
  }
}
