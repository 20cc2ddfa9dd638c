/** Concrete runs that exercise the lifecycle end to end. */
module Scenarios {
  import opened Messages
  import opened Listener
  import opened WebSocket
  import opened Lifecycle
  import Environment

  /** A 10-byte buffer on an open websocket: "hi" (2 bytes) and "bye" (3 bytes)
      are accepted and queued in order; a 10-byte message then overflows, is
      rejected without changing the queue, and starts a graceful shutdown. */
  lemma BufferOverflowScenario(cfg: Config)
    requires cfg.maxQueueSize == 10
    ensures var s0 := Environment.Opened(Initial());
            var r1 := SendText(cfg, s0, "hi", 2);
            var r2 := SendText(cfg, r1.after, "bye", 3);
            var r3 := SendBytes(cfg, r2.after, [0, 1, 2, 3, 4, 5, 6, 7, 8, 9]);
            && r1.returned && r2.returned
            && r2.after.queue == [Text("hi", 2), Text("bye", 3)]
            && QueueSize(r2.after.queue) == 5
            && !r3.returned
            && QueueSize(r3.after.queue) == 5
            && r3.after.state == Closing
  {
    var s0 := Environment.Opened(Initial());
    var r1 := SendText(cfg, s0, "hi", 2);
    var r2 := SendText(cfg, r1.after, "bye", 3);
    QueueSizeAppend([Text("hi", 2)], Text("bye", 3));
    QueueSizeAppend([], Text("hi", 2));
  }

  /** The application closes after one message; the writer drains the queue,
      sends the close, the peer answers with its close, and the websocket is
      released: everything was transmitted and the listener saw onOpen,
      onClosing and onClosed, in that order. */
  lemma GracefulShutdownScenario(cfg: Config)
    requires cfg.isStatusCode(1000) && cfg.maxQueueSize >= 2
    ensures var bye := CloseReason(1000, None);
            var s := Run(cfg, Initial(),
                         [Accept, CallSendText("hi", 2), CallClose(1000, None), TransmitHead,
                          TransmitClose, PeerClose(bye), Finish]);
            && s.state == Closed
            && s.transmitted == [Text("hi", 2)]
            && s.trace == [OnOpen, OnClosing(1000, None), OnClosed(1000, None)]
  {
    var bye := CloseReason(1000, None);
    var hi := Text("hi", 2);
    var s1 := Apply(cfg, Initial(), Accept);
    assert s1 == Socket(Open, true, [], [], None, false, None, [OnOpen]);
    var s2 := Apply(cfg, s1, CallSendText("hi", 2));
    QueueSizeAppend([], hi);
    assert s2 == Socket(Open, true, [hi], [], None, false, None, [OnOpen]);
    var s3 := Apply(cfg, s2, CallClose(1000, None));
    assert s3 == Socket(Closing, true, [hi], [], Some(bye), false, None, [OnOpen]);
    var s4 := Apply(cfg, s3, TransmitHead);
    assert s4 == Socket(Closing, true, [], [hi], Some(bye), false, None, [OnOpen]);
    var s5 := Apply(cfg, s4, TransmitClose);
    assert s5 == Socket(Closing, true, [], [hi], Some(bye), true, None, [OnOpen]);
    var s6 := Apply(cfg, s5, PeerClose(bye));
    assert s6 == Socket(Closing, true, [], [hi], Some(bye), true, Some(bye),
                        [OnOpen, OnClosing(1000, None)]);
    var s7 := Apply(cfg, s6, Finish);
    assert s7.state == Closed;
    var acts := [Accept, CallSendText("hi", 2), CallClose(1000, None), TransmitHead,
                 TransmitClose, PeerClose(bye), Finish];
    assert Run(cfg, s7, acts[7..]) == s7;
    assert Run(cfg, s6, acts[6..]) == s7;
    assert Run(cfg, s5, acts[5..]) == s7;
    assert Run(cfg, s4, acts[4..]) == s7;
    assert Run(cfg, s3, acts[3..]) == s7;
    assert Run(cfg, s2, acts[2..]) == s7;
    assert Run(cfg, s1, acts[1..]) == s7;
  }

  /** Cancelled before the peer accepted it, a websocket never calls its
      listener, and the peer can no longer accept it. */
  lemma CancelBeforeOpenScenario(cfg: Config)
    ensures var s := Run(cfg, Initial(), [CallCancel, Accept, Fail]);
            s.state == Canceled && s.trace == []
  {
    var acts := [CallCancel, Accept, Fail];
    var s1 := Apply(cfg, Initial(), CallCancel);
    RunFromTerminal(cfg, s1, acts[1..]);
  }
}
