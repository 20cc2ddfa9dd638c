/** Outgoing data messages and the byte accounting behind `queueSize()`.

    Text is sent UTF-8 encoded; the encoder itself is not modelled, so a text
    message carries the byte length of its encoding. Framing overhead is never
    counted. */
module Messages {

  /** An optional value; `None` stands for Java's `null`. */
  datatype Option<+T> = None | Some(value: T)

  newtype byte = b: int | 0 <= b < 256

  /** A message handed to `send(String)` or `send(ByteString)`. */
  datatype Message =
    | Text(text: string, utf8Length: nat)
    | Binary(data: seq<byte>)

  /** Status code and optional reason of a close message. */
  datatype CloseReason = CloseReason(code: int, reason: Option<string>)

  /** Payload bytes of one message, framing excluded. */
  function Size(m: Message): nat {
    match m
    case Text(_, n) => n
    case Binary(d) => |d|
  }

  /** Payload bytes of every message in a queue: 0 when nothing is queued,
      and every queued message counts in full. */
  function QueueSize(q: seq<Message>): (r: nat)
    ensures q == [] ==> r == 0
    ensures forall i :: 0 <= i < |q| ==> Size(q[i]) <= r
  {
    if q == [] then 0
    else
      assert forall i :: 0 < i < |q| ==> q[i] == q[1..][i - 1];
      Size(q[0]) + QueueSize(q[1..])
  }

  /** The size of two queues laid end to end is the sum of their sizes. */
  lemma {:induction false} QueueSizeConcat(a: seq<Message>, b: seq<Message>)
    ensures QueueSize(a + b) == QueueSize(a) + QueueSize(b)
    decreases |a|
  {
    if a == [] {
      assert a + b == b;
    } else {
      assert (a + b)[1..] == a[1..] + b;
      QueueSizeConcat(a[1..], b);
    }
  }

  /** Enqueuing one message grows the size by exactly that message's bytes. */
  lemma QueueSizeAppend(q: seq<Message>, m: Message)
    ensures QueueSize(q + [m]) == QueueSize(q) + Size(m)
  {
    QueueSizeConcat(q, [m]);
    assert [m][1..] == [];
  }

  /** Removing messages from the front never grows the size. */
  lemma QueueSizeSuffix(q: seq<Message>, k: nat)
    requires k <= |q|
    ensures QueueSize(q[k..]) <= QueueSize(q)
  {
    assert q == q[..k] + q[k..];
    QueueSizeConcat(q[..k], q[k..]);
  }

  /** The size is zero exactly when every queued message is empty; in
      particular an empty queue has size zero. */
  lemma {:induction false} QueueSizeZero(q: seq<Message>)
    ensures QueueSize(q) == 0 <==> forall i :: 0 <= i < |q| ==> Size(q[i]) == 0
    ensures q == [] ==> QueueSize(q) == 0
    decreases |q|
  {
    if q != [] {
      QueueSizeZero(q[1..]);
      assert forall i :: 0 < i < |q| ==> q[i] == q[1..][i - 1];
    }
  }

  /** A queue holding one empty text message has size zero: a zero size does
      not imply that nothing is waiting. */
  lemma ZeroSizeWithMessageWaiting()
    ensures var q := [Text("", 0)]; q != [] && QueueSize(q) == 0
  {
    var q := [Text("", 0)];
    assert q[1..] == [];
  }
}
