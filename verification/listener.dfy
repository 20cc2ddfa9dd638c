/** The calls a websocket makes to its listener, recorded as one trace. */
module Listener {
  import opened Messages

  datatype Event =
    | OnOpen
    | OnMessage(message: Message)
    | OnClosing(code: int, reason: Option<string>)
    | OnClosed(code: int, reason: Option<string>)
    | OnFailure
  {
    /** After onClosed or onFailure no further calls are made. */
    predicate IsFinal() {
      OnClosed? || OnFailure?
    }
  }

  /** No final event is followed by another event. */
  predicate FinalOnlyAtEnd(t: seq<Event>) {
    forall i :: 0 <= i < |t| - 1 ==> !t[i].IsFinal()
  }

  /** The trace's last event is final. */
  predicate Ended(t: seq<Event>) {
    |t| > 0 && t[|t| - 1].IsFinal()
  }

  /** Delivering one more event to a trace that has not ended keeps final
      events at the end, and the new trace has ended exactly when the event is
      final. */
  lemma DeliverKeepsFinalAtEnd(t: seq<Event>, e: Event)
    requires FinalOnlyAtEnd(t) && !Ended(t)
    ensures FinalOnlyAtEnd(t + [e])
    ensures Ended(t + [e]) <==> e.IsFinal()
  {
    forall i | 0 <= i < |t + [e]| - 1
      ensures !(t + [e])[i].IsFinal()
    {
      assert (t + [e])[i] == t[i];
    }
  }

  /** A trace with final events only at its end holds at most one of them. */
  lemma AtMostOneFinal(t: seq<Event>, i: nat, j: nat)
    requires FinalOnlyAtEnd(t)
    requires i < |t| && j < |t| && t[i].IsFinal() && t[j].IsFinal()
    ensures i == j
  {
  }
}
