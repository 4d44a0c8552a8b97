/** The producer side: `Service.Print` in main.go. A call either hands its
    entry to the loop's log channel or, when its context is already cancelled,
    returns at once without any hand-off. */
module Ingest {
  import opened Wrappers
  import opened Service

  /** The hand-off a `Print` call makes: none when the context is already
      cancelled, otherwise one entry for the loop to receive. */
  function Print(log: string, cancelled: bool): (h: Option<Event>)
    ensures h.None? <==> cancelled
    ensures h.Some? ==> h.value.Receive? && h.value.entry == log
  {
    if cancelled then None else Some(Receive(log))
  }

  /** The loop's state after it has taken a hand-off, if any was made. */
  function Deliver(c: Config, s: State, h: Option<Event>): State {
    match h
    case None => s
    case Some(e) => Step(c, s, e)
  }

  /** Calls made one after another, each with its own cancellation status. */
  function DeliverAll(c: Config, s: State, calls: seq<(string, bool)>): State
    decreases |calls|
  {
    if |calls| == 0 then s
    else DeliverAll(c, Deliver(c, s, Print(calls[0].0, calls[0].1)), calls[1..])
  }

  /** A `Print` with a cancelled context leaves the loop's state untouched. */
  lemma PrintCancelledIsNoOp(c: Config, s: State, log: string)
    ensures Deliver(c, s, Print(log, true)) == s
  {
  }

  /** A `Print` with a live context appends its entry to a running loop's
      buffer and changes no batch. */
  lemma PrintLiveAppends(c: Config, s: State, log: string)
    requires s.phase == Running
    ensures Deliver(c, s, Print(log, false)).buffer == s.buffer + [log]
    ensures Deliver(c, s, Print(log, false)).batches == s.batches
  {
    ReceiveAppends(c, s, log);
  }

  /** However many calls arrive after cancellation, none changes the buffer
      or any batch. */
  lemma {:induction false} CancelledPrintsChangeNothing(c: Config, s: State, calls: seq<(string, bool)>)
    requires forall i :: 0 <= i < |calls| ==> calls[i].1
    ensures DeliverAll(c, s, calls) == s
    decreases |calls|
  {
    if |calls| > 0 {
      PrintCancelledIsNoOp(c, s, calls[0].0);
      CancelledPrintsChangeNothing(c, s, calls[1..]);
    }
  }
}
