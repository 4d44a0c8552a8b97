/** The single-consumer event loop of the log service (`Service.Run` in
    main.go), seen from the loop's side as a deterministic state machine.

    The loop owns the pending buffer, a one-slot "flush due" flag (the
    capacity-1 notify channel), its lifecycle, and the ordered list of batches
    it has snapshotted for writing. A flush is modelled as appending the
    snapshot to that list; the goroutine that writes it, the wait group and the
    writer itself are outside the model. */
module Service {
  import opened Payload

  /** How the loop puts a token into the notify slot. The code does a blocking
      send (`Blocking`); since the loop is the slot's only reader, a send into
      a full slot never completes. `Coalescing` is the non-blocking send that
      drops the token when one is already pending. */
  datatype NotifySend = Blocking | Coalescing

  /** Construction parameters. The tick period is carried but ticks are
      abstract events with no timing. */
  datatype Config = Config(writeEveryMillis: nat, writeLimit: nat, send: NotifySend)

  /** `NewService`: a tick every 5 seconds, a flush due once more than 10
      entries are buffered, blocking sends into the notify slot. */
  const DefaultConfig: Config := Config(5000, 10, Blocking)

  /** `Stuck` is the loop blocked forever on a send into its own full slot. */
  datatype Phase = Running | Stopped | Stuck

  datatype State = State(
    buffer: seq<string>,
    flushDue: bool,
    phase: Phase,
    batches: seq<seq<string>>)

  const Initial: State := State([], false, Running, [])

  /** The cases of the loop's `select`. */
  datatype Event =
    | Receive(entry: string)   // an entry arrives on the log channel
    | NotifyConsumed           // the loop takes the token out of the notify slot
    | Tick                     // the ticker fires
    | Done                     // the context is cancelled

  /** A case can be selected only while the loop is running, and the notify
      case only when the slot holds a token. */
  predicate Enabled(s: State, e: Event) {
    s.phase == Running && (e.NotifyConsumed? ==> s.flushDue)
  }

  /** The entry a step takes in from a producer, if any. */
  function Taken(s: State, e: Event): seq<string> {
    if Enabled(s, e) && e.Receive? then [e.entry] else []
  }

  predicate Conserves(s: State, r: State, taken: seq<string>) {
    Concat(r.batches) + r.buffer == Concat(s.batches) + s.buffer + taken
  }

  /** Every recorded batch is non-empty, and a stopped loop holds nothing
      back: its last entries went into the final batch. */
  predicate Consistent(s: State) {
    AllNonEmpty(s.batches) && (s.phase == Stopped ==> s.buffer == [])
  }

  /** Putting a token into the notify slot. An empty slot takes the token; a
      full one either drops it (coalescing send) or hangs the loop for good
      (blocking send). Nothing else about the loop changes. */
  function Raise(c: Config, s: State): (r: State)
    ensures r.buffer == s.buffer && r.batches == s.batches
    ensures r.flushDue
    ensures r.phase == if s.flushDue && c.send == Blocking then Stuck else s.phase
  {
    if !s.flushDue then s.(flushDue := true)
    else if c.send == Blocking then s.(phase := Stuck)
    else s
  }

  /** One iteration of the loop. An event that is not enabled leaves the state
      as it is. Every step keeps the received entries in order: the batches
      followed by the buffer grow by exactly the entry taken in, and every
      recorded batch is non-empty. */
  function Step(c: Config, s: State, e: Event): (r: State)
    ensures !Enabled(s, e) ==> r == s
    ensures Conserves(s, r, Taken(s, e))
    ensures Consistent(s) ==> Consistent(r)
  {
    if !Enabled(s, e) then s
    else match e
      case Receive(x) =>
        var s1 := s.(buffer := s.buffer + [x]);
        if |s1.buffer| > c.writeLimit then Raise(c, s1) else s1
      case NotifyConsumed =>
        if |s.buffer| > 0 then
          ConcatAppend(s.batches, s.buffer);
          s.(flushDue := false, buffer := [], batches := s.batches + [s.buffer])
        else s.(flushDue := false)
      case Tick =>
        Raise(c, s)
      case Done =>
        if |s.buffer| > 0 then
          ConcatAppend(s.batches, s.buffer);
          s.(phase := Stopped, buffer := [], batches := s.batches + [s.buffer])
        else s.(phase := Stopped)
  }

  /** The loop run over a sequence of events. */
  function Run(c: Config, s: State, evs: seq<Event>): State
    decreases |evs|
  {
    if |evs| == 0 then s else Run(c, Step(c, s, evs[0]), evs[1..])
  }

  /** The entries the loop takes in, in order, over a run. */
  function Accepted(c: Config, s: State, evs: seq<Event>): seq<string>
    decreases |evs|
  {
    if |evs| == 0 then [] else Taken(s, evs[0]) + Accepted(c, Step(c, s, evs[0]), evs[1..])
  }

  /** One `Receive` per entry, in order. */
  function Receives(xs: seq<string>): seq<Event>
  {
    if |xs| == 0 then [] else [Receive(xs[0])] + Receives(xs[1..])
  }

  lemma {:induction false} ReceivesAppend(a: seq<string>, b: seq<string>)
    ensures Receives(a + b) == Receives(a) + Receives(b)
    decreases |a|
  {
    if |a| == 0 {
      assert a + b == b;
    } else {
      assert (a + b)[1..] == a[1..] + b;
      ReceivesAppend(a[1..], b);
    }
  }

  /** Running a single event is taking one step. */
  lemma RunOne(c: Config, s: State, e: Event)
    ensures Run(c, s, [e]) == Step(c, s, e)
  {
    assert [e][1..] == [];
  }

  // ---------------------------------------------------------------------------
  // The individual cases of the select

  /** Receiving an entry appends it after all earlier entries and touches no
      batch, whatever happens to the notify slot. */
  lemma ReceiveAppends(c: Config, s: State, x: string)
    requires s.phase == Running
    ensures Step(c, s, Receive(x)).buffer == s.buffer + [x]
    ensures Step(c, s, Receive(x)).batches == s.batches
  {
  }

  /** A receive raises the flag exactly when the new length is strictly above
      the write limit; at or below the limit the flag and lifecycle are left as
      they were. */
  lemma ReceiveRaisesOverLimit(c: Config, s: State, x: string)
    requires s.phase == Running
    ensures |s.buffer| + 1 <= c.writeLimit ==>
      Step(c, s, Receive(x)).flushDue == s.flushDue && Step(c, s, Receive(x)).phase == Running
    ensures !s.flushDue ==>
      (Step(c, s, Receive(x)).flushDue <==> |s.buffer| + 1 > c.writeLimit)
    ensures !s.flushDue ==> Step(c, s, Receive(x)).phase == Running
  {
  }

  /** Consuming the token with a non-empty buffer records the whole buffer as
      one new batch and empties the buffer; with an empty buffer only the flag
      is cleared. */
  lemma ConsumeFlushes(c: Config, s: State)
    requires s.phase == Running && s.flushDue
    ensures var r := Step(c, s, NotifyConsumed);
      !r.flushDue && r.phase == Running &&
      (|s.buffer| > 0 ==> r.buffer == [] && r.batches == s.batches + [s.buffer]) &&
      (|s.buffer| == 0 ==> r == s.(flushDue := false))
  {
  }

  /** A tick only puts a token into the slot: buffer and batches are untouched. */
  lemma TickOnlyRaises(c: Config, s: State)
    requires s.phase == Running
    ensures var r := Step(c, s, Tick);
      r.buffer == s.buffer && r.batches == s.batches && r.flushDue &&
      (!s.flushDue ==> r == s.(flushDue := true))
  {
  }

  /** Cancellation stops the loop, emitting one final batch holding the rest
      of the buffer if and only if the buffer is non-empty. */
  lemma DoneDrains(c: Config, s: State)
    requires s.phase == Running
    ensures var r := Step(c, s, Done);
      r.phase == Stopped && r.buffer == [] &&
      (|s.buffer| > 0 <==> |r.batches| == |s.batches| + 1) &&
      (|s.buffer| > 0 ==> r.batches == s.batches + [s.buffer]) &&
      (|s.buffer| == 0 ==> r.batches == s.batches)
  {
  }

  /** After the loop has returned (or hangs) no event changes anything. */
  lemma {:induction false} HaltedIsFinal(c: Config, s: State, evs: seq<Event>)
    requires s.phase != Running
    ensures Run(c, s, evs) == s
    ensures Accepted(c, s, evs) == []
    decreases |evs|
  {
    if |evs| > 0 {
      HaltedIsFinal(c, s, evs[1..]);
    }
  }

  // ---------------------------------------------------------------------------
  // Conservation over whole runs

  /** Over any run, the batches taken followed by the buffer grow by exactly
      the entries accepted, in the order accepted. */
  lemma {:induction false} Conservation(c: Config, s: State, evs: seq<Event>)
    ensures Conserves(s, Run(c, s, evs), Accepted(c, s, evs))
    ensures Consistent(s) ==> Consistent(Run(c, s, evs))
    decreases |evs|
  {
    if |evs| > 0 {
      var s1 := Step(c, s, evs[0]);
      Conservation(c, s1, evs[1..]);
      assert Taken(s, evs[0]) + Accepted(c, s1, evs[1..]) == Accepted(c, s, evs);
    }
  }

  /** From a fresh service: the batches in snapshot order, then the buffer,
      are exactly the entries received; every batch is non-empty. */
  lemma ConservationFromInitial(c: Config, evs: seq<Event>)
    ensures var r := Run(c, Initial, evs);
      Concat(r.batches) + r.buffer == Accepted(c, Initial, evs) && Consistent(r)
  {
    Conservation(c, Initial, evs);
  }

  /** No entry is lost or delivered twice: counted with multiplicity, the
      batches and the buffer hold exactly the received entries, and the
      batched entries are a prefix of what was received. */
  lemma NoDuplication(c: Config, evs: seq<Event>)
    ensures var r := Run(c, Initial, evs);
      multiset(Concat(r.batches)) + multiset(r.buffer) == multiset(Accepted(c, Initial, evs)) &&
      Concat(r.batches) <= Accepted(c, Initial, evs)
  {
    var r := Run(c, Initial, evs);
    ConservationFromInitial(c, evs);
    assert Concat(r.batches) + r.buffer == Accepted(c, Initial, evs);
    assert Accepted(c, Initial, evs)[..|Concat(r.batches)|] == Concat(r.batches);
  }

  /** The payloads of the snapshots, laid end to end in snapshot order and
      followed by the payload of what is still buffered, are every received
      entry terminated by a newline, in the order received. The order in which
      the writer actually receives the snapshots is not modelled. */
  lemma SnapshotPayloadsFollowReceiveOrder(c: Config, evs: seq<Event>)
    ensures var r := Run(c, Initial, evs);
      Payloads(r.batches) + Terminated(r.buffer) == Terminated(Accepted(c, Initial, evs))
  {
    var r := Run(c, Initial, evs);
    ConservationFromInitial(c, evs);
    PayloadsAreTerminatedEntries(r.batches);
    TerminatedAppend(Concat(r.batches), r.buffer);
  }

  // ---------------------------------------------------------------------------
  // The threshold and drain behaviour with the default configuration

  /** Receiving entries while the buffer stays within the write limit only
      appends them, whether or not a token is already pending: the send into
      the notify slot is never reached. */
  lemma {:induction false} ReceivesWithinLimit(c: Config, s: State, xs: seq<string>)
    requires s.phase == Running
    requires |s.buffer| + |xs| <= c.writeLimit
    ensures Run(c, s, Receives(xs)) == s.(buffer := s.buffer + xs)
    ensures Accepted(c, s, Receives(xs)) == xs
    decreases |xs|
  {
    if |xs| > 0 {
      var s1 := s.(buffer := s.buffer + [xs[0]]);
      ReceiveWithinLimit(c, s, xs[0]);
      assert Receives(xs) == [Receive(xs[0])] + Receives(xs[1..]);
      RunFirst(c, s, Receive(xs[0]), Receives(xs[1..]));
      ReceivesWithinLimit(c, s1, xs[1..]);
      assert s.buffer + [xs[0]] + xs[1..] == s.buffer + xs;
      assert [xs[0]] + xs[1..] == xs;
    }
  }

  lemma ReceiveWithinLimit(c: Config, s: State, x: string)
    requires s.phase == Running
    requires |s.buffer| + 1 <= c.writeLimit
    ensures Step(c, s, Receive(x)) == s.(buffer := s.buffer + [x])
    ensures Taken(s, Receive(x)) == [x]
  {
  }

  lemma RunFirst(c: Config, s: State, e: Event, evs: seq<Event>)
    ensures Run(c, s, [e] + evs) == Run(c, Step(c, s, e), evs)
    ensures Accepted(c, s, [e] + evs) == Taken(s, e) + Accepted(c, Step(c, s, e), evs)
  {
    assert ([e] + evs)[1..] == evs;
  }

  /** With the default limit of 10: ten entries raise nothing, the eleventh
      raises the flag without flushing, and consuming the token then records
      one batch holding all eleven entries. */
  lemma ThresholdTrigger(xs: seq<string>)
    requires |xs| == 11
    ensures Run(DefaultConfig, Initial, Receives(xs[..10])) == Initial.(buffer := xs[..10])
    ensures var r := Run(DefaultConfig, Initial, Receives(xs));
      r.flushDue && r.phase == Running && r.batches == [] && r.buffer == xs
    ensures Run(DefaultConfig, Initial, Receives(xs) + [NotifyConsumed]).batches == [xs]
  {
    var c := DefaultConfig;
    ReceivesWithinLimit(c, Initial, xs[..10]);
    var s10 := Run(c, Initial, Receives(xs[..10]));
    var s11 := Step(c, s10, Receive(xs[10]));
    assert s11 == s10.(buffer := xs, flushDue := true) by {
      assert xs[..10] + [xs[10]] == xs;
    }
    ReceivesSnoc(c, Initial, xs[..10], xs[10]);
    assert xs[..10] + [xs[10]] == xs;
    RunAppend(c, Initial, Receives(xs), [NotifyConsumed]);
    RunOne(c, s11, NotifyConsumed);
  }

  /** Receiving one more entry after a run of receives is one more step. */
  lemma ReceivesSnoc(c: Config, s: State, xs: seq<string>, x: string)
    ensures Run(c, s, Receives(xs + [x])) == Step(c, Run(c, s, Receives(xs)), Receive(x))
  {
    ReceivesAppend(xs, [x]);
    assert Receives([x]) == [Receive(x)];
    RunAppend(c, s, Receives(xs), [Receive(x)]);
    RunOne(c, Run(c, s, Receives(xs)), Receive(x));
  }

  /** Cancellation with fewer entries buffered than the limit and no flush in
      between hands the writer exactly one batch holding all of them, or no
      batch at all when nothing was received. */
  lemma ShutdownDrain(xs: seq<string>)
    requires |xs| <= 10
    ensures var r := Run(DefaultConfig, Initial, Receives(xs) + [Done]);
      r.phase == Stopped && (|xs| > 0 ==> r.batches == [xs]) && (|xs| == 0 ==> r.batches == [])
  {
    var c := DefaultConfig;
    ReceivesWithinLimit(c, Initial, xs);
    var s := Run(c, Initial, Receives(xs));
    assert s == Initial.(buffer := xs);
    RunAppend(c, Initial, Receives(xs), [Done]);
    RunOne(c, s, Done);
    DoneDrains(c, s);
  }

  /** Running two event sequences one after the other. */
  lemma {:induction false} RunAppend(c: Config, s: State, a: seq<Event>, b: seq<Event>)
    ensures Run(c, s, a + b) == Run(c, Run(c, s, a), b)
    decreases |a|
  {
    if |a| == 0 {
      assert a + b == b;
    } else {
      assert (a + b)[1..] == a[1..] + b;
      RunAppend(c, Step(c, s, a[0]), a[1..], b);
    }
  }

  // ---------------------------------------------------------------------------
  // The blocking send into the notify slot

  /** With the blocking send, a step hangs the loop exactly when it tries to
      put a second token into the slot: a tick, or a receive that leaves more
      than the limit buffered, while a token is already pending. */
  lemma BlockingStuckIff(c: Config, s: State, e: Event)
    requires c.send == Blocking && s.phase == Running
    ensures Step(c, s, e).phase == Stuck <==>
      s.flushDue && (e.Tick? || (e.Receive? && |s.buffer| + 1 > c.writeLimit))
  {
  }

  /** As written: twelve entries received before the loop picks the pending
      token out of the slot (the select chooses at random among ready cases)
      hang the loop; from then on cancellation is never observed and none of
      the twelve entries ever reaches a batch. */
  lemma BlockingSendDeadlocks(xs: seq<string>, later: seq<Event>)
    requires |xs| == 12
    ensures var r := Run(DefaultConfig, Initial, Receives(xs) + later);
      r.phase == Stuck && r.batches == [] && |r.buffer| == 12
  {
    var c := DefaultConfig;
    ThresholdTrigger(xs[..11]);
    var s11 := Run(c, Initial, Receives(xs[..11]));
    ReceivesSnoc(c, Initial, xs[..11], xs[11]);
    assert xs[..11] + [xs[11]] == xs;
    var s12 := Step(c, s11, Receive(xs[11]));
    assert s12.phase == Stuck && s12.batches == [] && |s12.buffer| == 12;
    RunAppend(c, Initial, Receives(xs), later);
    HaltedIsFinal(c, s12, later);
  }

  /** Corrected: with the coalescing send no run ever hangs the loop. */
  lemma {:induction false} CoalescingNeverStuck(c: Config, s: State, evs: seq<Event>)
    requires c.send == Coalescing && s.phase != Stuck
    ensures Run(c, s, evs).phase != Stuck
    decreases |evs|
  {
    if |evs| > 0 {
      CoalescingNeverStuck(c, Step(c, s, evs[0]), evs[1..]);
    }
  }

  /** Corrected: with the coalescing send, cancellation is always observed and
      the final drain leaves every received entry in some batch. */
  lemma CoalescingDrainsEverything(c: Config, evs: seq<Event>)
    requires c.send == Coalescing
    ensures var r := Run(c, Initial, evs + [Done]);
      r.phase == Stopped && Concat(r.batches) == Accepted(c, Initial, evs + [Done])
  {
    CoalescingNeverStuck(c, Initial, evs);
    RunAppend(c, Initial, evs, [Done]);
    ConservationFromInitial(c, evs + [Done]);
  }
}
