# Buffered log service: the batching loop, modelled in Dafny

The service takes log lines from many producers through `Print` and writes
them to an `io.Writer` in batches. One goroutine, `Service.Run`, owns the
pending buffer. It flushes the buffer when more than `writeLimit` (10) entries
are buffered, or when the ticker fires (every 5 seconds), and it drains the
buffer once more when its context is cancelled. A batch is written as a
single payload: the entries joined by `"\n"`, plus one trailing `"\n"`.

The model has four modules:

- `Payload` (`payload.dfy`) models the batch encoding `strings.Join(buffer, "\n") + "\n"`
  (`Join`, `Encode`). It adds a reference decoder (`Split`, `Decode`) and the
  round trip in both directions. It also states the bytes a writer sees when
  handed a list of batches in order (`Payloads`).
- `Service` (`service.dfy`) models the `select` loop of `Run` as a pure step
  function over an immutable `State`:
  - the buffer;
  - a `flushDue` flag, which stands for the capacity-1 notify channel;
  - a lifecycle `Running | Stopped | Stuck`;
  - the batches snapshotted so far, in snapshot order.

  The events are `Receive`, `NotifyConsumed`, `Tick` and `Done`. A flush is
  modelled as appending the snapshot to the batch list. `Run` folds the step
  over a sequence of events. `Accepted` collects the entries the loop took in.
- `Ingest` (`ingest.dfy`) models `Print`. With a context that is already
  cancelled it makes no hand-off. Otherwise it hands one `Receive` to the loop.
- `Wrappers` (`wrappers.dfy`) holds `Option`.

The notify channel has capacity 1, and its only reader is the loop itself.
So a send into the full slot blocks the loop forever. `Config.send` says how
the loop sends into the slot:

- `Blocking` is the code as written. A send into a full slot moves the loop
  to `Stuck`, a terminal state.
- `Coalescing` is a non-blocking send that drops the token when one is
  already pending. The loop flushes whatever is buffered when it takes the
  token, so one pending token is enough.

`DefaultConfig` is `NewService` with the blocking send. Every general
property below holds for both modes. See "## Findings".

The code does not serialize the flush writes. Each flush is written from its
own goroutine, so the writer may receive them in any order. The model keeps
only the order in which snapshots were taken.

## Model

| member | source | states |
|---|---|---|
| `Payload.EncodeIsTerminated` | main.go:53 | for a non-empty buffer the payload is every entry followed by exactly one newline, in order |
| `Payload.DecodeEncode` | main.go:69 | round trip: when no entry contains a newline, dropping the trailing newline of a non-empty batch's payload and splitting on newlines recovers the batch exactly |
| `Payload.EncodeDecode` | main.go:69 | converse round trip: any string that decodes is the payload of the entries it decodes to, so the payload format loses nothing |
| `Payload.PayloadsAreTerminatedEntries` | main.go:68-76 | handing the writer non-empty batches one after another yields the same bytes as every entry of all batches newline-terminated in order; no batch's bytes fall inside another's |
| `Service.Raise` | main.go:63-65 | putting a token into the notify slot sets the flag and leaves buffer and batches alone; the loop hangs exactly when the slot was already full and the send blocks, and otherwise its lifecycle is unchanged |
| `Service.Step` | main.go:48-81 | every event preserves conservation (batches then buffer grow by exactly the entry received, in order); a stopped or hung loop and a not-ready case change nothing; all batches stay non-empty and a stopped loop holds no residue |
| `Service.ReceiveAppends` | main.go:60-61 | a received entry goes at the end of the buffer, earlier entries and all batches unchanged |
| `Service.ReceiveRaisesOverLimit` | main.go:63-65 | with the slot empty the flag is raised iff the new length is strictly greater than the write limit; at or below the limit flag and lifecycle are untouched |
| `Service.ConsumeFlushes` | main.go:67-77 | consuming the token with a non-empty buffer records exactly one batch holding the whole buffer and empties it; with an empty buffer only the flag is cleared |
| `Service.TickOnlyRaises` | main.go:79-80 | a tick only fills the notify slot; buffer and batches are unchanged |
| `Service.DoneDrains` | main.go:50-59 | cancellation stops the loop and adds one final batch equal to the remaining buffer iff the buffer is non-empty |
| `Service.HaltedIsFinal` | main.go:57-59 | once the loop has returned (or hangs) no sequence of events changes its state or takes in an entry |
| `Service.Conservation` | main.go:60-70 | over any run the batches in snapshot order followed by the buffer grow by exactly the entries accepted, in acceptance order |
| `Service.ConservationFromInitial` | main.go:26-33 | from a freshly constructed service, batches then buffer are exactly the entries received, every batch non-empty |
| `Service.NoDuplication` | main.go:68-70 | counted with multiplicity, batches and buffer hold exactly the received entries (none flushed twice), and the flushed entries are a prefix of what was received |
| `Service.SnapshotPayloadsFollowReceiveOrder` | main.go:53-74 | the payloads of all batches in snapshot order, followed by the buffered rest, are every received entry newline-terminated in receive order |
| `Service.ReceivesWithinLimit` | main.go:60-65 | receiving entries while the buffer stays within the limit only appends them, with a token pending or not: flag, lifecycle and batches unchanged |
| `Service.ThresholdTrigger` | main.go:60-77 | with the default limit 10, ten entries raise nothing, the eleventh raises the flag without a flush, and consuming it records one batch of all eleven |
| `Service.ShutdownDrain` | main.go:50-55 | with at most 10 entries received and no flush, cancellation hands the writer exactly one batch of all of them, or none when nothing was received |
| `Service.BlockingStuckIff` | main.go:63-80 | with the blocking send, a step hangs the loop iff it sends a token (a tick, or a receive above the limit) while one is already pending |
| `Service.BlockingSendDeadlocks` | main.go:64 | as written: twelve receives in a row from a fresh service hang the loop; afterwards cancellation is never observed and none of the twelve entries reaches a batch |
| `Service.CoalescingNeverStuck` | main.go:64 | corrected send: no run ever hangs the loop |
| `Service.CoalescingDrainsEverything` | main.go:50-55 | corrected send: cancellation is always observed, and after it every accepted entry is in some batch |
| `Ingest.Print` | main.go:86-96 | a call makes no hand-off iff its context is already cancelled, and otherwise hands over exactly its own entry |
| `Ingest.PrintCancelledIsNoOp` | main.go:91-93 | a `Print` with a cancelled context leaves the loop's state unchanged |
| `Ingest.PrintLiveAppends` | main.go:95 | a `Print` with a live context appends its entry to a running loop's buffer and touches no batch |
| `Ingest.CancelledPrintsChangeNothing` | main.go:91-93 | any number of calls with cancelled contexts change neither the buffer nor any batch |

## Findings

| source | as written | input that shows it | evidently intended | confidence | as-written member | corrected member |
|---|---|---|---|---|---|---|
| main.go:64 | the loop does a blocking send into the capacity-1 notify channel, and only the loop itself reads that channel | a fresh service receives 11 entries, so the token is sent; with a producer waiting, the `select` picks the log case over the pending token (Go chooses at random among ready cases); the 12th entry makes `12 > 10` and the second send blocks forever. A tick while a token is pending (main.go:80) does the same | a non-blocking send that drops the token when one is already pending, since the loop flushes whatever is buffered anyway | high (not executed) | `Service.BlockingSendDeadlocks` | `Service.CoalescingNeverStuck` |

Once the loop hangs, `Run` never returns and the final drain never happens.
Every later `Print` with a live context also blocks. `Service.BlockingStuckIff`
characterises exactly when a step hangs. The general properties
(`Step`, `Conservation`, `NoDuplication`, `SnapshotPayloadsFollowReceiveOrder`)
hold for both send modes. `Service.CoalescingDrainsEverything` states the
drain guarantee that only the corrected send provides.

## Left out

- The flush goroutines and the `sync.WaitGroup` (main.go:51, main.go:72-76)
  are concurrency. A flush is modelled as a batch appended in snapshot order.
  The model makes no claim about the order in which the writer receives
  concurrent writes, because the code does not guarantee one.
- `io.Writer`, `os.Stdout` and the ignored results of `Write` (main.go:54,
  main.go:74) are foreign I/O, and their errors are discarded anyway. The
  `[]byte` conversion is not modelled either: payloads are character
  sequences.
- `time.Ticker` and `time.Duration` (main.go:31, main.go:46) have no timing
  in the model. A tick is an abstract event. `Config.writeEveryMillis` is
  carried only as configuration.
- `context`, `close(s.logCh)` (main.go:57), and the race between `Print`'s
  check and its send (main.go:91-95) are runtime behaviour. This includes a
  send on the closed channel, which panics. In the model, an event that
  reaches a stopped loop changes nothing.
- The `select` chooses at random among ready cases. The model takes the
  chosen case as input: any sequence of events is a possible run.
- After `Done` the model empties the buffer into the final
  batch. The code leaves `s.buffer` populated when `Run` returns, but nothing
  reads it again.
- `main` (main.go:98-125) is bootstrap and demo producer code.
