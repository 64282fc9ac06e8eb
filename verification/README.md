# ampoule command channel: a Dafny model of packet ingestion and command dispatch

This project models the receive side of ampoule's command channel on a Zephyr device. It covers two parts.

- **The ingestion engine.** A transport feeds the engine a fragmented byte stream. The engine cuts that stream into length-prefixed packets for its observer. The wire format is a 2-byte big-endian length followed by that many payload bytes. Bytes are buffered in a Zephyr ring buffer of `INGESTION_PACKET_MAX_SIZE` (1024) bytes. The processing work `ingestion_process` runs on the system work queue. It steps `RCV_LENGTH_HIGH → RCV_LENGTH_LOW → RCV_DATA → RCV_LENGTH_HIGH`. A 500 ms timeout work item empties the buffer and restarts the cycle.
- **The command dispatcher.** `command_process` maps a decoded command to a response opcode, a `success` flag and a return code. For `SET_LED` it drives the board's first LED.

The model is functional: immutable records and pure functions. The modules are:

- `Common`: machine integer ranges, `Option`, and Zephyr's errno values.
- `RingBuffer`: Zephyr's `struct ring_buf`, as seen through the calls the engine makes. A buffer is its unread bytes, the read index in the backing array, and how many unread bytes are claimed but not finished. The index matters because `ring_buf_get_claim` returns a contiguous view only. The claim count matters because each claim starts where the previous unfinished one stopped.
- `Framing`: the wire format. `Frame` writes a frame. `Deframe` is an independent reference reading of a byte stream: the complete payloads it carries, and the incomplete tail.
- `Ingestion`: the session record (`struct ingestion`), `ingestion_init`, `ingestion_feed` and `ingestion_timeout`. It also holds one pass of the process loop (`Step`) and the whole loop (`Drain`). The submitted processing work is a `pending` flag and the scheduled timeout is an `armed` flag.
  - `ingestion_process` is modelled twice, selected by a `Variant`.
  - `AsWritten` follows the code: a length byte read from an empty buffer fails `__ASSERT_NO_MSG`, the payload is claimed zero-copy from where the previous unfinished claim stopped, and the `do … while (ring_buf_size_get() != 0)` loop repeats a pass that changed nothing for as long as bytes remain.
  - `Corrected` is the repair the findings below call for: it stops when a pass makes no progress, and copies a payload out across the end of the backing array.
- `Reassembly`: the engine measured against `Deframe`. A session's backlog is the length bytes already consumed plus the buffered bytes. Every loop pass keeps the reading of the backlog, or hands out exactly its first payload.
- `Timeline`: one serialized timeline of events: `Feed` (the transport calls `ingestion_feed`), `Process` (the work queue runs `ingestion_process` if submitted) and `TimeoutFire` (the timeout work expires if scheduled). The work queue's thread is `Running`, `Hung` or `Panicked` (an assertion failed). `Hung` means the loop is spinning: neither work item gets to run, so an expired timeout stays pending behind the loop. Bytes fed from the interrupt during the spin are seen by the still-running loop, which goes on over them.
- `Scenarios`: the repository's own test exchanges as timelines.
- `Findings`: the inputs where the loop as written goes wrong, next to the corrected loop.
- `Transport`: the `write` callback contract of `struct ingestion_transport`.
- `Command`: `command_process` and `command_handle_led`. The GPIO driver is abstracted to what it reports, and the LED pin to a logical level.

Behaviour of the code worth knowing:

- The timeout is armed when the high length byte is read, not when the length is complete.
- `PARSING` is never entered. A payload goes straight from `RCV_DATA` to the observer, and the state returns to `RCV_LENGTH_HIGH`.
- `ingestion_init` takes only the observer callback. The header declares `ingestion_init(ingestion, transport, context)`, and `struct ingestion` in the header has no `observer` field. The model follows the definition in `lib/ingestion.c`.
- `expected_size` is not checked against the capacity. A declared length up to 65535 is accepted, and the session then waits (see `Scenarios.OversizedLengthWaits`).
- Bytes that do not fit are dropped silently, and `ingestion_feed` always returns 0.
- The engine does not decode, dispatch, or frame and write a response. The observer receives the raw payload.

## Model

| member | source | states |
|---|---|---|
| `Ingestion.Init` | lib/ingestion.c:37-53 | A NULL callback gives `-EINVAL` and leaves the session untouched. Otherwise the result is 0, the observer is registered, the state is `RCV_LENGTH_HIGH`, `bytes_read` is 0, and the buffer is empty with capacity 1024. `expected_size` keeps its old value. |
| `Ingestion.Feed` | lib/ingestion.c:55-61 | Always returns 0. The fed bytes are appended up to the free space and the rest are dropped. The buffered count becomes `min(old + len, 1024)`. The processing work is submitted. Nothing else changes: the state, `expected_size`, the read index, an outstanding claim and the timeout are kept. |
| `Ingestion.Timeout` | lib/ingestion.c:67-73 | From any state: the buffer is empty, the state is `RCV_LENGTH_HIGH` and the timeout is no longer armed. The observer, `expected_size` and the submitted work are unchanged. |
| `Ingestion.Step` | lib/ingestion.c:80-116 | One pass of the switch, stated per state. The high byte sets `expected_size = high*256` and arms the timeout. The low byte adds `low`, as a `uint16_t`. The repair's data pass hands out exactly the first `expected_size` buffered bytes and disarms the timeout. As written, a data pass claims from where the previous unfinished claim stopped. A claim of `expected_size` bytes is delivered, `expected_size` bytes are released from the read index, and the timeout is disarmed. A shorter claim stays outstanding and moves the claim head only, forward by less than `expected_size`. A length pass on an empty buffer fails the assertion. The next state is always the cycle's successor, never `PARSING`. |
| `Ingestion.ReadHigh` | lib/ingestion.c:82-92 | From an empty buffer the assertion fails as written. Otherwise the first byte is consumed, `expected_size` becomes `high*256`, the state becomes `RCV_LENGTH_LOW`, the timeout is armed, and the read index moves one slot on. |
| `Ingestion.ReadLow` | lib/ingestion.c:93-102 | From an empty buffer the assertion fails as written. Otherwise the first byte is consumed and added to `expected_size` modulo 65536, the state becomes `RCV_DATA`, and the read index moves one slot on. |
| `Ingestion.ClaimPayload` | lib/ingestion.c:103-115 | As written, a payload pass delivers exactly when `expected_size` unclaimed bytes are buffered and contiguous from the claim head. It then hands out those claimed bytes, drops the first `expected_size` unread bytes, moves the read index `expected_size` slots on, and waits for a length with the timeout cancelled. A shorter claim moves only the claim head, up to the last buffered byte or the array's end. With nothing left to claim, nothing changes. |
| `Ingestion.CopyPayload` | lib/ingestion.c:103-115 | The repaired payload pass delivers exactly when `expected_size` bytes are buffered. It hands out the first `expected_size` of them, keeps the rest with no claim outstanding, and waits for a length with the timeout cancelled. |
| `Ingestion.Drain` | lib/ingestion.c:79-117 | The loop never delivers a packet over 1024 bytes and never enters `PARSING`. As written, it returns only with the buffer empty. It is caught spinning only at a pass that changes nothing while bytes remain, and halts only at a length byte read from an empty buffer. The corrected loop always returns, at a pass that changes nothing. A loop whose first pass changes nothing leaves the session as it was and delivers nothing. |
| `Ingestion.Process` | lib/ingestion.c:75-118 | The work stops being pending. Every packet it delivers fits the buffer. |
| `RingBuffer.Put` | lib/ingestion.c:56 | Stores the longest prefix of the bytes that fits. Bytes are dropped exactly when they overflow the capacity, and then the buffer is full. The read index is unchanged. |
| `RingBuffer.Init` | lib/ingestion.c:50 | A new buffer is valid, has the requested capacity, and holds and claims nothing. |
| `RingBuffer.ClaimStart` | lib/ingestion.c:106 | A claim starts at the read index plus the bytes already claimed, taken around the end of the array, and always inside it. |
| `RingBuffer.Claim` | lib/ingestion.c:106 | The view is the run of unread bytes right after those already claimed, and the buffer records them as claimed too. It has the requested length exactly when that many unclaimed bytes are buffered and do not cross the end of the backing array from the claim start. A short view stops at the last buffered byte or at the array's end. |
| `RingBuffer.Finish` | lib/ingestion.c:110 | Releasing at most the bytes claimed returns 0, drops the first `n` unread bytes, gives back every claim, and moves the read index `n` slots on, around the end of the array. Releasing more than was claimed returns `-EINVAL` and changes nothing. |
| `RingBuffer.Get` | lib/ingestion.c:85 | Copies out `min(n, buffered)` bytes in FIFO order. The copied bytes followed by the remaining bytes are the old contents. The read index moves past the copied bytes, around the array's end, and nothing stays claimed. |
| `RingBuffer.Reset` | lib/ingestion.c:71 | Empties the buffer and rewinds the read index to the start of the array. |
| `RingBuffer.PutThenGet` | lib/ingestion.c:56 | FIFO round trip: a `Get` after a `Put` into an empty buffer returns the accepted bytes in order, and leaves the buffer empty. |
| `RingBuffer.GetAgreesWithClaim` | lib/ingestion.c:106-110 | When the payload does not wrap, claiming then finishing reads the same bytes as a copying read. |
| `RingBuffer.ClaimsFollow` | lib/ingestion.c:106 | Two claims in a row hand out consecutive unread bytes: the second starts where the first stopped. |
| `Framing.DeclaredLength` | lib/ingestion.c:87-98 | The two length bytes are the big-endian digits of the declared length. |
| `Framing.Frame` | tests/hil/pytest/test_hil.py:11 | A frame is two bytes longer than its payload, declares the payload's length and carries the payload after it. |
| `Framing.Deframe` | lib/ingestion.c:79-117 | The reference reading. The unread tail never starts with a complete frame. Nothing is read exactly when the stream does not start with a complete frame, and then the tail is the whole stream. |
| `Framing.DeframeFrame` | lib/ingestion.c:82-111 | Reading a frame followed by any bytes yields the frame's payload first, then the reading of those bytes. |
| `Framing.DeframeFrameAll` | lib/ingestion.c:103-111 | Round trip: reading frames laid back to back gives back every payload in order, with nothing left over. |
| `Framing.DeframeAppend` | lib/ingestion.c:55-58 | Reading does not depend on where the stream is cut: reading `a + b` is reading `a`, then reading `a`'s tail followed by `b`. |
| `Framing.DeframeShrinks` | lib/ingestion.c:79-117 | The unread tail the reference reading leaves is never longer than the stream. |
| `Reassembly.LengthAssembly` | lib/ingestion.c:84-99 | After the high and then the low length byte, `expected_size == high*256 + low` (big-endian), the state is `RCV_DATA`, the timeout is armed, both bytes are consumed, nothing is claimed, and the read index has moved two slots on. |
| `Reassembly.LengthStepKeepsBacklog` | lib/ingestion.c:82-102 | Reading a length byte moves it from the buffer into `expected_size` without changing the backlog. The low byte never carries into the high byte. |
| `Reassembly.DataStepDeliversFirstFrame` | lib/ingestion.c:103-115 | For the corrected loop, and for the loop as written on a session whose buffered bytes do not cross the array's end and are claimed all or not at all: a payload pass delivers exactly the first framed payload of the backlog and leaves the rest. |
| `Reassembly.CorrectedStallsOnlyWithoutFrame` | lib/ingestion.c:103-117 | The corrected loop makes no progress only when the backlog holds no complete frame. |
| `Reassembly.StepSound` | lib/ingestion.c:80-116 | For the corrected loop, and for the loop as written on such a session: a pass that makes progress delivers a prefix of what the reference reading of the backlog yields, and keeps the rest of that reading in the new backlog. As written, the new session is again such a session. |
| `Reassembly.ClaimKeepsBacklog` | lib/ingestion.c:106 | A short claim leaves the backlog as it was. On a session whose buffered bytes do not cross the array's end, the claim takes every buffered byte, so the session stays that way. |
| `Reassembly.DrainSound` | lib/ingestion.c:79-117 | The packets delivered are the first payloads the backlog carries, in order, and the final backlog reads as the rest. This holds for the corrected loop on any session. For the loop as written it holds on a session whose buffered bytes do not cross the array's end. |
| `Reassembly.CorrectedDrainComplete` | lib/ingestion.c:79-117 | The corrected loop delivers every complete frame of the backlog, and keeps exactly the incomplete tail. |
| `Reassembly.AsWrittenDeliversContiguousFrame` | lib/ingestion.c:103-112 | As written, a whole frame with a non-empty payload that does not cross the array's end is delivered once, with its payload. The loop then returns waiting for a length, with the timeout cancelled and the read index past the frame. |
| `Reassembly.ContiguousClaim` | lib/ingestion.c:106-112 | As written, a payload pass with nothing claimed and all `expected_size` bytes buffered before the array's end delivers the first `expected_size` bytes, keeps the rest, cancels the timeout, and moves the read index past them, to 0 at the array's end. |
| `Reassembly.ClaimStopsAtArrayEnd` | lib/ingestion.c:106 | As written, a payload pass whose `expected_size` bytes would cross the array's end claims exactly the bytes up to that end. Nothing else changes. |
| `Reassembly.ClaimFromArrayStart` | lib/ingestion.c:106-111 | As written, a claim starting at index 0 with `expected_size` unclaimed bytes beyond it delivers those bytes. It releases `expected_size` bytes counted from the read index instead, and waits for a length. |
| `Reassembly.ShortClaimsSpin` | lib/ingestion.c:103-117 | As written, once fewer than `expected_size` unclaimed bytes are buffered, the loop delivers nothing and spins: it does not return while no further bytes arrive. It ends with every buffered byte claimed. |
| `Reassembly.AsWrittenSpinsOnPartialPayload` | lib/ingestion.c:103-117 | As written, a partly arrived payload makes the loop spin and deliver nothing. |
| `Reassembly.AsWrittenSpinsOnWrappedPayload` | lib/ingestion.c:106-117 | As written, a single whole frame whose payload crosses the array's end, with nothing after it, makes the loop spin and deliver nothing. |
| `Reassembly.AsWrittenMisreadsWrappedPayload` | lib/ingestion.c:106-110 | As written, take a frame whose `e`-byte payload crosses the array's end `k` bytes in, with at least `e` bytes after that end. The loop delivers the `e` bytes starting `k` bytes into the payload, not the payload. It then goes on reading right after the frame, as if nothing were amiss. |
| `Reassembly.AsWrittenMisreadsWrappedFrame` | lib/ingestion.c:106-110 | As written, `[0, 4, 1, 2, 3, 4, 0, 1, 9]` buffered at read index 1020 delivers `[3, 4, 0, 1]` and then `[9]`, and the loop returns waiting for a length. |
| `Reassembly.AsWrittenDefersEmptyPayload` | lib/ingestion.c:93-117 | As written, a zero-length frame leaves the loop in `RCV_DATA` with the timeout armed, and the empty payload is handed out only by the next run. The corrected loop hands it out at once. |
| `Timeline.Fresh` | tests/ingestion/src/main.c:48-50 | A session initialised with a callback is running and waiting for a frame, with nothing submitted or armed. |
| `Timeline.Apply` | lib/ingestion.c:55-118 | Any event keeps the session valid and out of `PARSING`, and no packet is over 1024 bytes. Packets are delivered only by a run of the work on a running queue, or by a feed into a spinning loop, which goes on over the new backlog. A halted system stays halted. On a spinning loop, a run of the work or the timeout changes nothing: the expired timeout stays armed behind the loop. The corrected loop never changes the state of a queue that is not spinning. The timeout fires only while armed and running, and then clears the buffer and restarts the cycle. |
| `Timeline.Run` | lib/ingestion.c:55-118 | Along any sequence of events: the session stays valid and out of `PARSING`, and no packet is over 1024 bytes. A halted system stays halted. A spinning loop stays as it is, delivering nothing, along events that are not feeds. With the corrected loop, a running queue stays running. |
| `Timeline.RunSound` | lib/ingestion.c:55-117 | Take a timeline without timeouts or dropped bytes that does not halt the system. For the loop as written, every run must also find the buffered bytes not crossing the array's end. The observer then receives the first payloads the fed stream carries, in order, and the backlog reads as the rest. |
| `Timeline.ApplySound` | lib/ingestion.c:55-117 | One such event: what it delivers is read off the backlog followed by the fed bytes, and the new backlog reads as the rest. |
| `Timeline.CorrectedChunks` | lib/ingestion.c:55-117 | The corrected engine, fed any stream in chunks with a run of the work after each, delivers exactly the payloads the stream carries, in order, and keeps its incomplete tail. |
| `Timeline.CorrectedProcessReads` | lib/ingestion.c:75-118 | One run of the corrected work on a running queue delivers every complete frame of the backlog in order. It keeps exactly the incomplete tail and leaves the queue running with nothing submitted. |
| `Timeline.CorrectedDeliversEverySplit` | lib/ingestion.c:55-117 | The corrected engine delivers frames laid back to back exactly once each, in order, however the transport cuts them, when they fit the buffer. |
| `Timeline.ChunksFitWithin` | include/ampoule/ingestion.h:25 | A stream no longer than the 1024-byte buffer fits however it is cut. |
| `Timeline.FeedKeepsBacklog` | lib/ingestion.c:55-58 | A feed that fits adds the bytes `ingestion_feed` takes after the backlog and submits the work. On a running queue it delivers nothing and the queue's state is unchanged. On a spinning loop, the loop goes on over the new backlog. |
| `Timeline.FeedThenProcess` | lib/ingestion.c:55-61 | A feed then a run of the work drains the session that holds the old bytes followed by the fed ones. |
| `Timeline.TimeoutThen` | lib/ingestion.c:67-73 | The timeout firing while armed replaces the session by its reset, then the timeline continues. |
| `Scenarios.OneBytePacket` | tests/ingestion/src/main.c:52-60 | From a fresh session, `{0x00, 0x01, 0x00}` then a run of the work delivers one 1-byte payload `[0]`, under either loop. |
| `Scenarios.NothingBeforeProcessing` | tests/ingestion/src/main.c:62-69 | Before the work runs, the observer has received nothing. |
| `Scenarios.GarbageIsAFrame` | tests/ingestion/src/main.c:71-82 | The bytes the resending test calls garbage, `{0, 1, 2}`, are a whole frame. Followed by `{0, 1, 0}`, both payloads `[2]` and `[0]` arrive. |
| `Scenarios.TimeoutAllowsResending` | lib/ingestion.c:67-73 | A length alone, processed, then the timeout, then the frame sent again: the frame is delivered once, under either loop. |
| `Scenarios.Resend` | lib/ingestion.c:67-73 | Take a run of the work that delivers nothing and leaves the timeout armed. If the timeout fires next, a later feed and run behave exactly as on the session the timeout reset. |
| `Scenarios.PartialThenResend` | tests/ingestion/src/main.c:71-82 | A waiting session is fed a length and part of a payload and is run. Then the timeout fires, and a whole frame is fed and run. Exactly that frame's payload is delivered, and the session waits for a length again. As written, this holds when no payload byte came with the length and the resent frame's payload is non-empty. |
| `Scenarios.HarnessPing` | tests/hil/pytest/test_hil.py:11 | The harness's `PING` bytes `[0, 2, 8, 1]` are the frame of `[8, 1]`, and that payload is delivered. |
| `Scenarios.LengthAlone` | lib/ingestion.c:79-117 | A frame's two length bytes alone, declaring a non-zero length, fed and processed while a frame is awaited, deliver nothing. The session is left running in `RCV_DATA` with the big-endian length as `expected_size`, nothing buffered or claimed, and the timeout armed. |
| `Scenarios.OversizedLengthWaits` | include/ampoule/ingestion.h:53 | A declared length of 1025, above the capacity, is accepted. The session waits in `RCV_DATA` with the timeout armed, and no pass can progress. |
| `Scenarios.PartialFrame` | lib/ingestion.c:103-117 | With the length and part of a payload buffered, the loop delivers nothing and waits in `RCV_DATA` with the timeout armed. As written, it returns only when no payload byte arrived. |
| `Scenarios.WholeFrame` | lib/ingestion.c:103-112 | A whole frame fed in one piece and processed is delivered to a waiting session under either loop, when it does not cross the array's end. As written, this holds when its payload is non-empty. |
| `Scenarios.AsWrittenTwoFrames` | lib/ingestion.c:103-112 | As written, two whole frames with non-empty payloads, fed and run one after the other, are delivered in order when both lie before the array's end. The session waits for a length again. |
| `Findings.PartialPayloadHangs` | lib/ingestion.c:103-117 | As written, `[0, 2, 1]`, run, then the timeout expiring: the loop spins, the timeout does not run, and the partial frame stays buffered in `RCV_DATA`. The observer receives nothing. |
| `Findings.PartialPayloadMisread` | lib/ingestion.c:103-117 | As written, `[0, 2, 1]`, run, timeout, then `[0, 1, 0]` fed and run: the fed bytes resume the spinning loop, the observer receives `[0, 1]`, and the session is left running in `RCV_DATA`, waiting for 256 bytes with the timeout armed and nothing buffered. |
| `Findings.ResumedClaim` | lib/ingestion.c:79-117 | As written, a loop that holds a claim on the first byte `[1]` of a 2-byte payload, resumed over `[1, 0, 1, 0]`: the claim continues after the held byte and delivers `[0, 1]`, the finish releases `[1, 0]`, and the remaining `[1, 0]` is read as a length of 256. The loop then returns with nothing buffered and the timeout armed. |
| `Findings.PartialPayloadResent` | lib/ingestion.c:67-73 | The corrected loop on the same timeline delivers `[0]`, and ends running and waiting. |
| `Findings.PartialHangs` | lib/ingestion.c:103-117 | As written, any partial payload at a run of the work leaves the loop spinning. Until more bytes are fed, nothing else happens: the session stays as the spin left it, holding the partial payload in `RCV_DATA`, and the observer receives nothing. |
| `Findings.WrappedPayloadHangs` | lib/ingestion.c:106-107 | As written, a 1018-byte payload frame, run, then the frame of `[1, 2, 3, 4]`, run: the second payload is never delivered and the queue hangs. |
| `Findings.WrappedPayloadDelivered` | lib/ingestion.c:106-107 | The corrected loop on the same timeline delivers both payloads. |
| `Findings.WrapHangs` | lib/ingestion.c:106-117 | As written, a first frame read from index 0, then a second frame whose payload crosses the array's end with nothing after it: the first payload is delivered, then the queue hangs. |
| `Findings.WrappedFrameHangs` | lib/ingestion.c:106-117 | As written, a waiting session fed one whole frame whose payload crosses the array's end, with nothing after it, delivers nothing and hangs. |
| `Findings.WrappedPayloadMisread` | lib/ingestion.c:106-110 | As written, a 1018-byte payload frame, run, then `[0, 4, 1, 2, 3, 4, 0, 1, 9]`, run: the observer receives the 1018 bytes, then `[3, 4, 0, 1]`, then `[9]`, and the queue keeps running. |
| `Findings.WrappedPayloadRead` | lib/ingestion.c:106-110 | The corrected loop on the same timeline delivers the 1018 bytes, `[1, 2, 3, 4]` and `[9]`. |
| `Findings.FrameThenChunkDelivered` | lib/ingestion.c:55-117 | The corrected engine, fed a frame and then any chunk that fits the buffer, delivers the frame's payload and then every payload in the chunk. It keeps the chunk's incomplete tail. |
| `Findings.TwoFramesDelivered` | lib/ingestion.c:103-111 | The corrected loop delivers any two frames fed one after the other, wherever the second lands in the array. |
| `Findings.EmptyWorkPanics` | lib/ingestion.c:85-86 | As written, the work running with nothing buffered while a length is awaited halts the system. This happens after a feed of no bytes, or after a byte arrives once the timeout expired but before the work ran. |
| `Findings.EmptyWorkIsHarmless` | lib/ingestion.c:85-86 | The corrected loop on the same timelines delivers nothing and waits for a length. |
| `Findings.EmptyPayloadLost` | lib/ingestion.c:89 | As written, the frame `[0, 0]`, run, then the timeout: the empty payload is never delivered. |
| `Findings.EmptyPayloadDelivered` | lib/ingestion.c:103-112 | The corrected loop on the same timeline delivers the empty payload. |
| `Transport.Interpret` | include/ampoule/ingestion.h:38-41 | A return value from `write` has a meaning exactly when it is negative (an error) or at most `len` (a byte count). A count is never above `len`. |
| `Transport.InterpretEncode` | include/ampoule/ingestion.h:39-40 | A result reads back as itself exactly when a conforming `write` can report it. |
| `Command.HandleLed` | lib/command.c:39-70 | The return code is never positive. It is 0 exactly when the LED node exists, is ready and configures. The errors are `-ENOSYS` without a node, `-EIO` when not ready, and the configure error itself. On success the pin ends at 0 for `OFF` and at 1 otherwise. On failure the pin is untouched. |
| `Command.Process` | lib/command.c:72-92 | `success` is true exactly when the code is 0. `PING` answers `PONG` with code 0. `SET_LED` answers `SET_LED` with the LED handler's code. Any other opcode gives `-ENOSYS` and leaves the response opcode as it was. |
| `Command.ProcessSucceeds` | lib/command.c:89 | A command succeeds exactly when it is a ping, or a LED command on a board whose LED works. |
| `Command.PingPongs` | tests/command/src/main.c:34-43 | A ping returns 0 and a successful `PONG`. |
| `Command.WhiteLedLights` | tests/command/src/main.c:48-68 | `SET_LED` white succeeds and drives the pin to 1. |
| `Command.OffLedDarkens` | tests/command/src/main.c:70-90 | `SET_LED` off succeeds and drives the pin to 0. |
| `Command.NoLedFails` | tests/command/src/main.c:92-101 | Without an LED node, `SET_LED` returns `-ENOSYS` with `success` false and opcode `SET_LED`. |

## Left out

- `lib/transports/serial.c` is not part of this model. It holds the UART interrupt handling, the nanopb encoding and decoding, and the TX ring: I/O around foreign libraries.
- Message decoding, dispatch from the observer, and response framing are left out. The engine in the code only hands raw payloads to its observer.
- Real time is not modelled. The 500 ms timeout is an event that can fire whenever the timeout is armed.
- Concurrency between the interrupt-side `ingestion_feed` and the work queue is left out: events are totally ordered.
- A spinning loop is modelled as a `Hung` state, not as an infinite computation. The loop's passes between two feeds change nothing, so a feed during the spin resumes the loop on the session the spin left, followed by the fed bytes. A feed is assumed to complete between two passes of the loop.
- Re-scheduling while armed (`k_work_schedule` on an already scheduled item) restarts no deadline. With time abstracted, this is just the `armed` flag staying set.
- `INGESTION_OBSERVERS_MAX_SIZE` is defined but never used.
- The `transport` and `transport_context` fields of `struct ingestion` are never set or read by the engine.
- The observer's return value is ignored by the code, so the observer is known only by identity.
- The model assumes assertions are enabled. Without them, a length byte read from an empty buffer takes an uninitialised value.
- `Command.HandleLed`: the GPIO driver is reduced to two reported values (`gpio_is_ready_dt` and the code of `gpio_pin_configure_dt`). `gpio_pin_set_dt` is assumed to succeed, since the code ignores its result. The protobuf enum values of `ampoule_Opcode` and `ampoule_Led_Color` are not visible, so unnamed values are kept by number.
- `Reassembly.DrainSound`: the loop as written is proved sound only on sessions whose buffered bytes do not cross the end of the backing array. A payload crossing it is misread or hangs the loop (see Findings).
- `Timeline.ApplySound`: for the work as written, stated only for a run on such a session, and for a feed into a spin that leaves such a session, for the same reason.
- `Timeline.RunSound`: for the work as written, stated only for timelines whose runs find no buffered bytes crossing the array's end, for the same reason. This also leaves out every feed of bytes into a spinning loop: the spin holds a claim on part of the backlog, and the resumed loop claims after it (`Findings.PartialPayloadMisread`).
- `Reassembly.DataStepDeliversFirstFrame`: for the loop as written, stated only on sessions whose buffered bytes do not cross the array's end and are claimed all or not at all. On other sessions the loop as written misreads (see Findings).
- `Reassembly.StepSound`: for the loop as written, stated only on such sessions, for the same reason.
- `Scenarios.PartialThenResend`: as written, stated only when no payload byte came with the length. Otherwise the loop spins, so the timeout cannot fire (`Findings.PartialHangs`), and the resent bytes are claimed by the spinning loop (`Findings.PartialPayloadMisread`). As written, it is also stated only for a resent frame with a non-empty payload, because the loop returns after reading a zero length and owes the empty payload to the next run (`Findings.EmptyPayloadLost`).
- `Scenarios.WholeFrame`: as written, stated only for a non-empty payload, for the same reason.
- `Scenarios.AsWrittenTwoFrames`: stated only for two non-empty payloads, for the same reason.
- `Scenarios.LengthAlone`: stated only for a non-zero length. At length zero the corrected loop delivers the empty payload, and the loop as written owes it to the next run (`Reassembly.AsWrittenDefersEmptyPayload`).
- A feed longer than the free space is truncated, as the ring buffer does. Proofs about whole streams assume the fed bytes fit, and say so in their preconditions.

## Findings

| source | as written | input that shows it | evidently intended | confidence | as-written member | corrected member |
|---|---|---|---|---|---|---|
| lib/ingestion.c:103-117 | In `RCV_DATA` with fewer than `expected_size` bytes claimable, the pass claims what it can, and after that it changes nothing. `while (ring_buf_size_get() != 0)` repeats it, so while no further bytes arrive the work queue's thread never returns and the timeout work never runs. Bytes that do arrive during the spin are claimed after the bytes the spin holds, so the observer receives the wrong bytes. | A fresh session fed `[0, 2, 1]` and processed, then `TimeoutFire`, then `[0, 1, 0]` fed and processed: the observer receives `[0, 1]`, and the session is left waiting for a 256-byte payload with the timeout armed. | Return from the work and wait for more bytes or the timeout, as the resending test expects: the timeout clears the partial frame and the resent frame delivers `[0]`. | medium, not executed | `Findings.PartialPayloadMisread` | `Findings.PartialPayloadResent` |
| lib/ingestion.c:106-107 | The zero-copy claim stops at the end of the backing array, so a payload buffered whole but crossing that end is claimed in two parts. The second claim starts at index 0. When fewer than `expected_size` bytes follow the array's end, it falls short too and the loop spins. (When enough follow, the next row applies.) | A frame with a 1018-byte payload processed, then the frame `[0, 4, 1, 2, 3, 4]` processed. | Deliver the payload, reading across the wrap. | high, not executed | `Findings.WrappedPayloadHangs` | `Findings.WrappedPayloadDelivered` |
| lib/ingestion.c:106-110 | When at least `expected_size` bytes follow the array's end, the second claim returns `expected_size` bytes from index 0. These start `k` bytes into the payload, where `k` is how many bytes the first claim took. The observer gets them. `ring_buf_get_finish` then releases `expected_size` bytes from the read index, so reading resumes after the frame and nothing reports the error. | A frame with a 1018-byte payload processed, then `[0, 4, 1, 2, 3, 4, 0, 1, 9]` processed: the observer receives `[3, 4, 0, 1]` and then `[9]`. | Deliver `[1, 2, 3, 4]`, reading across the wrap. | high, not executed | `Findings.WrappedPayloadMisread` | `Findings.WrappedPayloadRead` |
| lib/ingestion.c:85-86 | The work can run with nothing buffered while a length is awaited, and `__ASSERT_NO_MSG(rc == 1)` then fails. | A fresh session fed `[]` and processed. Or `[0, 1]` processed, then `[5]` fed, then `TimeoutFire`, then the work runs. | Return from the work when no byte is buffered. | medium, not executed | `Findings.EmptyWorkPanics` | `Findings.EmptyWorkIsHarmless` |
| lib/ingestion.c:89 | The loop returns after the length of a zero-length frame, with the timeout armed and the payload owed to the next run. If the timeout fires first, the payload is lost. | A fresh session fed `[0, 0]` and processed, then `TimeoutFire`. | Deliver the empty payload in the same run. | low, not executed | `Findings.EmptyPayloadLost` | `Findings.EmptyPayloadDelivered` |
