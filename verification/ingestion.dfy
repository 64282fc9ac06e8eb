/**
 The packet ingestion engine: a session that buffers incoming bytes and cuts them into
 length-prefixed packets for its observer.

 The two Zephyr work items embedded in the session are flags: `pending` is the submitted
 processing work (`ingest_work`), `armed` the scheduled 500 ms timeout (`timeout_work`).
 Time itself is not modelled; the timeout is an event that can only fire while armed.

 `ingestion_process` is modelled twice, selected by a `Variant`: `AsWritten` follows the
 source, `Corrected` is the repair described under the README's findings (stop when no
 step can progress, copy a payload out across the end of the backing array).
 */
module Ingestion {
  import opened Common
  import RingBuffer

  /** `INGESTION_PACKET_MAX_SIZE`: the capacity of the session's ring buffer (`current`). */
  const PACKET_MAX_SIZE: nat := 1024

  /** `enum ingestion_state`. */
  datatype State = RcvLengthHigh | RcvLengthLow | RcvData | Parsing

  /** The cycle the process loop drives. No case of the loop handles `Parsing`. */
  function Succ(st: State): State
  {
    match st
    case RcvLengthHigh => RcvLengthLow
    case RcvLengthLow => RcvData
    case RcvData => RcvLengthHigh
    case Parsing => Parsing
  }

  /** The registered `on_data_cb`, known only by identity. */
  type Observer = nat

  /** `struct ingestion`, without its unused transport fields. */
  datatype Session = Session(
    observer: Option<Observer>,
    rb: RingBuffer.RingBuf,
    state: State,
    expectedSize: u16,
    bytesRead: u16,
    pending: bool,
    armed: bool)
  {
    /** A claim is left outstanding only while a payload is awaited. */
    predicate Valid()
    {
      rb.Valid() && rb.capacity == PACKET_MAX_SIZE && (state != RcvData ==> rb.claimed == 0)
    }
  }

  /** A zero-filled static `struct ingestion`, before `ingestion_init`. */
  const Zeroed: Session := Session(None, RingBuffer.RingBuf(0, [], 0, 0), RcvLengthHigh, 0, 0, false, false)

  /**
   `ingestion_init`: rejects a NULL callback without touching the session; otherwise
   registers it and starts from an empty buffer waiting for a length. `expected_size`
   keeps whatever it held.
   */
  function Init(prev: Session, cb: Option<Observer>): (r: (int, Session))
    ensures cb == None ==> r.0 == -EINVAL && r.1 == prev
    ensures cb != None ==> r.0 == 0 && r.1.Valid() && r.1.observer == cb
    ensures cb != None ==> r.1.state == RcvLengthHigh && r.1.bytesRead == 0 && r.1.rb.data == []
    ensures cb != None ==> !r.1.pending && !r.1.armed && r.1.expectedSize == prev.expectedSize
  {
    if cb == None then (-EINVAL, prev)
    else
      (0, prev.(observer := cb, bytesRead := 0, state := RcvLengthHigh, pending := false,
                armed := false, rb := RingBuffer.Init(PACKET_MAX_SIZE)))
  }

  /**
   `ingestion_feed`: buffers as much of `bytes` as fits, silently dropping the rest,
   submits the processing work and reports success regardless.
   */
  function Feed(s: Session, bytes: seq<u8>): (r: (int, Session))
    requires s.Valid() && |bytes| <= 0xFFFF
    ensures r.0 == 0
    ensures r.1.Valid() && r.1.pending
    ensures s.rb.data <= r.1.rb.data <= s.rb.data + bytes
    ensures |r.1.rb.data| == Min(|s.rb.data| + |bytes|, PACKET_MAX_SIZE)
    ensures r.1 == s.(rb := r.1.rb, pending := true) && r.1.rb.head == s.rb.head
    ensures r.1.rb.claimed == s.rb.claimed && r.1.rb.capacity == s.rb.capacity
  {
    var (rb, _) := RingBuffer.Put(s.rb, bytes);
    (0, s.(rb := rb, pending := true))
  }

  /**
   `ingestion_timeout`: the timeout work has fired; every buffered byte is dropped and the
   session waits for a new length.
   */
  function Timeout(s: Session): (r: Session)
    requires s.Valid()
    ensures r.Valid() && r.rb.data == [] && r.state == RcvLengthHigh && !r.armed
    ensures r.observer == s.observer && r.expectedSize == s.expectedSize && r.pending == s.pending
  {
    s.(rb := RingBuffer.Reset(s.rb), state := RcvLengthHigh, armed := false)
  }

  datatype Variant = AsWritten | Corrected

  /** One pass through the body of the process loop. */
  datatype StepResult =
    | Advanced(next: Session, packet: Option<seq<u8>>)
    | Claimed(next: Session)   // a payload claim came back short: only the claim head moved
    | Stuck                    // the pass changed nothing
    | AssertFailed             // a length byte was read from an empty buffer

  /** The states in which one byte of the length prefix is read. */
  predicate ReadsLength(st: State)
  {
    st == RcvLengthHigh || st == RcvLengthLow
  }

  /**
   One pass of the `switch` in `ingestion_process`. The high byte arms the timeout, the
   low byte completes `expected_size`, and a complete payload goes to the observer and
   cancels the timeout.

   As written, the payload is claimed zero-copy from where the previous unfinished claim
   stopped. A claim of exactly `expected_size` bytes is delivered and finished, which
   releases `expected_size` bytes from the read index: when an earlier short claim is
   outstanding, the bytes the observer sees are not the ones released.
   */
  function Step(v: Variant, s: Session): (r: StepResult)
    requires s.Valid()
    ensures r.AssertFailed? <==> v == AsWritten && ReadsLength(s.state) && s.rb.data == []
    ensures r.Advanced? <==>
              || (ReadsLength(s.state) && s.rb.data != [])
              || (s.state == RcvData && v == Corrected && s.expectedSize <= |s.rb.data|)
              || (s.state == RcvData && v == AsWritten
                  && s.expectedSize <= |s.rb.data| - s.rb.claimed
                  && RingBuffer.ClaimStart(s.rb) + s.expectedSize <= PACKET_MAX_SIZE)
    ensures r.Claimed? ==> v == AsWritten && s.state == RcvData
    ensures r.Advanced? && r.packet.Some? ==> |r.packet.value| <= PACKET_MAX_SIZE
    ensures r.Claimed? ==> r.next == s.(rb := s.rb.(claimed := r.next.rb.claimed)) && r.next.Valid()
    ensures r.Claimed? ==> s.rb.claimed < r.next.rb.claimed < s.rb.claimed + s.expectedSize
    ensures r.Stuck? && v == AsWritten && s.state == RcvData ==>
              s.rb.claimed == |s.rb.data| && 0 < s.expectedSize
    ensures r.Advanced? ==> r.next.Valid() && r.next.state == Succ(s.state)
    ensures r.Advanced? ==> r.next.observer == s.observer && r.next.bytesRead == s.bytesRead
    ensures r.Advanced? ==> r.next.pending == s.pending
    ensures r.Advanced? && s.state == RcvLengthHigh ==>
              && r.packet == None && r.next.armed
              && r.next.rb.data == s.rb.data[1..]
              && r.next.expectedSize == s.rb.data[0] as int * 256
    ensures r.Advanced? && s.state == RcvLengthLow ==>
              && r.packet == None && r.next.armed == s.armed
              && r.next.rb.data == s.rb.data[1..]
              && r.next.expectedSize == (s.expectedSize as int + s.rb.data[0] as int) % 0x1_0000
    ensures r.Advanced? && s.state == RcvData ==>
              && !r.next.armed && r.next.rb.claimed == 0
              && r.next.rb.data == s.rb.data[s.expectedSize..]
              && r.next.expectedSize == s.expectedSize
    ensures r.Advanced? && s.state == RcvData && v == Corrected ==>
              r.packet == Some(s.rb.data[..s.expectedSize])
    ensures r.Advanced? && s.state == RcvData && v == AsWritten ==>
              r.packet == Some(s.rb.data[s.rb.claimed..s.rb.claimed + s.expectedSize])
  {
    match s.state
    case RcvLengthHigh => ReadHigh(v, s)
    case RcvLengthLow => ReadLow(v, s)
    case RcvData => if v == AsWritten then ClaimPayload(s) else assert v == Corrected; CopyPayload(s)
    case Parsing => Stuck
  }

  /** The read position of `after` is one slot past that of `before`, with no claim outstanding. */
  predicate OneByteOn(before: RingBuffer.RingBuf, after: RingBuffer.RingBuf)
  {
    && after.claimed == 0
    && (after.head == before.head + 1 || after.head + PACKET_MAX_SIZE == before.head + 1)
  }

  /** `RCV_LENGTH_HIGH`: one byte becomes the high byte of `expected_size`; the timeout is armed. */
  function ReadHigh(v: Variant, s: Session): (r: StepResult)
    requires s.Valid() && s.state == RcvLengthHigh
    ensures !r.Claimed?
    ensures r.AssertFailed? <==> v == AsWritten && s.rb.data == []
    ensures r.Advanced? <==> s.rb.data != []
    ensures r.Advanced? ==>
              && r.next == s.(rb := r.next.rb, expectedSize := r.next.expectedSize,
                              state := RcvLengthLow, armed := true)
              && r.next.Valid() && r.packet == None
              && r.next.rb.data == s.rb.data[1..]
              && r.next.expectedSize == s.rb.data[0] as int * 256
    ensures r.Advanced? ==> OneByteOn(s.rb, r.next.rb)
  {
    if s.rb.data == [] then (if v == AsWritten then AssertFailed else Stuck)
    else
      var (bytes, rb) := RingBuffer.Get(s.rb, 1);
      var high := bytes[0];
      Advanced(s.(rb := rb, expectedSize := (high as int * 256) % 0x1_0000, state := RcvLengthLow,
                  armed := true), None)
  }

  /** `RCV_LENGTH_LOW`: one byte is added to `expected_size`, as a `uint16_t`. */
  function ReadLow(v: Variant, s: Session): (r: StepResult)
    requires s.Valid() && s.state == RcvLengthLow
    ensures !r.Claimed?
    ensures r.AssertFailed? <==> v == AsWritten && s.rb.data == []
    ensures r.Advanced? <==> s.rb.data != []
    ensures r.Advanced? ==>
              && r.next == s.(rb := r.next.rb, expectedSize := r.next.expectedSize, state := RcvData)
              && r.next.Valid() && r.packet == None
              && r.next.rb.data == s.rb.data[1..]
              && r.next.expectedSize == (s.expectedSize as int + s.rb.data[0] as int) % 0x1_0000
    ensures r.Advanced? ==> OneByteOn(s.rb, r.next.rb)
  {
    if s.rb.data == [] then (if v == AsWritten then AssertFailed else Stuck)
    else
      var (bytes, rb) := RingBuffer.Get(s.rb, 1);
      var low := bytes[0];
      Advanced(s.(rb := rb, expectedSize := (s.expectedSize as int + low as int) % 0x1_0000,
                  state := RcvData), None)
  }

  /**
   `RCV_DATA` as written: claim `expected_size` bytes; a claim of that length goes to the
   observer and `expected_size` bytes are finished, a shorter one stays outstanding.
   */
  function ClaimPayload(s: Session): (r: StepResult)
    requires s.Valid() && s.state == RcvData
    ensures !r.AssertFailed?
    ensures r.Advanced? <==>
              && s.expectedSize <= |s.rb.data| - s.rb.claimed
              && RingBuffer.ClaimStart(s.rb) + s.expectedSize <= PACKET_MAX_SIZE
    ensures r.Advanced? ==>
              && r.next == s.(rb := r.next.rb, state := RcvLengthHigh, armed := false)
              && r.next.Valid() && r.next.rb.claimed == 0
              && r.next.rb.data == s.rb.data[s.expectedSize..]
              && r.packet == Some(s.rb.data[s.rb.claimed..s.rb.claimed + s.expectedSize])
    ensures r.Advanced? ==>
              || r.next.rb.head == s.rb.head + s.expectedSize
              || r.next.rb.head + PACKET_MAX_SIZE == s.rb.head + s.expectedSize
    ensures r.Claimed? ==>
              && r.next == s.(rb := s.rb.(claimed := r.next.rb.claimed)) && r.next.Valid()
              && s.rb.claimed < r.next.rb.claimed < s.rb.claimed + s.expectedSize
    ensures r.Claimed? ==>
              || r.next.rb.claimed == |s.rb.data|
              || RingBuffer.ClaimStart(s.rb) + (r.next.rb.claimed - s.rb.claimed) == PACKET_MAX_SIZE
    ensures r.Stuck? ==> s.rb.claimed == |s.rb.data| && 0 < s.expectedSize
  {
    var (data, claimed) := RingBuffer.Claim(s.rb, s.expectedSize);
    if |data| == s.expectedSize then
      var (_, rb) := RingBuffer.Finish(claimed, s.expectedSize);
      Advanced(s.(rb := rb, state := RcvLengthHigh, armed := false), Some(data))
    else if data == [] then Stuck
    else Claimed(s.(rb := claimed))
  }

  /**
   `RCV_DATA` in the repair: once `expected_size` bytes are buffered, give back any claim
   left outstanding and copy them out, across the end of the array if need be.
   */
  function CopyPayload(s: Session): (r: StepResult)
    requires s.Valid() && s.state == RcvData
    ensures r.Advanced? || r.Stuck?
    ensures r.Advanced? <==> s.expectedSize <= |s.rb.data|
    ensures r.Advanced? ==>
              && r.next == s.(rb := r.next.rb, state := RcvLengthHigh, armed := false)
              && r.next.Valid() && r.next.rb.claimed == 0
              && r.next.rb.data == s.rb.data[s.expectedSize..]
              && r.packet == Some(s.rb.data[..s.expectedSize])
  {
    if s.expectedSize <= |s.rb.data| then
      var (_, released) := RingBuffer.Finish(s.rb, 0);
      var (data, rb) := RingBuffer.Get(released, s.expectedSize);
      Advanced(s.(rb := rb, state := RcvLengthHigh, armed := false), Some(data))
    else Stuck
  }

  /** No packet is longer than the buffer. */
  predicate WithinCapacity(packets: seq<seq<u8>>)
  {
    forall i | 0 <= i < |packets| :: |packets[i]| <= PACKET_MAX_SIZE
  }

  /** How a run of the process loop ends. */
  datatype Exit =
    | Idle     // the loop returned
    | Spins    // the loop condition can no longer become false
    | Panics   // the assertion on a length byte failed

  datatype Drained = Drained(final: Session, packets: seq<seq<u8>>, exit: Exit)

  /** 1 while a payload is awaited: a pass that delivers one leaves this state. */
  function AwaitingPayload(s: Session): nat
  {
    if s.state == RcvData then 1 else 0
  }

  /** The unread bytes not yet claimed: a short claim takes some of them. */
  function Unclaimed(s: Session): nat
    requires s.Valid()
  {
    |s.rb.data| - s.rb.claimed
  }

  function Delivered(p: Option<seq<u8>>): seq<seq<u8>>
  {
    if p == None then [] else [p.value]
  }

  /**
   The process loop. `AsWritten` is the source's `do … while (ring_buf_size_get() != 0)`:
   a pass that changes nothing while bytes remain buffered repeats until more bytes are
   fed, and `Spins` is that exit. `Corrected` loops while a pass makes progress.
   */
  function Drain(v: Variant, s: Session): (r: Drained)
    requires s.Valid()
    ensures r.final.Valid()
    ensures r.final.observer == s.observer && r.final.bytesRead == s.bytesRead
    ensures r.final.pending == s.pending
    ensures WithinCapacity(r.packets)
    ensures s.state != Parsing ==> r.final.state != Parsing
    ensures v == AsWritten && r.exit == Idle ==> r.final.rb.data == []
    ensures r.exit == Spins ==> v == AsWritten && r.final.rb.data != [] && Step(v, r.final).Stuck?
    ensures r.exit == Panics ==> v == AsWritten && Step(v, r.final).AssertFailed?
    ensures v == Corrected ==> r.exit == Idle && Step(v, r.final).Stuck?
    ensures Step(v, s).Stuck? ==> r.final == s && r.packets == []
    decreases |s.rb.data|, AwaitingPayload(s), Unclaimed(s), 0
  {
    match Step(v, s)
    case AssertFailed => Drained(s, [], Panics)
    case Stuck => Drained(s, [], if v == AsWritten && s.rb.data != [] then Spins else Idle)
    case Claimed(next) => Drain(v, next)
    case Advanced(next, p) => Deliver(v, next, p)
  }

  /** The rest of the loop after a pass that advanced to `s` and delivered `p`, if anything. */
  function Deliver(v: Variant, s: Session, p: Option<seq<u8>>): (r: Drained)
    requires s.Valid() && (p.Some? ==> |p.value| <= PACKET_MAX_SIZE)
    ensures r.final.Valid()
    ensures r.final.observer == s.observer && r.final.bytesRead == s.bytesRead
    ensures r.final.pending == s.pending
    ensures WithinCapacity(r.packets)
    ensures s.state != Parsing ==> r.final.state != Parsing
    ensures v == AsWritten && r.exit == Idle ==> r.final.rb.data == []
    ensures r.exit == Spins ==> v == AsWritten && r.final.rb.data != [] && Step(v, r.final).Stuck?
    ensures r.exit == Panics ==> v == AsWritten && Step(v, r.final).AssertFailed?
    ensures v == Corrected ==> r.exit == Idle && Step(v, r.final).Stuck?
    decreases |s.rb.data|, AwaitingPayload(s), Unclaimed(s), 1
  {
    DeliveredWithinCapacity(p);
    if v == AsWritten && s.rb.data == [] then Drained(s, Delivered(p), Idle)
    else
      var rest := Drain(v, s);
      WithinCapacityAppend(Delivered(p), rest.packets);
      Drained(rest.final, Delivered(p) + rest.packets, rest.exit)
  }

  lemma DeliveredWithinCapacity(p: Option<seq<u8>>)
    requires p.Some? ==> |p.value| <= PACKET_MAX_SIZE
    ensures WithinCapacity(Delivered(p))
  {
  }

  lemma WithinCapacityAppend(a: seq<seq<u8>>, b: seq<seq<u8>>)
    requires WithinCapacity(a) && WithinCapacity(b)
    ensures WithinCapacity(a + b)
  {
  }

  /** `ingestion_process`, run by the work queue: the work stops being pending, then drains. */
  function Process(v: Variant, s: Session): (r: Drained)
    requires s.Valid()
    ensures r.final.Valid() && !r.final.pending
    ensures WithinCapacity(r.packets)
  {
    Drain(v, s.(pending := false))
  }
}
