/**
 What the ingestion engine delivers, measured against the reference reading of the wire
 format in `Framing`. A session's backlog is the stream it has taken in but not yet
 delivered; every pass of the process loop either leaves the reading of the backlog
 unchanged or hands out its first payload.
 */
module Reassembly {
  import opened Common
  import opened Framing
  import opened Ingestion

  /** The length bytes already taken off the stream for the frame in progress. */
  function HeaderBytes(s: Session): seq<u8>
  {
    match s.state
    case RcvLengthLow => [s.expectedSize / 256]
    case RcvData => [s.expectedSize / 256, s.expectedSize % 256]
    case _ => []
  }

  /** The stream a session holds but has not delivered. */
  function Backlog(s: Session): seq<u8>
  {
    HeaderBytes(s) + s.rb.data
  }

  /**
   The sessions the framing cycle passes through: never `Parsing`, and right after the
   high byte the low byte of `expected_size` is still zero.
   */
  predicate Consistent(s: Session)
  {
    s.Valid() && s.state != Parsing && (s.state == RcvLengthLow ==> s.expectedSize % 256 == 0)
  }

  /**
   The sessions on which the loop as written reads the wire format correctly: the buffered
   bytes do not cross the end of the backing array, so a claim stops short only at the
   last buffered byte, and any claim left outstanding covers every buffered byte.
   */
  predicate Unwrapped(s: Session)
    requires s.Valid()
  {
    && s.rb.head + |s.rb.data| <= PACKET_MAX_SIZE
    && (s.rb.claimed == 0 || s.rb.claimed == |s.rb.data|)
  }

  /** Adding the low byte to a length whose low byte is zero cannot carry or wrap. */
  lemma AddLowByte(e: u16, low: u8)
    requires e % 256 == 0
    ensures e + low < 0x1_0000
    ensures (e + low) / 256 == e / 256 && (e + low) % 256 == low
  {
    var q := e / 256;
    assert e == q * 256;
    assert q < 256;
  }

  /** Reading a length byte moves it from the buffer into the header: the backlog is unchanged. */
  lemma LengthStepKeepsBacklog(v: Variant, s: Session)
    requires Consistent(s) && ReadsLength(s.state) && s.rb.data != []
    ensures Consistent(Step(v, s).next) && Step(v, s).packet == None
    ensures Backlog(Step(v, s).next) == Backlog(s)
  {
    if s.state == RcvLengthHigh {
      HighByteKeepsBacklog(v, s);
    } else {
      LowByteKeepsBacklog(v, s);
    }
  }

  lemma HighByteKeepsBacklog(v: Variant, s: Session)
    requires Consistent(s) && s.state == RcvLengthHigh && s.rb.data != []
    ensures Consistent(Step(v, s).next) && Backlog(Step(v, s).next) == Backlog(s)
  {
    ReadHighKeepsBacklog(v, s);
    assert Step(v, s) == ReadHigh(v, s);
  }

  lemma ReadHighKeepsBacklog(v: Variant, s: Session)
    requires Consistent(s) && s.state == RcvLengthHigh && s.rb.data != []
    ensures Consistent(ReadHigh(v, s).next) && Backlog(ReadHigh(v, s).next) == Backlog(s)
  {
    var d := s.rb.data;
    assert [d[0]] + d[1..] == d;
    var next := ReadHigh(v, s).next;
    assert next.expectedSize == d[0] as int * 256;
    assert HeaderBytes(next) == [d[0]];
  }

  lemma LowByteKeepsBacklog(v: Variant, s: Session)
    requires Consistent(s) && s.state == RcvLengthLow && s.rb.data != []
    ensures Consistent(Step(v, s).next) && Backlog(Step(v, s).next) == Backlog(s)
  {
    ReadLowKeepsBacklog(v, s);
    assert Step(v, s) == ReadLow(v, s);
  }

  lemma ReadLowKeepsBacklog(v: Variant, s: Session)
    requires Consistent(s) && s.state == RcvLengthLow && s.rb.data != []
    ensures Consistent(ReadLow(v, s).next) && Backlog(ReadLow(v, s).next) == Backlog(s)
  {
    var d := s.rb.data;
    assert (HeaderBytes(s) + [d[0]]) + d[1..] == HeaderBytes(s) + d;
    AddLowByte(s.expectedSize, d[0]);
    var next := ReadLow(v, s).next;
    assert next.expectedSize == s.expectedSize + d[0];
    assert HeaderBytes(next) == HeaderBytes(s) + [d[0]];
  }

  /** A buffer behind the two header bytes of `e` starts with a frame whose payload is its first `e` bytes. */
  lemma HeaderThenPayload(e: u16, d: seq<u8>)
    requires e <= |d|
    ensures var b := [e / 256, e % 256] + d;
            HasFrame(b) && Deframe(b) == ([d[..e]] + Deframe(d[e..]).0, Deframe(d[e..]).1)
  {
    var b := [e / 256, e % 256] + d;
    assert DeclaredLength(b[0], b[1]) == e;
    assert b[2..2 + e] == d[..e];
    assert b[2 + e..] == d[e..];
  }

  /** A payload pass delivers exactly the first framed payload of the backlog. */
  lemma DataStepDeliversFirstFrame(v: Variant, s: Session)
    requires Consistent(s) && s.state == RcvData && Step(v, s).Advanced?
    requires v == Corrected || Unwrapped(s)
    ensures Consistent(Step(v, s).next)
    ensures HasFrame(Backlog(s))
    ensures Deframe(Backlog(s)) == ([Step(v, s).packet.value] + Deframe(Backlog(Step(v, s).next)).0,
                                     Deframe(Backlog(Step(v, s).next)).1)
  {
    var r := Step(v, s);
    var e := s.expectedSize;
    assert r.packet.value == s.rb.data[..e];
    HeaderThenPayload(e, s.rb.data);
    assert Backlog(s) == [e / 256, e % 256] + s.rb.data;
    assert Backlog(r.next) == s.rb.data[e..];
  }

  /** The corrected loop only stalls when the backlog holds no complete frame. */
  lemma CorrectedStallsOnlyWithoutFrame(s: Session)
    requires Consistent(s) && Step(Corrected, s).Stuck?
    ensures !HasFrame(Backlog(s))
  {
    if s.state == RcvData {
      var b := Backlog(s);
      assert |b| == 2 + |s.rb.data|;
      assert b[0] == s.expectedSize / 256 && b[1] == s.expectedSize % 256;
      assert DeclaredLength(b[0], b[1]) == s.expectedSize;
    }
  }

  /**
   One pass of the loop is faithful to the wire format: a pass that advances either
   delivers nothing and keeps the backlog, or delivers exactly the first framed payload of
   the backlog and keeps the rest.
   */
  lemma StepSound(v: Variant, s: Session)
    requires Consistent(s) && Step(v, s).Advanced?
    requires v == Corrected || Unwrapped(s)
    ensures Consistent(Step(v, s).next)
    ensures v == AsWritten ==> Unwrapped(Step(v, s).next)
    ensures Yields(Backlog(s), Delivered(Step(v, s).packet), Backlog(Step(v, s).next))
  {
    if s.state == RcvData {
      DataStepDeliversFirstFrame(v, s);
    } else {
      LengthStepKeepsBacklog(v, s);
    }
  }

  /**
   A short claim moves only the claim head: the backlog is unchanged, and on an unwrapped
   session the claim takes every buffered byte.
   */
  lemma ClaimKeepsBacklog(v: Variant, s: Session)
    requires Consistent(s) && Step(v, s).Claimed?
    ensures Consistent(Step(v, s).next) && Backlog(Step(v, s).next) == Backlog(s)
    ensures Unwrapped(s) ==> Unwrapped(Step(v, s).next)
  {
  }

  /**
   The whole loop is sound: the packets it delivers are the first payloads the backlog
   carries, in order, and the reading of what remains is unchanged.
   */
  lemma {:induction false} DrainSound(v: Variant, s: Session)
    requires Consistent(s) && (v == Corrected || Unwrapped(s))
    ensures Consistent(Drain(v, s).final)
    ensures Yields(Backlog(s), Drain(v, s).packets, Backlog(Drain(v, s).final))
    decreases |s.rb.data|, AwaitingPayload(s), Unclaimed(s), 1
  {
    if Step(v, s).Claimed? {
      ClaimedDrainSound(v, s);
    } else if Step(v, s).Advanced? {
      AdvancedDrainSound(v, s);
    } else {
      DrainStops(v, s);
    }
  }

  /** DrainSound when the first pass leaves a claim outstanding. */
  lemma {:induction false} ClaimedDrainSound(v: Variant, s: Session)
    requires Consistent(s) && (v == Corrected || Unwrapped(s)) && Step(v, s).Claimed?
    ensures Consistent(Drain(v, s).final)
    ensures Yields(Backlog(s), Drain(v, s).packets, Backlog(Drain(v, s).final))
    decreases |s.rb.data|, AwaitingPayload(s), Unclaimed(s), 0
  {
    ClaimKeepsBacklog(v, s);
    DrainSound(v, Step(v, s).next);
    ClaimThenDrain(v, s);
  }

  /** DrainSound when the first pass advances the state machine. */
  lemma {:induction false} AdvancedDrainSound(v: Variant, s: Session)
    requires Consistent(s) && (v == Corrected || Unwrapped(s)) && Step(v, s).Advanced?
    ensures Consistent(Drain(v, s).final)
    ensures Yields(Backlog(s), Drain(v, s).packets, Backlog(Drain(v, s).final))
    decreases |s.rb.data|, AwaitingPayload(s), Unclaimed(s), 0
  {
    var r := Step(v, s);
    StepSound(v, s);
    if v == AsWritten && r.next.rb.data == [] {
      LastDelivery(s);
    } else {
      DrainSound(v, r.next);
      DeliverThenDrain(v, s);
    }
  }

  /** A pass that changes nothing ends the run with nothing delivered. */
  lemma DrainStops(v: Variant, s: Session)
    requires s.Valid() && (Step(v, s).Stuck? || Step(v, s).AssertFailed?)
    ensures Drain(v, s).final == s && Drain(v, s).packets == []
  {
  }

  /** After a short claim the run goes on from the session with the claim outstanding. */
  lemma ClaimThenDrain(v: Variant, s: Session)
    requires s.Valid() && Step(v, s).Claimed?
    ensures Drain(v, s) == Drain(v, Step(v, s).next)
  {
  }

  /** As written, a pass that empties the buffer is the last one. */
  lemma LastDelivery(s: Session)
    requires s.Valid() && Step(AsWritten, s).Advanced? && Step(AsWritten, s).next.rb.data == []
    ensures Drain(AsWritten, s).final == Step(AsWritten, s).next
    ensures Drain(AsWritten, s).packets == Delivered(Step(AsWritten, s).packet)
  {
  }

  /** A delivering pass followed by a sound run of the rest of the loop is a sound run. */
  lemma DeliverThenDrain(v: Variant, s: Session)
    requires s.Valid() && Step(v, s).Advanced? && !(v == AsWritten && Step(v, s).next.rb.data == [])
    requires Yields(Backlog(s), Delivered(Step(v, s).packet), Backlog(Step(v, s).next))
    requires var rest := Drain(v, Step(v, s).next);
             Yields(Backlog(Step(v, s).next), rest.packets, Backlog(rest.final))
    ensures Drain(v, s).final == Drain(v, Step(v, s).next).final
    ensures Yields(Backlog(s), Drain(v, s).packets, Backlog(Drain(v, s).final))
  {
    var r := Step(v, s);
    var rest := Drain(v, r.next);
    assert Drain(v, s) == Drained(rest.final, Delivered(r.packet) + rest.packets, rest.exit);
    YieldsTransitive(Backlog(s), Delivered(r.packet), Backlog(r.next), rest.packets, Backlog(rest.final));
  }

  /**
   The corrected loop is also complete: it delivers every payload the backlog carries and
   keeps exactly the incomplete tail.
   */
  lemma CorrectedDrainComplete(s: Session)
    requires Consistent(s)
    ensures Drain(Corrected, s).packets == Deframe(Backlog(s)).0
    ensures Backlog(Drain(Corrected, s).final) == Deframe(Backlog(s)).1
  {
    DrainSound(Corrected, s);
    var f := Drain(Corrected, s).final;
    CorrectedStallsOnlyWithoutFrame(f);
    assert Deframe(Backlog(f)) == ([], Backlog(f));
  }

  /** A session waiting for a length, with exactly `bytes` buffered. */
  predicate Holding(s: Session, bytes: seq<u8>)
  {
    Consistent(s) && s.state == RcvLengthHigh && s.rb.data == bytes
  }

  /** A session between packets: waiting for a length with nothing buffered. */
  predicate AwaitingFrame(s: Session)
  {
    Holding(s, [])
  }

  /**
   Reading the two length bytes, high byte first, leaves the big-endian length in
   `expected_size`, the session waiting for the payload and the timeout armed.
   */
  lemma LengthAssembly(v: Variant, s: Session)
    requires s.Valid() && s.state == RcvLengthHigh && |s.rb.data| >= 2
    ensures Step(v, s).Advanced? && Step(v, Step(v, s).next).Advanced?
    ensures var t := Step(v, Step(v, s).next).next;
            && t.state == RcvData && t.armed
            && t.expectedSize == s.rb.data[0] as int * 256 + s.rb.data[1] as int
            && t.rb.data == s.rb.data[2..] && t.rb.claimed == 0
            && (t.rb.head == s.rb.head + 2 || t.rb.head + PACKET_MAX_SIZE == s.rb.head + 2)
  {
    assert Step(v, s) == ReadHigh(v, s);
    var s2 := Step(v, s).next;
    assert Step(v, s2) == ReadLow(v, s2);
    assert s2.rb.data == s.rb.data[1..];
    AddLowByte(s2.expectedSize, s2.rb.data[0]);
  }

  /**
   The loop as written delivers a frame buffered whole in a waiting session when its
   payload is not empty and does not cross the end of the backing array.
   */
  lemma AsWrittenDeliversContiguousFrame(s: Session, p: seq<u8>)
    requires 0 < |p| < 0x1_0000 && Holding(s, Frame(p)) && s.rb.head + 2 + |p| <= PACKET_MAX_SIZE
    ensures var r := Drain(AsWritten, s);
            && r.packets == [p] && r.exit == Idle
            && AwaitingFrame(r.final) && !r.final.armed
            && r.final.rb.head
                 == if s.rb.head + 2 + |p| == PACKET_MAX_SIZE then 0 else s.rb.head + 2 + |p|
  {
    assert p[0..|p|] == p;
    LengthAssembly(AsWritten, s);
    LengthThenDrain(AsWritten, s);
    var s3 := Step(AsWritten, Step(AsWritten, s).next).next;
    assert s3.rb.data == p && s3.expectedSize == |p| && s3.rb.head == s.rb.head + 2;
    ContiguousClaim(s3);
    LastDelivery(s3);
  }

  /**
   As written, a payload pass with nothing claimed whose `expected_size` bytes are all
   buffered before the end of the backing array delivers them and moves the read
   position past them.
   */
  lemma ContiguousClaim(s: Session)
    requires s.Valid() && s.state == RcvData && s.rb.claimed == 0
    requires s.expectedSize <= |s.rb.data| && s.rb.head + s.expectedSize <= PACKET_MAX_SIZE
    ensures Step(AsWritten, s).Advanced?
    ensures Step(AsWritten, s).packet == Some(s.rb.data[..s.expectedSize])
    ensures var n := Step(AsWritten, s).next;
            && n.state == RcvLengthHigh && n.rb.claimed == 0 && !n.armed
            && n.rb.data == s.rb.data[s.expectedSize..]
            && n.rb.head
                 == if s.rb.head + s.expectedSize == PACKET_MAX_SIZE then 0 else s.rb.head + s.expectedSize
  {
    assert RingBuffer.ClaimStart(s.rb) == s.rb.head;
    assert Step(AsWritten, s) == ClaimPayload(s);
  }


  /** A pass that delivers nothing and leaves bytes to read hands the run on unchanged. */
  lemma SilentStep(v: Variant, s: Session)
    requires s.Valid() && Step(v, s).Advanced? && Step(v, s).packet == None
    requires v == Corrected || Step(v, s).next.rb.data != []
    ensures Drain(v, s) == Drain(v, Step(v, s).next)
  {
    NothingDelivered(v, Step(v, s).next);
    assert Drain(v, s) == Deliver(v, Step(v, s).next, None);
  }

  /** When a pass delivers nothing and the loop goes on, the run is the run of the rest. */
  lemma NothingDelivered(v: Variant, s: Session)
    requires s.Valid() && (v == Corrected || s.rb.data != [])
    ensures Deliver(v, s, None) == Drain(v, s)
  {
    var rest := Drain(v, s);
    assert Delivered(None) + rest.packets == rest.packets;
  }

  /** Reading a length that leaves payload bytes buffered hands the run on to the payload. */
  lemma LengthThenDrain(v: Variant, s: Session)
    requires s.Valid() && s.state == RcvLengthHigh && |s.rb.data| > 2
    ensures Drain(v, s) == Drain(v, Step(v, Step(v, s).next).next)
  {
    LengthAssembly(v, s);
    SilentStep(v, Step(v, s).next);
    SilentStep(v, s);
  }

  /**
   As written, a payload pass whose claim would cross the end of the backing array claims
   up to that end and no further.
   */
  lemma ClaimStopsAtArrayEnd(s: Session)
    requires s.Valid() && s.state == RcvData && s.rb.claimed == 0
    requires s.rb.head + s.expectedSize > PACKET_MAX_SIZE
    requires PACKET_MAX_SIZE - s.rb.head <= |s.rb.data|
    ensures Step(AsWritten, s).Claimed?
    ensures Step(AsWritten, s).next == s.(rb := s.rb.(claimed := PACKET_MAX_SIZE - s.rb.head))
  {
    assert RingBuffer.ClaimStart(s.rb) == s.rb.head;
  }

  /**
   As written, a payload pass whose claim head sits at the start of the backing array,
   with `expected_size` bytes past it, delivers those bytes and releases `expected_size`
   bytes from the read position, not the ones delivered.
   */
  lemma ClaimFromArrayStart(s: Session)
    requires s.Valid() && s.state == RcvData && s.rb.head + s.rb.claimed == PACKET_MAX_SIZE
    requires s.rb.claimed + s.expectedSize <= |s.rb.data|
    ensures Step(AsWritten, s).Advanced?
    ensures Step(AsWritten, s).packet == Some(s.rb.data[s.rb.claimed..s.rb.claimed + s.expectedSize])
    ensures var n := Step(AsWritten, s).next;
            && n.state == RcvLengthHigh && n.rb.claimed == 0
            && n.rb.data == s.rb.data[s.expectedSize..]
            && (n.rb.head == s.rb.head + s.expectedSize
                || n.rb.head + PACKET_MAX_SIZE == s.rb.head + s.expectedSize)
  {
    assert RingBuffer.ClaimStart(s.rb) == 0;
  }

  /** A delivering pass that leaves bytes to read puts its packet ahead of the rest of the run. */
  lemma DeliverThenRest(s: Session)
    requires s.Valid() && Step(AsWritten, s).Advanced? && Step(AsWritten, s).packet.Some?
    requires Step(AsWritten, s).next.rb.data != []
    ensures var r := Step(AsWritten, s);
            var rest := Drain(AsWritten, r.next);
            Drain(AsWritten, s) == Drained(rest.final, [r.packet.value] + rest.packets, rest.exit)
  {
  }

  /**
   Once a payload pass as written finds fewer than `expected_size` bytes past the claim
   head, every later pass claims further or finds nothing: until more bytes are fed, the
   loop does not return, and it is left with every buffered byte claimed.
   */
  lemma {:induction false} ShortClaimsSpin(s: Session)
    requires s.Valid() && s.state == RcvData && s.rb.data != []
    requires |s.rb.data| - s.rb.claimed < s.expectedSize
    ensures Drain(AsWritten, s) == Drained(s.(rb := s.rb.(claimed := |s.rb.data|)), [], Spins)
    decreases Unclaimed(s)
  {
    var r := Step(AsWritten, s);
    if s.rb.claimed == |s.rb.data| {
      assert r.Stuck?;
    } else {
      assert r.Claimed?;
      ShortClaimsSpin(r.next);
    }
  }

  /**
   The loop as written spins once a payload pass finds some, but not all, of the payload
   claimable: here only the first `k` payload bytes arrived with the length.
   */
  lemma AsWrittenSpinsOnPartialPayload(s: Session, p: seq<u8>, k: nat)
    requires 0 < k < |p| < 0x1_0000 && Holding(s, Frame(p)[..k + 2])
    ensures var r := Drain(AsWritten, s);
            r.packets == [] && r.exit == Spins
  {
    var f := Frame(p);
    assert f[..k + 2][2..] == p[..k];
    assert f[..k + 2][0] as int * 256 + f[..k + 2][1] as int == |p|;
    LengthAssembly(AsWritten, s);
    LengthThenDrain(AsWritten, s);
    var s3 := Step(AsWritten, Step(AsWritten, s).next).next;
    assert s3.rb.data == p[..k] && s3.expectedSize == |p| && s3.rb.claimed == 0;
    ShortClaimsSpin(s3);
  }

  /**
   The loop as written spins when the one frame buffered has a payload crossing the end
   of the backing array: the first claim stops at the end of the array and the second
   finds the rest of the payload but nothing more.
   */
  lemma AsWrittenSpinsOnWrappedPayload(s: Session, p: seq<u8>)
    requires |p| < 0x1_0000 && Holding(s, Frame(p))
    requires s.rb.head + 2 < PACKET_MAX_SIZE < s.rb.head + 2 + |p|
    ensures var r := Drain(AsWritten, s);
            r.packets == [] && r.exit == Spins
  {
    LengthAssembly(AsWritten, s);
    LengthThenDrain(AsWritten, s);
    var s3 := Step(AsWritten, Step(AsWritten, s).next).next;
    assert s3.rb.data == p && s3.expectedSize == |p| && s3.rb.claimed == 0;
    assert s3.rb.head == s.rb.head + 2;
    ClaimStopsAtArrayEnd(s3);
    ClaimThenDrain(AsWritten, s3);
    ShortClaimsSpin(Step(AsWritten, s3).next);
  }

  /**
   The loop as written misreads a frame whose payload crosses the end of the backing array
   when enough bytes follow it: the first claim stops at the end of the array, `k` bytes
   in; the second restarts at the claim head, past the bytes already claimed, and it is
   the `e` bytes from there that are delivered, `k` positions too far on. The release then
   moves the read position by `e` only, so the reading goes on from the byte after the
   frame, in a session `t` waiting for a length.
   */
  lemma AsWrittenMisreadsWrappedPayload(s: Session, bytes: seq<u8>) returns (t: Session, e: nat, k: nat)
    requires Holding(s, bytes) && 2 <= |bytes|
    requires 0 < PACKET_MAX_SIZE - (s.rb.head + 2) < bytes[0] as int * 256 + bytes[1] as int
    requires PACKET_MAX_SIZE + bytes[0] as int * 256 + bytes[1] as int <= |bytes| + s.rb.head
    ensures e == bytes[0] as int * 256 + bytes[1] as int && k == PACKET_MAX_SIZE - (s.rb.head + 2)
    ensures 2 + k + e <= |bytes|
    ensures Holding(t, bytes[2 + e..]) && t.rb.head + PACKET_MAX_SIZE == s.rb.head + 2 + e
    ensures Drain(AsWritten, s).packets == [bytes[2 + k..2 + k + e]] + Drain(AsWritten, t).packets
    ensures Drain(AsWritten, s).final == Drain(AsWritten, t).final
    ensures Drain(AsWritten, s).exit == Drain(AsWritten, t).exit
  {
    e := bytes[0] as int * 256 + bytes[1] as int;
    k := PACKET_MAX_SIZE - (s.rb.head + 2);
    var q := bytes[2..];
    SlicesOfTail(bytes, k, e);
    LengthAssembly(AsWritten, s);
    LengthThenDrain(AsWritten, s);
    var s3 := Step(AsWritten, Step(AsWritten, s).next).next;
    assert s3.rb.data == q && s3.expectedSize == e && s3.rb.claimed == 0;
    assert s3.rb.head == s.rb.head + 2;
    t := WrappedClaimMisreads(s3, q, e, k);
  }

  /** Slicing the bytes after a two-byte length is slicing the whole two positions on. */
  lemma SlicesOfTail(bytes: seq<u8>, k: nat, e: nat)
    requires 2 + k + e <= |bytes|
    ensures bytes[2..][k..k + e] == bytes[2 + k..2 + k + e]
    ensures bytes[2..][e..] == bytes[2 + e..]
  {
  }

  /**
   The payload pass as written, on a payload crossing the end of the backing array with
   at least as many bytes buffered behind it as fit before that end: it delivers the
   `expected_size` bytes that start `k` positions on, and the session waits for a length.
   */
  lemma WrappedClaimMisreads(s: Session, q: seq<u8>, e: nat, k: nat) returns (t: Session)
    requires Consistent(s) && s.state == RcvData && s.rb.claimed == 0
    requires s.rb.data == q && s.expectedSize == e && k == PACKET_MAX_SIZE - s.rb.head
    requires k < e && k + e <= |q|
    ensures Holding(t, q[e..]) && t.rb.head + k == e
    ensures Drain(AsWritten, s).packets == [q[k..k + e]] + Drain(AsWritten, t).packets
    ensures Drain(AsWritten, s).final == Drain(AsWritten, t).final
    ensures Drain(AsWritten, s).exit == Drain(AsWritten, t).exit
  {
    ClaimStopsAtArrayEnd(s);
    ClaimThenDrain(AsWritten, s);
    var s4 := Step(AsWritten, s).next;
    assert s4.rb.data == q && s4.rb.claimed == k && s4.expectedSize == e;
    ClaimFromArrayStart(s4);
    var misread := Step(AsWritten, s4).packet.value;
    assert misread == q[k..k + e];
    t := Step(AsWritten, s4).next;
    assert t.rb.data == q[e..] != [];
    DeliverThenRest(s4);
    assert Drain(AsWritten, s4).packets == [misread] + Drain(AsWritten, t).packets;
  }

  /**
   An instance of the misreading: behind a length of 4 at offset 1020 the payload
   `[1, 2, 3, 4]` crosses the end of the array and a second frame `[9]` follows; the loop
   as written delivers `[3, 4, 0, 1]` and then `[9]`, and returns.
   */
  lemma AsWrittenMisreadsWrappedFrame(s: Session)
    requires Holding(s, [0, 4, 1, 2, 3, 4, 0, 1, 9]) && s.rb.head == 1020
    ensures var r := Drain(AsWritten, s);
            r.packets == [[3, 4, 0, 1], [9]] && r.exit == Idle && AwaitingFrame(r.final)
  {
    var packets: seq<seq<u8>> := [[3, 4, 0, 1]] + [[9]];
    assert packets == [[3, 4, 0, 1], [9]];
    var t := MisreadFirstFrame(s);
    AsWrittenDeliversContiguousFrame(t, [9]);
  }

  /** The first frame of the instance above, misread; the second is left waiting at offset 2. */
  lemma MisreadFirstFrame(s: Session) returns (t: Session)
    requires Holding(s, [0, 4, 1, 2, 3, 4, 0, 1, 9]) && s.rb.head == 1020
    ensures Holding(t, Frame([9])) && t.rb.head == 2
    ensures Drain(AsWritten, s).packets == [[3, 4, 0, 1]] + Drain(AsWritten, t).packets
    ensures Drain(AsWritten, s).final == Drain(AsWritten, t).final
    ensures Drain(AsWritten, s).exit == Drain(AsWritten, t).exit
  {
    var bytes: seq<u8> := [0, 4, 1, 2, 3, 4, 0, 1, 9];
    assert bytes[4..8] == [3, 4, 0, 1];
    assert bytes[6..] == Frame([9]);
    var e, k;
    t, e, k := AsWrittenMisreadsWrappedPayload(s, bytes);
  }



  /**
   A zero-length frame is read by the loop as written only up to its length: the loop
   returns with the empty payload owed, and hands it out on its next run.
   */
  lemma AsWrittenDefersEmptyPayload(s: Session)
    requires Holding(s, [0, 0])
    ensures var r := Drain(AsWritten, s);
            && r.packets == [] && r.exit == Idle
            && r.final.state == RcvData && r.final.expectedSize == 0 && r.final.rb.data == []
            && r.final.armed
            && Drain(AsWritten, r.final).packets == [[]]
    ensures Drain(Corrected, s).packets == [[]]
  {
    AsWrittenStopsAfterEmptyLength(s);
    CorrectedReadsEmptyFrame(s);
  }

  lemma AsWrittenStopsAfterEmptyLength(s: Session)
    requires Holding(s, [0, 0])
    ensures var r := Drain(AsWritten, s);
            && r.packets == [] && r.exit == Idle
            && r.final.state == RcvData && r.final.expectedSize == 0 && r.final.rb.data == []
            && r.final.armed
            && Drain(AsWritten, r.final).packets == [[]]
  {
    var none: seq<seq<u8>> := [];
    assert none + none == none;
    LengthAssembly(AsWritten, s);
    var s2 := Step(AsWritten, s).next;
    var s3 := Step(AsWritten, s2).next;
    assert s3.expectedSize == 0 && s3.rb.data == [] && s3.rb.claimed == 0;
    assert Drain(AsWritten, s2) == Drained(s3, [], Idle);
    assert Drain(AsWritten, s) == Drained(s3, [], Idle);
    var s4 := Step(AsWritten, s3).next;
    assert Drain(AsWritten, s3) == Drained(s4, [[]], Idle);
  }

  lemma CorrectedReadsEmptyFrame(s: Session)
    requires Holding(s, [0, 0])
    ensures Drain(Corrected, s).packets == [[]]
  {
    var none: seq<seq<u8>> := [];
    var empty: seq<seq<u8>> := [[]];
    assert empty + none == empty;
    LengthAssembly(Corrected, s);
    var c2 := Step(Corrected, s).next;
    SilentStep(Corrected, s);
    SilentStep(Corrected, c2);
    var c3 := Step(Corrected, c2).next;
    assert c3.expectedSize == 0 && c3.rb.data == [];
    var c4 := Step(Corrected, c3).next;
    assert Step(Corrected, c4).Stuck?;
    assert Drain(Corrected, c3) == Drained(c4, [[]], Idle);
  }


}
