/**
 The inputs on which the process loop as written departs from what the engine is for,
 each shown on a timeline from a fresh session, next to the corrected loop on the same
 timeline.
 */
module Findings {
  import opened Common
  import opened Framing
  import opened Ingestion
  import opened Reassembly
  import opened Timeline
  import opened Scenarios

  /**
   As written, a frame whose payload has only partly arrived when the work runs leaves
   the loop spinning: until more bytes are fed, nothing else runs on the work queue, so
   the timeout cannot clear the partial frame, and nothing changes.
   */
  lemma PartialHangs(m: Machine, high: u8, low: u8, part: seq<u8>, later: seq<Event>)
    requires AwaitingFrame(m.session) && m.worker == Running && !m.session.pending
    requires part != [] && |part| < high as int * 256 + low as int && 2 + |part| <= PACKET_MAX_SIZE
    requires NoFeed(later)
    ensures var first := Run(AsWritten, m, [Feed([high, low] + part), Process]);
            var r := Run(AsWritten, m, [Feed([high, low] + part), Process] + later);
            && r.1 == [] && r.0.worker == Hung && r.0 == first.0
            && r.0.session.state == RcvData && r.0.session.rb.data == part
  {
    var bytes := [high, low] + part;
    FeedThenProcess(AsWritten, m, bytes);
    PartialFrame(AsWritten, Ingestion.Feed(m.session, bytes).1.(pending := false), high, low, part);
    RunAppend(AsWritten, m, [Feed(bytes), Process], later);
  }

  /**
   The length and one byte of a 2-byte payload, processed, then the timeout expiring: as
   written, the loop spins and the timeout does not run, so the partial frame stays.
   */
  lemma PartialPayloadHangs(o: Observer)
    ensures var r := Run(AsWritten, Fresh(o), [Feed([0, 2, 1]), Process, TimeoutFire]);
            && r.1 == [] && r.0.worker == Hung
            && r.0.session.state == RcvData && r.0.session.rb.data == [1]
  {
    assert [0, 2, 1] == [0, 2] + [1];
    var later := [TimeoutFire];
    assert NoFeed(later);
    PartialHangs(Fresh(o), 0, 2, [1], later);
    assert [Feed([0, 2, 1]), Process] + later == [Feed([0, 2, 1]), Process, TimeoutFire];
  }

  /** The session the spin of `PartialPayloadHangs` leaves: the payload byte `[1]` claimed. */
  lemma SpunOnPartial(o: Observer) returns (m1: Machine)
    ensures m1 == Run(AsWritten, Fresh(o), [Feed([0, 2, 1]), Process]).0
    ensures Run(AsWritten, Fresh(o), [Feed([0, 2, 1]), Process]).1 == []
    ensures m1.worker == Hung && m1.session.Valid() && m1.session.armed
    ensures m1.session.state == RcvData && m1.session.expectedSize == 2
    ensures m1.session.rb.data == [1] && m1.session.rb.claimed == 1 && m1.session.rb.head == 2
  {
    var m := Fresh(o);
    var bytes: seq<u8> := [0, 2, 1];
    assert bytes == [0, 2] + [1];
    FeedThenProcess(AsWritten, m, bytes);
    var s := Ingestion.Feed(m.session, bytes).1.(pending := false);
    PartialFrame(AsWritten, s, 0, 2, [1]);
    var d := Drain(AsWritten, s);
    m1 := Machine(d.final, Hung);
  }

  /**
   As written, the frame `[0, 1, 0]` fed into the spin of `SpunOnPartial`: the next claim
   continues after the claimed `[1]` and takes the resent frame's length bytes `[0, 1]`
   as the payload; the release drops `[1, 0]` from the read index, and the remaining
   `[1, 0]` is read as a length of 256.
   */
  lemma ResumedClaim(s: Session)
    requires s.Valid() && s.state == RcvData && s.expectedSize == 2
    requires s.rb.data == [1, 0, 1, 0] && s.rb.claimed == 1 && s.rb.head == 2
    ensures var r := Drain(AsWritten, s);
            && r.packets == [[0, 1]] && r.exit == Idle && r.final.pending == s.pending
            && r.final.state == RcvData && r.final.expectedSize == 256
            && r.final.rb.data == [] && r.final.rb.claimed == 0 && r.final.armed
  {
    ResumedStep(s);
    LengthAloneReturns(Step(AsWritten, s).next);
    DeliverThenRest(s);
  }

  /** The first pass of `ResumedClaim`: the claim of `[0, 1]` and its release. */
  lemma ResumedStep(s: Session)
    requires s.Valid() && s.state == RcvData && s.expectedSize == 2
    requires s.rb.data == [1, 0, 1, 0] && s.rb.claimed == 1 && s.rb.head == 2
    ensures Step(AsWritten, s).Advanced? && Step(AsWritten, s).packet == Some([0, 1])
    ensures var next := Step(AsWritten, s).next;
            && next.Valid() && next.state == RcvLengthHigh && next.pending == s.pending
            && next.rb.data == [1, 0]
  {
    assert s.rb.data[1..3] == [0, 1] && s.rb.data[2..] == [1, 0];
    assert RingBuffer.ClaimStart(s.rb) == 3;
    assert Step(AsWritten, s) == ClaimPayload(s);
  }

  /** As written, a waiting session holding just two length bytes reads them and returns. */
  lemma LengthAloneReturns(s: Session)
    requires s.Valid() && s.state == RcvLengthHigh && |s.rb.data| == 2
    ensures var r := Drain(AsWritten, s);
            && r.packets == [] && r.exit == Idle && r.final.pending == s.pending
            && r.final.state == RcvData && r.final.armed
            && r.final.expectedSize == s.rb.data[0] as int * 256 + s.rb.data[1] as int
            && r.final.rb.data == [] && r.final.rb.claimed == 0
  {
    LengthAssembly(AsWritten, s);
    SilentStep(AsWritten, s);
    var n1 := Step(AsWritten, s).next;
    var t := Step(AsWritten, n1).next;
    assert t.rb.data == [] && t.pending == s.pending;
    assert Drain(AsWritten, n1) == Deliver(AsWritten, t, None);
  }


  /**
   Finding: the length and one byte of a 2-byte payload, then the timeout, then a frame
   sent again. As written, the loop spins on the partial payload, so the timeout does not
   run; the resent bytes are claimed by the spinning loop after the byte it holds, and the
   observer receives the resent frame's length bytes `[0, 1]` as a packet. The session is
   then left waiting for a 256-byte payload, with the timeout armed.
   */
  lemma PartialPayloadMisread(o: Observer)
    ensures var r := Run(AsWritten, Fresh(o), [Feed([0, 2, 1]), Process, TimeoutFire, Feed([0, 1, 0]), Process]);
            && r.1 == [[0, 1]] && r.0.worker == Running
            && r.0.session.state == RcvData && r.0.session.expectedSize == 256
            && r.0.session.rb.data == [] && r.0.session.armed
  {
    var tail := [TimeoutFire, Feed([0, 1, 0]), Process];
    var events := [Feed([0, 2, 1]), Process] + tail;
    assert events == [Feed([0, 2, 1]), Process, TimeoutFire, Feed([0, 1, 0]), Process];
    var m1 := SpunOnPartial(o);
    ResentIntoSpin(m1);
    RunAppend(AsWritten, Fresh(o), [Feed([0, 2, 1]), Process], tail);
  }

  /** The rest of `PartialPayloadMisread`'s timeline, from the spin `SpunOnPartial` leaves. */
  lemma ResentIntoSpin(m1: Machine)
    requires m1.worker == Hung && m1.session.Valid() && m1.session.armed
    requires m1.session.state == RcvData && m1.session.expectedSize == 2
    requires m1.session.rb.data == [1] && m1.session.rb.claimed == 1 && m1.session.rb.head == 2
    ensures var r := Run(AsWritten, m1, [TimeoutFire, Feed([0, 1, 0]), Process]);
            && r.1 == [[0, 1]] && r.0.worker == Running
            && r.0.session.state == RcvData && r.0.session.expectedSize == 256
            && r.0.session.rb.data == [] && r.0.session.armed
  {
    var again: seq<u8> := [0, 1, 0];
    var tail := [TimeoutFire, Feed(again), Process];
    assert tail[1..] == [Feed(again), Process];
    var m2 := FeedIntoSpin(m1);
    var s3 := m2.session.(pending := false);
    assert Step(AsWritten, s3).Stuck?;
    assert Apply(AsWritten, m2, Process) == (m2.(session := s3), []);
    RunTwo(AsWritten, m1, Feed(again), Process);
    assert Apply(AsWritten, m1, TimeoutFire) == (m1, []);
  }

  /** The feed of `[0, 1, 0]` into the spin: the loop resumes, misreads and returns. */
  lemma FeedIntoSpin(m1: Machine) returns (m2: Machine)
    requires m1.worker == Hung && m1.session.Valid() && m1.session.armed
    requires m1.session.state == RcvData && m1.session.expectedSize == 2
    requires m1.session.rb.data == [1] && m1.session.rb.claimed == 1 && m1.session.rb.head == 2
    ensures Apply(AsWritten, m1, Feed([0, 1, 0])) == (m2, [[0, 1]])
    ensures m2.worker == Running && m2.session.Valid() && m2.session.pending
    ensures m2.session.state == RcvData && m2.session.expectedSize == 256
    ensures m2.session.rb.data == [] && m2.session.rb.claimed == 0 && m2.session.armed
  {
    var again: seq<u8> := [0, 1, 0];
    assert again[..|again| % 0x1_0000] == again;
    var s2 := Ingestion.Feed(m1.session, again).1;
    assert s2.rb.data == [1, 0, 1, 0];
    ResumedClaim(s2);
    var d := Drain(AsWritten, s2);
    m2 := Machine(d.final, Running);
  }

  /**
   The corrected loop on the same timeline waits, the timeout clears the partial frame,
   and the frame sent again arrives.
   */
  lemma PartialPayloadResent(o: Observer)
    ensures var r := Run(Corrected, Fresh(o), [Feed([0, 2, 1]), Process, TimeoutFire, Feed([0, 1, 0]), Process]);
            r.1 == [[0]] && r.0.worker == Running && AwaitingFrame(r.0.session)
  {
    assert [0, 2, 1] == [0, 2] + [1];
    assert Frame([0]) == [0, 1, 0];
    PartialThenResend(Corrected, Fresh(o), 0, 2, [1], [0]);
  }

  /**
   As written, a frame followed by a second frame whose length bytes are the last two of
   the backing array: the first payload is delivered, then the loop spins on the second.
   */
  lemma WrapHangs(m: Machine, p: seq<u8>, q: seq<u8>)
    requires AwaitingFrame(m.session) && m.worker == Running && !m.session.pending
    requires m.session.rb.head == 0 && 0 < |p| && |q| < 0x1_0000
    requires |p| + 4 < PACKET_MAX_SIZE < |p| + 4 + |q| && 2 + |q| <= PACKET_MAX_SIZE
    ensures var r := Run(AsWritten, m, FeedEach([Frame(p), Frame(q)]));
            r.1 == [p] && r.0.worker == Hung
  {
    FeedEachFirst(AsWritten, m, [Frame(p), Frame(q)]);
    WholeFrame(AsWritten, m, p);
    assert [Frame(p), Frame(q)][1..] == [Frame(q)];
    assert FeedEach([Frame(q)]) == [Feed(Frame(q)), Process];
    var m1 := Run(AsWritten, m, [Feed(Frame(p)), Process]).0;
    WrappedFrameHangs(m1, q);
  }

  /**
   As written, a waiting session fed a whole frame whose payload crosses the end of the
   backing array delivers nothing and spins in the loop.
   */
  lemma WrappedFrameHangs(m: Machine, q: seq<u8>)
    requires AwaitingFrame(m.session) && m.worker == Running && !m.session.pending
    requires |q| < 0x1_0000 && 2 + |q| <= PACKET_MAX_SIZE
    requires m.session.rb.head + 2 < PACKET_MAX_SIZE < m.session.rb.head + 2 + |q|
    ensures var r := Run(AsWritten, m, [Feed(Frame(q)), Process]);
            r.1 == [] && r.0.worker == Hung
  {
    FeedThenProcess(AsWritten, m, Frame(q));
    AsWrittenSpinsOnWrappedPayload(Ingestion.Feed(m.session, Frame(q)).1.(pending := false), q);
  }

  /** A frame, then any chunk that fits in the buffer on its own: each fits in turn. */
  lemma FrameThenChunkFit(p: seq<u8>, c: seq<u8>)
    requires |p| < 0x1_0000 && |p| + 2 <= PACKET_MAX_SIZE && |c| <= PACKET_MAX_SIZE
    ensures ChunksFit([], [Frame(p), c])
  {
    var chunks := [Frame(p), c];
    DeframeFrame(p, []);
    assert [] + Frame(p) == Frame(p) + [];
    assert Flatten(chunks[1..]) == c + Flatten([]);
    ChunksFitWithin([], chunks[1..]);
  }

  /**
   The corrected loop delivers both payloads of any two frames that each fit in the
   buffer, wherever the second one lands in the backing array.
   */
  lemma TwoFramesDelivered(o: Observer, p: seq<u8>, q: seq<u8>)
    requires |p| < 0x1_0000 && |q| < 0x1_0000
    requires |p| + 2 <= PACKET_MAX_SIZE && |q| + 2 <= PACKET_MAX_SIZE
    ensures var r := Run(Corrected, Fresh(o), FeedEach([Frame(p), Frame(q)]));
            r.1 == [p, q] && r.0.worker == Running && AwaitingFrame(r.0.session)
  {
    var none: seq<u8> := [];
    assert Frame(q) == Frame(q) + none;
    DeframeFrame(q, none);
    FrameThenChunkDelivered(o, p, Frame(q));
    EmptyBacklogAwaits(Run(Corrected, Fresh(o), FeedEach([Frame(p), Frame(q)])).0.session);
  }

  /** A 1018-byte payload: its frame fills the backing array up to 4 bytes before its end. */
  const Filler: seq<u8> := seq(1018, _ => 7)

  /**
   Finding: a frame filling the backing array up to 4 bytes before its end, then a frame
   with a 4-byte payload. As written, the second payload crosses the end of the array,
   the claim stops there, and the loop spins with the payload buffered whole.
   */
  lemma WrappedPayloadHangs(o: Observer)
    ensures var r := Run(AsWritten, Fresh(o), FeedEach([Frame(Filler), [0, 4, 1, 2, 3, 4]]));
            r.1 == [Filler] && r.0.worker == Hung
  {
    assert Frame([1, 2, 3, 4]) == [0, 4, 1, 2, 3, 4];
    WrapHangs(Fresh(o), Filler, [1, 2, 3, 4]);
  }

  /** The corrected loop on the same timeline delivers both payloads. */
  lemma WrappedPayloadDelivered(o: Observer)
    ensures var r := Run(Corrected, Fresh(o), FeedEach([Frame(Filler), [0, 4, 1, 2, 3, 4]]));
            r.1 == [Filler, [1, 2, 3, 4]] && r.0.worker == Running && AwaitingFrame(r.0.session)
  {
    assert Frame([1, 2, 3, 4]) == [0, 4, 1, 2, 3, 4];
    TwoFramesDelivered(o, Filler, [1, 2, 3, 4]);
  }

  /**
   The corrected loop, on a fresh session fed a frame and then any chunk that fits in the
   buffer, delivers the frame's payload and then every payload the chunk carries, and
   keeps the chunk's incomplete tail.
   */
  lemma FrameThenChunkDelivered(o: Observer, p: seq<u8>, c: seq<u8>)
    requires |p| < 0x1_0000 && |p| + 2 <= PACKET_MAX_SIZE && |c| <= PACKET_MAX_SIZE
    ensures var r := Run(Corrected, Fresh(o), FeedEach([Frame(p), c]));
            && r.1 == [p] + Deframe(c).0 && r.0.worker == Running
            && Backlog(r.0.session) == Deframe(c).1
  {
    var chunks := [Frame(p), c];
    assert chunks[1..] == [c];
    assert Flatten([c]) == c + Flatten([]) == c;
    assert [] + Flatten(chunks) == Frame(p) + c;
    FrameThenChunkFit(p, c);
    assert Backlog(Fresh(o).session) == [];
    CorrectedChunks(Fresh(o), chunks);
    DeframeFrame(p, c);
  }

  /** The second chunk of the misread timeline below: two whole frames. */
  const TwoFrameChunk: seq<u8> := [0, 4, 1, 2, 3, 4, 0, 1, 9]

  /**
   Finding: as in the timeline above, but a frame `[9]` follows the 4-byte payload in the
   same chunk. As written, the claim stops at the end of the array, the next claim
   starts over at index 0 and hands the observer the 4 bytes there, `[3, 4, 0, 1]`,
   instead of `[1, 2, 3, 4]`; the loop carries on, delivers `[9]` and returns as if
   nothing were amiss.
   */
  lemma WrappedPayloadMisread(o: Observer)
    ensures var r := Run(AsWritten, Fresh(o), FeedEach([Frame(Filler), TwoFrameChunk]));
            && r.1 == [Filler, [3, 4, 0, 1], [9]] && r.0.worker == Running
            && AwaitingFrame(r.0.session)
  {
    var chunks := [Frame(Filler), TwoFrameChunk];
    assert chunks[1..] == [TwoFrameChunk];
    assert FeedEach([TwoFrameChunk]) == [Feed(TwoFrameChunk), Process];
    var misread: seq<seq<u8>> := [[3, 4, 0, 1], [9]];
    assert [Filler] + misread == [Filler, [3, 4, 0, 1], [9]];
    var m := Fresh(o);
    FeedEachFirst(AsWritten, m, chunks);
    WholeFrame(AsWritten, m, Filler);
    var m1 := Run(AsWritten, m, [Feed(Frame(Filler)), Process]).0;
    FeedThenProcess(AsWritten, m1, TwoFrameChunk);
    AsWrittenMisreadsWrappedFrame(Ingestion.Feed(m1.session, TwoFrameChunk).1.(pending := false));
  }

  /** The corrected loop on the same timeline delivers `[1, 2, 3, 4]` and then `[9]`. */
  lemma WrappedPayloadRead(o: Observer)
    ensures var r := Run(Corrected, Fresh(o), FeedEach([Frame(Filler), TwoFrameChunk]));
            && r.1 == [Filler, [1, 2, 3, 4], [9]] && r.0.worker == Running
            && AwaitingFrame(r.0.session)
  {
    var nine: seq<u8> := [9];
    var none: seq<u8> := [];
    assert TwoFrameChunk == Frame([1, 2, 3, 4]) + (Frame(nine) + none);
    DeframeFrame([1, 2, 3, 4], Frame(nine) + none);
    DeframeFrame(nine, none);
    var payloads: seq<seq<u8>> := [[1, 2, 3, 4]] + ([nine] + []);
    assert payloads == [[1, 2, 3, 4], [9]];
    assert [Filler] + payloads == [Filler, [1, 2, 3, 4], [9]];
    FrameThenChunkDelivered(o, Filler, TwoFrameChunk);
    EmptyBacklogAwaits(Run(Corrected, Fresh(o), FeedEach([Frame(Filler), TwoFrameChunk])).0.session);
  }

  /**
   Finding: the work runs with nothing buffered while a length is awaited. As written,
   the assertion on the high length byte fails: after a feed of no bytes, or when a byte
   arrives after the timeout expired but before the work ran (the timeout drops it).
   */
  lemma EmptyWorkPanics(o: Observer)
    ensures Run(AsWritten, Fresh(o), [Feed([]), Process]).0.worker == Panicked
    ensures Run(AsWritten, Fresh(o), [Feed([0, 1]), Process, Feed([5]), TimeoutFire, Process]).0.worker == Panicked
  {
    EmptyFeed(AsWritten, Fresh(o));
    LateByte(AsWritten, Fresh(o));
  }

  /** The corrected loop on the same timelines waits for a length, having delivered nothing. */
  lemma EmptyWorkIsHarmless(o: Observer)
    ensures var r := Run(Corrected, Fresh(o), [Feed([]), Process]);
            r.1 == [] && r.0.worker == Running && AwaitingFrame(r.0.session)
    ensures var r := Run(Corrected, Fresh(o), [Feed([0, 1]), Process, Feed([5]), TimeoutFire, Process]);
            r.1 == [] && r.0.worker == Running && AwaitingFrame(r.0.session)
  {
    EmptyFeed(Corrected, Fresh(o));
    LateByte(Corrected, Fresh(o));
  }

  /** A run of the work with nothing buffered in a session waiting for a length. */
  lemma NothingToRead(v: Variant, s: Session)
    requires AwaitingFrame(s)
    ensures v == AsWritten ==> Drain(v, s) == Drained(s, [], Panics)
    ensures v == Corrected ==> Drain(v, s) == Drained(s, [], Idle)
  {
  }

  /** A feed of no bytes, then a run of the work. */
  lemma EmptyFeed(v: Variant, m: Machine)
    requires AwaitingFrame(m.session) && m.worker == Running && !m.session.pending
    ensures var r := Run(v, m, [Feed([]), Process]);
            && r.1 == []
            && r.0.worker == (if v == AsWritten then Panicked else Running)
            && (v == Corrected ==> AwaitingFrame(r.0.session))
  {
    FeedThenProcess(v, m, []);
    NothingToRead(v, Ingestion.Feed(m.session, []).1.(pending := false));
  }

  /**
   A byte fed just after the timeout expired and before the work ran: the timeout drops
   it, and the work finds nothing buffered while a length is awaited.
   */
  lemma LateByte(v: Variant, m: Machine)
    requires AwaitingFrame(m.session) && m.worker == Running && !m.session.pending
    ensures var r := Run(v, m, [Feed([0, 1]), Process, Feed([5]), TimeoutFire, Process]);
            && r.1 == []
            && r.0.worker == (if v == AsWritten then Panicked else Running)
            && (v == Corrected ==> AwaitingFrame(r.0.session))
  {
    assert [Feed([0, 1]), Process] + [Feed([5]), TimeoutFire, Process]
        == [Feed([0, 1]), Process, Feed([5]), TimeoutFire, Process];
    RunAppend(v, m, [Feed([0, 1]), Process], [Feed([5]), TimeoutFire, Process]);
    var m1 := LengthAlone(v, m, 0, 1);
    ByteThenTimeout(v, m1);
  }

  /** A byte fed while the timeout is armed, the timeout, then a run of the work. */
  lemma ByteThenTimeout(v: Variant, m: Machine)
    requires Consistent(m.session) && m.worker == Running && !m.session.pending && m.session.armed
    ensures var r := Run(v, m, [Feed([5]), TimeoutFire, Process]);
            && r.1 == []
            && r.0.worker == (if v == AsWritten then Panicked else Running)
            && (v == Corrected ==> AwaitingFrame(r.0.session))
  {
    var m2 := Apply(v, m, Feed([5])).0;
    assert m2.worker == Running && m2.session.armed && m2.session.pending;
    var m3 := m2.(session := Timeout(m2.session));
    NothingToRead(v, m3.session.(pending := false));
    TimeoutThen(v, m2, [Process]);
    assert [Feed([5]), TimeoutFire, Process] == [Feed([5])] + ([TimeoutFire] + [Process]);
    assert Run(v, m, [Feed([5]), TimeoutFire, Process]) == Run(v, m2, [TimeoutFire] + [Process]);
  }

  /**
   Finding: a frame with an empty payload, then the timeout. As written, the loop returns
   after the length and owes the payload to its next run; the timeout armed by the length
   drops it, and the observer never receives it.
   */
  lemma EmptyPayloadLost(o: Observer)
    ensures var r := Run(AsWritten, Fresh(o), [Feed([0, 0]), Process, TimeoutFire]);
            r.1 == [] && r.0.worker == Running && AwaitingFrame(r.0.session)
  {
    var m := Fresh(o);
    EmptyFrame(AsWritten, m);
    var m1 := Run(AsWritten, m, [Feed([0, 0]), Process]).0;
    TimeoutThen(AsWritten, m1, []);
    assert [TimeoutFire] + [] == [TimeoutFire];
    ThenTimeout(AsWritten, m, [0, 0]);
  }

  /** The corrected loop on the same timeline hands out the empty payload at once. */
  lemma EmptyPayloadDelivered(o: Observer)
    ensures Run(Corrected, Fresh(o), [Feed([0, 0]), Process, TimeoutFire]).1 == [[]]
  {
    var m := Fresh(o);
    EmptyFrame(Corrected, m);
    var m1 := Run(Corrected, m, [Feed([0, 0]), Process]).0;
    assert [TimeoutFire][1..] == [];
    assert Run(Corrected, m1, [TimeoutFire]).1 == [];
    ThenTimeout(Corrected, m, [0, 0]);
  }

  /** A frame with an empty payload, fed and processed. */
  lemma EmptyFrame(v: Variant, m: Machine)
    requires AwaitingFrame(m.session) && m.worker == Running && !m.session.pending
    ensures var r := Run(v, m, [Feed([0, 0]), Process]);
            && r.0.worker == Running && r.0.session.Valid()
            && (v == AsWritten ==> r.1 == [] && r.0.session.armed)
            && (v == Corrected ==> r.1 == [[]])
  {
    FeedThenProcess(v, m, [0, 0]);
    AsWrittenDefersEmptyPayload(Ingestion.Feed(m.session, [0, 0]).1.(pending := false));
  }

  /** A feed and a run of the work, then the timeout. */
  lemma ThenTimeout(v: Variant, m: Machine, bytes: seq<u8>)
    requires m.session.Valid()
    ensures var first := Run(v, m, [Feed(bytes), Process]);
            var second := Run(v, first.0, [TimeoutFire]);
            Run(v, m, [Feed(bytes), Process, TimeoutFire]) == (second.0, first.1 + second.1)
  {
    RunAppend(v, m, [Feed(bytes), Process], [TimeoutFire]);
    assert [Feed(bytes), Process] + [TimeoutFire] == [Feed(bytes), Process, TimeoutFire];
  }
}
