/**
 Concrete timelines: the exchanges the repository's own tests and hardware harness use,
 each from a session waiting for a frame.
 */
module Scenarios {
  import opened Common
  import opened Framing
  import opened Ingestion
  import opened Reassembly
  import opened Timeline

  /** A session whose backlog is empty is waiting for a frame. */
  lemma EmptyBacklogAwaits(s: Session)
    requires Consistent(s) && Backlog(s) == []
    ensures AwaitingFrame(s)
  {
    assert |HeaderBytes(s)| == 0;
  }

  /**
   A waiting session fed one whole frame in one piece, then processed, hands its payload
   to the observer under either loop, when the frame lies before the end of the backing
   array. As written, the payload must not be empty: an empty one is owed to the next run.
   */
  lemma WholeFrame(v: Variant, m: Machine, p: seq<u8>)
    requires AwaitingFrame(m.session) && m.worker == Running && !m.session.pending
    requires (v == Corrected || 0 < |p|) && m.session.rb.head + 2 + |p| <= PACKET_MAX_SIZE
    ensures var r := Run(v, m, [Feed(Frame(p)), Process]);
            && r.1 == [p] && r.0.worker == Running && AwaitingFrame(r.0.session)
            && !r.0.session.pending
    ensures v == AsWritten ==>
              var h := m.session.rb.head + 2 + |p|;
              Run(v, m, [Feed(Frame(p)), Process]).0.session.rb.head == if h == PACKET_MAX_SIZE then 0 else h
  {
    FeedThenProcess(v, m, Frame(p));
    var s := Ingestion.Feed(m.session, Frame(p)).1.(pending := false);
    DrainsWholeFrame(v, s, p);
    var d := Drain(v, s);
    assert Run(v, m, [Feed(Frame(p)), Process]) == (Machine(d.final, WorkerAfter(d.exit)), d.packets);
    assert WorkerAfter(d.exit) == Running;
  }

  /** The run of the work in `WholeFrame`, on the session the feed left. */
  lemma DrainsWholeFrame(v: Variant, s: Session, p: seq<u8>)
    requires s.Valid() && (v == Corrected || 0 < |p|) && s.rb.head + 2 + |p| <= PACKET_MAX_SIZE
    requires Holding(s, Frame(p)) && !s.pending
    ensures var r := Drain(v, s);
            var h := s.rb.head + 2 + |p|;
            && r.packets == [p] && r.exit == Idle && AwaitingFrame(r.final) && !r.final.pending
            && (v == AsWritten ==> r.final.rb.head == if h == PACKET_MAX_SIZE then 0 else h)
  {
    if v == AsWritten {
      AsWrittenDeliversContiguousFrame(s, p);
    } else {
      CorrectedDrainComplete(s);
      DeframeFrame(p, []);
      assert Frame(p) + [] == Frame(p) == Backlog(s);
      EmptyBacklogAwaits(Drain(v, s).final);
    }
  }

  /**
   A fresh session fed `{0x00, 0x01, 0x00}` and processed once hands the observer one
   1-byte payload, the zero byte, under either loop.
   */
  lemma OneBytePacket(v: Variant, o: Observer)
    ensures var r := Run(v, Fresh(o), [Feed([0, 1, 0]), Process]);
            r.1 == [[0]] && r.0.worker == Running && AwaitingFrame(r.0.session)
  {
    assert Frame([0]) == [0, 1, 0];
    WholeFrame(v, Fresh(o), [0]);
  }

  /** The framed ping of the hardware harness, `[0, 2, 8, 1]`, reaches the observer whole. */
  lemma HarnessPing(v: Variant, o: Observer)
    ensures Frame([8, 1]) == [0, 2, 8, 1]
    ensures Run(v, Fresh(o), [Feed([0, 2, 8, 1]), Process]).1 == [[8, 1]]
  {
    assert Frame([8, 1]) == [0, 2, 8, 1];
    WholeFrame(v, Fresh(o), [8, 1]);
  }

  /** Before the processing work runs, the observer has received nothing. */
  lemma NothingBeforeProcessing(v: Variant, o: Observer)
    ensures Run(v, Fresh(o), [Feed([0, 1, 2])]).1 == []
  {
    assert [Feed([0, 1, 2])][1..] == [];
  }

  /**
   The length of a frame and only part of its payload arrived: the loop reads the length,
   arms the timeout and waits for the rest. As written, the loop returns only when no
   payload byte has arrived yet; otherwise it spins, having claimed what arrived.
   */
  lemma PartialFrame(v: Variant, s: Session, high: u8, low: u8, part: seq<u8>)
    requires Holding(s, [high, low] + part) && |part| < high as int * 256 + low as int
    ensures var r := Drain(v, s);
            && r.packets == [] && r.exit == (if v == AsWritten && part != [] then Spins else Idle)
            && r.final.armed && r.final.state == RcvData && r.final.rb.data == part
            && r.final.expectedSize == high as int * 256 + low as int && Consistent(r.final)
            && r.final.rb.claimed == (if v == AsWritten then |part| else 0)
            && (r.final.rb.head == s.rb.head + 2 || r.final.rb.head + PACKET_MAX_SIZE == s.rb.head + 2)
  {
    LengthAssembly(v, s);
    var s2 := Step(v, s).next;
    var t := Step(v, s2).next;
    assert t.rb.data == part && t.expectedSize > |part| && t.rb.claimed == 0;
    if part == [] {
      assert Step(v, t).Stuck?;
      assert Drain(v, s2) == Drained(t, [], Idle);
      assert Drain(v, s) == Drained(t, [], Idle);
    } else {
      LengthThenDrain(v, s);
      if v == AsWritten {
        ShortClaimsSpin(t);
      } else {
        assert Step(v, t).Stuck?;
      }
    }
  }

  /**
   A feed and a run of the work that deliver nothing and leave the timeout armed, the
   timeout, then a feed and a run of the work again: what is delivered is what the second
   feed delivers to the session the timeout cleared.
   */
  lemma Resend(v: Variant, m: Machine, first: seq<u8>, again: seq<u8>)
    requires m.session.Valid()
    requires var r := Run(v, m, [Feed(first), Process]);
             r.1 == [] && r.0.worker == Running && r.0.session.armed
    ensures var m1 := Run(v, m, [Feed(first), Process]).0;
            Run(v, m, [Feed(first), Process, TimeoutFire, Feed(again), Process])
              == Run(v, m1.(session := Timeout(m1.session)), [Feed(again), Process])
  {
    assert [Feed(first), Process] + [TimeoutFire, Feed(again), Process]
        == [Feed(first), Process, TimeoutFire, Feed(again), Process];
    assert [TimeoutFire] + [Feed(again), Process] == [TimeoutFire, Feed(again), Process];
    var m1 := Run(v, m, [Feed(first), Process]).0;
    TimeoutThen(v, m1, [Feed(again), Process]);
    RunAppend(v, m, [Feed(first), Process], [TimeoutFire, Feed(again), Process]);
    var r := Run(v, m1.(session := Timeout(m1.session)), [Feed(again), Process]);
    assert [] + r.1 == r.1;
  }

  /**
   A waiting session given the length of a frame and part of its payload, processed,
   then left until the timeout expires, drops what it holds and receives a whole frame
   sent afterwards. As written, this holds only when no payload byte arrived and the
   frame sent afterwards has a non-empty payload.
   */
  lemma PartialThenResend(v: Variant, m: Machine, high: u8, low: u8, part: seq<u8>, p: seq<u8>)
    requires AwaitingFrame(m.session) && m.worker == Running && !m.session.pending
    requires |part| < high as int * 256 + low as int && 2 + |part| <= PACKET_MAX_SIZE
    requires v == Corrected || part == []
    requires (v == Corrected || 0 < |p|) && 2 + |p| <= PACKET_MAX_SIZE
    ensures var r := Run(v, m, [Feed([high, low] + part), Process, TimeoutFire, Feed(Frame(p)), Process]);
            r.1 == [p] && r.0.worker == Running && AwaitingFrame(r.0.session)
  {
    var bytes := [high, low] + part;
    FeedThenProcess(v, m, bytes);
    PartialFrame(v, Ingestion.Feed(m.session, bytes).1.(pending := false), high, low, part);
    Resend(v, m, bytes, Frame(p));
    var m1 := Run(v, m, [Feed(bytes), Process]).0;
    WholeFrame(v, m1.(session := Timeout(m1.session)), p);
  }

  /**
   A session given only a length, processed, then left until the timeout expires, drops
   the length and receives the frame sent again afterwards, under either loop.
   */
  lemma TimeoutAllowsResending(v: Variant, o: Observer)
    ensures var r := Run(v, Fresh(o), [Feed([0, 1]), Process, TimeoutFire, Feed([0, 1, 0]), Process]);
            r.1 == [[0]] && r.0.worker == Running && AwaitingFrame(r.0.session)
  {
    assert [0, 1] + [] == [0, 1];
    assert Frame([0]) == [0, 1, 0];
    PartialThenResend(v, Fresh(o), 0, 1, [], [0]);
  }

  /**
   Two whole frames with non-empty payloads fed one after the other, each followed by a
   run of the work, as written.
   */
  lemma AsWrittenTwoFrames(m: Machine, p: seq<u8>, q: seq<u8>)
    requires AwaitingFrame(m.session) && m.worker == Running && !m.session.pending
    requires 0 < |p| && 0 < |q| && m.session.rb.head + 4 + |p| + |q| <= PACKET_MAX_SIZE
    ensures var r := Run(AsWritten, m, FeedEach([Frame(p), Frame(q)]));
            r.1 == [p, q] && r.0.worker == Running && AwaitingFrame(r.0.session)
  {
    assert [Frame(p), Frame(q)][1..] == [Frame(q)];
    assert FeedEach([Frame(q)]) == [Feed(Frame(q)), Process];
    assert [p] + [q] == [p, q];
    FeedEachFirst(AsWritten, m, [Frame(p), Frame(q)]);
    WholeFrame(AsWritten, m, p);
    var first := Run(AsWritten, m, [Feed(Frame(p)), Process]);
    WholeFrame(AsWritten, first.0, q);
  }

  /**
   The repository's resending test, with the work run after each feed: the bytes it calls
   garbage, `{0x00, 0x01, 0x02}`, are themselves a whole frame, so both payloads reach the
   observer, under either loop.
   */
  lemma GarbageIsAFrame(v: Variant, o: Observer)
    ensures var r := Run(v, Fresh(o), FeedEach([[0, 1, 2], [0, 1, 0]]));
            r.1 == [[2], [0]] && r.0.worker == Running && AwaitingFrame(r.0.session)
  {
    assert Frame([2]) == [0, 1, 2] && Frame([0]) == [0, 1, 0];
    if v == AsWritten {
      AsWrittenTwoFrames(Fresh(o), [2], [0]);
    } else {
      assert Flatten([[0, 1, 2], [0, 1, 0]]) == FrameAll([[2], [0]]) == [0, 1, 2, 0, 1, 0];
      CorrectedDeliversEverySplit(Fresh(o), [[2], [0]], [[0, 1, 2], [0, 1, 0]]);
    }
  }

  /**
   A length above the buffer's capacity is accepted: the session waits for a payload that
   can never be buffered whole, delivers nothing, and only the timeout gets it out.
   */
  lemma OversizedLengthWaits(v: Variant, o: Observer)
    ensures var r := Run(v, Fresh(o), [Feed([4, 1]), Process]);
            && r.1 == [] && r.0.worker == Running && r.0.session.armed
            && r.0.session.state == RcvData && r.0.session.expectedSize == 1025 > PACKET_MAX_SIZE
            && Step(v, r.0.session).Stuck?
  {
    var m := Fresh(o);
    var m1 := LengthAlone(v, m, 4, 1);
    NothingBufferedStuck(v, m1.session);
  }

  /** A non-zero length alone, fed and processed while a frame is awaited: the payload is awaited. */
  lemma LengthAlone(v: Variant, m: Machine, high: u8, low: u8) returns (m1: Machine)
    requires AwaitingFrame(m.session) && m.worker == Running && !m.session.pending
    requires 0 < high as int * 256 + low as int
    ensures var r := Run(v, m, [Feed([high, low]), Process]);
            && m1 == r.0 && r.1 == [] && m1.worker == Running && Consistent(m1.session)
            && !m1.session.pending && m1.session.armed && m1.session.state == RcvData
            && m1.session.expectedSize == high as int * 256 + low as int
            && m1.session.rb.data == [] && m1.session.rb.claimed == 0
  {
    assert [high, low] == [high, low] + [];
    FeedThenProcess(v, m, [high, low]);
    PartialFrame(v, Ingestion.Feed(m.session, [high, low]).1.(pending := false), high, low, []);
    m1 := Run(v, m, [Feed([high, low]), Process]).0;
  }

  /** With nothing buffered while a payload is awaited, a pass of the work changes nothing. */
  lemma NothingBufferedStuck(v: Variant, s: Session)
    requires s.Valid() && s.state == RcvData && 0 < s.expectedSize
    requires s.rb.data == [] && s.rb.claimed == 0
    ensures Step(v, s).Stuck?
  {
  }
}
