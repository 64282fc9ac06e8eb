/**
 The ingestion session on one serialized timeline of events: the transport feeding bytes,
 the system work queue running the processing work, and the timeout work expiring.

 Both work items run on the system work queue's single thread. While the process loop
 spins, neither work item gets that thread; a timeout expiring meanwhile stays armed and
 can run once the loop returns, unless the loop cancels it. The transport feeds bytes
 from its interrupt, which preempts the loop: the spinning loop's next pass claims them,
 so a feed resumes the loop there. When the length-byte assertion fails, the system halts.
 */
module Timeline {
  import opened Common
  import opened Framing
  import Ingestion
  import opened Reassembly

  datatype Event =
    | Feed(bytes: seq<u8>)   // the transport calls `ingestion_feed` with these bytes
    | Process                // the work queue runs the processing work, if submitted
    | TimeoutFire            // the timeout work expires, if scheduled

  /** The work queue's thread: free, spinning in the process loop, or halted. */
  datatype Worker = Running | Hung | Panicked

  datatype Machine = Machine(session: Ingestion.Session, worker: Worker)

  function WorkerAfter(x: Ingestion.Exit): Worker
  {
    match x
    case Idle => Running
    case Spins => Hung
    case Panics => Panicked
  }

  /** A session just set up by `ingestion_init` on zero-filled memory. */
  function Fresh(o: Ingestion.Observer): (m: Machine)
    ensures AwaitingFrame(m.session) && m.worker == Running
    ensures !m.session.pending && !m.session.armed && m.session.rb.head == 0
  {
    Machine(Ingestion.Init(Ingestion.Zeroed, Some(o)).1, Running)
  }

  /**
   One event. A feed passes its length as a `uint16_t`, so a caller's buffer of 65536
   bytes or more is cut to its length modulo 65536. A feed during a spin goes on with the
   loop over the session the feed left.
   */
  function Apply(v: Ingestion.Variant, m: Machine, e: Event): (r: (Machine, seq<seq<u8>>))
    requires m.session.Valid()
    ensures r.0.session.Valid()
    ensures m.session.state != Ingestion.Parsing ==> r.0.session.state != Ingestion.Parsing
    ensures Ingestion.WithinCapacity(r.1)
    ensures r.1 != [] ==> (e.Process? && m.worker == Running) || (e.Feed? && m.worker == Hung)
    ensures m.worker == Panicked ==> r.0 == m
    ensures m.worker == Hung && !e.Feed? ==> r.0 == m
    ensures v == Ingestion.Corrected && m.worker != Hung ==> r.0.worker == m.worker
    ensures e.TimeoutFire? && m.worker == Running && m.session.armed ==>
              && r.0.session.rb.data == [] && !r.0.session.armed
              && r.0.session.state == Ingestion.RcvLengthHigh
    ensures e.TimeoutFire? && !(m.worker == Running && m.session.armed) ==> r.0 == m
  {
    match e
    case Feed(bytes) =>
      if m.worker == Panicked then (m, [])
      else
        var s := Ingestion.Feed(m.session, bytes[..|bytes| % 0x1_0000]).1;
        if m.worker == Hung then
          var d := Ingestion.Drain(v, s);
          (Machine(d.final, WorkerAfter(d.exit)), d.packets)
        else (m.(session := s), [])
    case Process =>
      if m.worker == Running && m.session.pending then
        var d := Ingestion.Process(v, m.session);
        (Machine(d.final, WorkerAfter(d.exit)), d.packets)
      else (m, [])
    case TimeoutFire =>
      if m.worker == Running && m.session.armed then
        (m.(session := Ingestion.Timeout(m.session)), [])
      else (m, [])
  }

  /** A sequence of events, and every packet the observer receives along it. */
  function Run(v: Ingestion.Variant, m: Machine, events: seq<Event>): (r: (Machine, seq<seq<u8>>))
    requires m.session.Valid()
    ensures r.0.session.Valid()
    ensures m.session.state != Ingestion.Parsing ==> r.0.session.state != Ingestion.Parsing
    ensures Ingestion.WithinCapacity(r.1)
    ensures m.worker == Panicked ==> r == (m, [])
    ensures m.worker == Hung && NoFeed(events) ==> r == (m, [])
    ensures v == Ingestion.Corrected && m.worker == Running ==> r.0.worker == Running
    decreases |events|
  {
    if events == [] then (m, [])
    else
      var (m1, p1) := Apply(v, m, events[0]);
      var (m2, p2) := Run(v, m1, events[1..]);
      (m2, p1 + p2)
  }

  /** No event of `events` feeds bytes. */
  predicate NoFeed(events: seq<Event>)
  {
    forall i | 0 <= i < |events| :: !events[i].Feed?
  }

  /** The bytes the events feed, as the session receives them. */
  function FedBy(e: Event): seq<u8>
  {
    if e.Feed? then e.bytes[..|e.bytes| % 0x1_0000] else []
  }

  function Fed(events: seq<Event>): seq<u8>
  {
    if events == [] then [] else FedBy(events[0]) + Fed(events[1..])
  }

  /**
   Along `events`, every feed fits in the free buffer space and the timeout never fires;
   and each run of the loop as written, including one a feed resumes during a spin, finds
   the buffered bytes not crossing the end of the backing array and no claim cut short
   (see `Unwrapped`).
   */
  ghost predicate Undisturbed(v: Ingestion.Variant, m: Machine, events: seq<Event>)
    requires m.session.Valid()
    decreases |events|
  {
    || events == []
    || (&& !events[0].TimeoutFire?
        && |m.session.rb.data| + |FedBy(events[0])| <= Ingestion.PACKET_MAX_SIZE
        && (v == Ingestion.AsWritten && events[0].Process? ==> Unwrapped(m.session))
        && (v == Ingestion.AsWritten && events[0].Feed? && m.worker == Hung ==>
              Unwrapped(Ingestion.Feed(m.session, FedBy(events[0])).1))
        && Undisturbed(v, Apply(v, m, events[0]).0, events[1..]))
  }

  /** One undisturbed event keeps the reading of the stream: what it delivers is read off the backlog. */
  lemma ApplySound(v: Ingestion.Variant, m: Machine, e: Event)
    requires Consistent(m.session) && m.worker != Panicked && !e.TimeoutFire?
    requires |m.session.rb.data| + |FedBy(e)| <= Ingestion.PACKET_MAX_SIZE
    requires v == Ingestion.AsWritten && e.Process? ==> Unwrapped(m.session)
    requires v == Ingestion.AsWritten && e.Feed? && m.worker == Hung ==>
               Unwrapped(Ingestion.Feed(m.session, FedBy(e)).1)
    ensures var r := Apply(v, m, e);
            r.0.worker != Panicked ==>
              Consistent(r.0.session) && Yields(Backlog(m.session) + FedBy(e), r.1, Backlog(r.0.session))
  {
    if e.Feed? {
      FeedKeepsBacklog(v, m, e.bytes);
      if m.worker == Hung {
        DrainSound(v, Ingestion.Feed(m.session, FedBy(e)).1);
      } else {
        assert Yields(Backlog(m.session) + FedBy(e), [], Backlog(m.session) + FedBy(e));
      }
    } else if m.worker == Running && m.session.pending {
      var s := m.session.(pending := false);
      assert Backlog(s) == Backlog(m.session) + FedBy(e);
      DrainSound(v, s);
    } else {
      assert Backlog(m.session) + FedBy(e) == Backlog(m.session);
    }
  }

  /**
   A feed that fits appends what `ingestion_feed` takes of its bytes to the backlog and
   submits the work. On a free queue that is all; a spinning loop goes on over the new
   backlog.
   */
  lemma FeedKeepsBacklog(v: Ingestion.Variant, m: Machine, c: seq<u8>)
    requires Consistent(m.session) && m.worker != Panicked
    requires |m.session.rb.data| + |FedBy(Feed(c))| <= Ingestion.PACKET_MAX_SIZE
    ensures var s := Ingestion.Feed(m.session, FedBy(Feed(c))).1;
            && Consistent(s) && s.pending
            && Backlog(s) == Backlog(m.session) + FedBy(Feed(c))
            && (m.worker == Running ==> Apply(v, m, Feed(c)) == (m.(session := s), []))
            && (m.worker == Hung ==>
                  var d := Ingestion.Drain(v, s);
                  Apply(v, m, Feed(c)) == (Machine(d.final, WorkerAfter(d.exit)), d.packets))
  {
    var taken := c[..|c| % 0x1_0000];
    var s := Ingestion.Feed(m.session, taken).1;
    assert s.rb.data == m.session.rb.data + taken;
    assert HeaderBytes(s) == HeaderBytes(m.session);
  }

  /**
   Soundness of any timeline without timeouts or dropped bytes: unless the system halted,
   the packets delivered are the first payloads the fed stream carries, in order, and the
   session's backlog reads as the rest of it. For the corrected work this holds of every
   such timeline; for the work as written, of those whose runs find no payload crossing
   the end of the backing array.
   */
  lemma {:induction false} RunSound(v: Ingestion.Variant, m: Machine, events: seq<Event>)
    requires Consistent(m.session) && Undisturbed(v, m, events)
    ensures var r := Run(v, m, events);
            r.0.worker != Panicked ==>
              Consistent(r.0.session) && Yields(Backlog(m.session) + Fed(events), r.1, Backlog(r.0.session))
    decreases |events|
  {
    var b := Backlog(m.session);
    if events == [] {
      assert b + Fed(events) == b;
    } else if m.worker != Panicked {
      var e := events[0];
      var (m1, p1) := Apply(v, m, e);
      ApplySound(v, m, e);
      if m1.worker != Panicked {
        RunSound(v, m1, events[1..]);
        var (m2, p2) := Run(v, m1, events[1..]);
        assert Run(v, m, events) == (m2, p1 + p2);
        assert Fed(events) == FedBy(e) + Fed(events[1..]);
        if m2.worker != Panicked {
          YieldsThen(b, FedBy(e), Fed(events[1..]), p1, Backlog(m1.session), p2, Backlog(m2.session));
        }
      }
    }
  }

  /** Each chunk fed by the transport, each followed by a run of the processing work. */
  function FeedEach(chunks: seq<seq<u8>>): seq<Event>
  {
    if chunks == [] then [] else [Feed(chunks[0]), Process] + FeedEach(chunks[1..])
  }

  function Flatten(chunks: seq<seq<u8>>): seq<u8>
  {
    if chunks == [] then [] else chunks[0] + Flatten(chunks[1..])
  }

  /**
   Each chunk fits in the buffer next to the unread tail the reading of the stream before
   it leaves.
   */
  ghost predicate ChunksFit(backlog: seq<u8>, chunks: seq<seq<u8>>)
    decreases |chunks|
  {
    || chunks == []
    || (&& |backlog| + |chunks[0]| <= Ingestion.PACKET_MAX_SIZE
        && ChunksFit(Deframe(backlog + chunks[0]).1, chunks[1..]))
  }

  /** A stream no longer than the buffer fits however it is cut. */
  lemma {:induction false} ChunksFitWithin(backlog: seq<u8>, chunks: seq<seq<u8>>)
    requires |backlog| + |Flatten(chunks)| <= Ingestion.PACKET_MAX_SIZE
    ensures ChunksFit(backlog, chunks)
    decreases |chunks|
  {
    if chunks != [] {
      DeframeShrinks(backlog + chunks[0]);
      ChunksFitWithin(Deframe(backlog + chunks[0]).1, chunks[1..]);
    }
  }

  /** A feed that fits appends its bytes to the backlog and submits the work. */
  lemma FeedAppends(v: Ingestion.Variant, m: Machine, c: seq<u8>)
    requires Consistent(m.session) && m.worker == Running
    requires |m.session.rb.data| + |c| <= Ingestion.PACKET_MAX_SIZE
    ensures var m1 := Apply(v, m, Feed(c)).0;
            && Consistent(m1.session) && m1.worker == m.worker && m1.session.pending
            && Backlog(m1.session) == Backlog(m.session) + c
            && Apply(v, m, Feed(c)).1 == []
  {
    assert c[..|c| % 0x1_0000] == c;
  }

  /**
   A feed that fits, then a run of the work: the work drains the session the feed left,
   holding the fed bytes after the ones it held before.
   */
  lemma FeedThenProcess(v: Ingestion.Variant, m: Machine, bytes: seq<u8>)
    requires Consistent(m.session) && m.worker == Running && !m.session.pending
    requires |m.session.rb.data| + |bytes| <= Ingestion.PACKET_MAX_SIZE
    ensures var s := Ingestion.Feed(m.session, bytes).1.(pending := false);
            var d := Ingestion.Drain(v, s);
            && Consistent(s) && s == m.session.(rb := s.rb)
            && s.rb.data == m.session.rb.data + bytes && s.rb.head == m.session.rb.head
            && Run(v, m, [Feed(bytes), Process]) == (Machine(d.final, WorkerAfter(d.exit)), d.packets)
  {
    assert bytes[..|bytes| % 0x1_0000] == bytes;
    RunTwo(v, m, Feed(bytes), Process);
    var d := Ingestion.Drain(v, Ingestion.Feed(m.session, bytes).1.(pending := false));
    assert [] + d.packets == d.packets;
  }

  /** The timeout firing while armed, then more events. */
  lemma TimeoutThen(v: Ingestion.Variant, m: Machine, later: seq<Event>)
    requires m.session.Valid() && m.worker == Running && m.session.armed
    ensures Run(v, m, [TimeoutFire] + later) == Run(v, m.(session := Ingestion.Timeout(m.session)), later)
  {
    assert ([TimeoutFire] + later)[0] == TimeoutFire && ([TimeoutFire] + later)[1..] == later;
    var r := Run(v, m.(session := Ingestion.Timeout(m.session)), later);
    assert [] + r.1 == r.1;
  }

  /** A run of the corrected work reads every complete frame off the backlog. */
  lemma CorrectedProcessReads(m: Machine)
    requires Consistent(m.session) && m.worker == Running && m.session.pending
    ensures var r := Apply(Ingestion.Corrected, m, Process);
            && r.0.worker == Running && !r.0.session.pending && Consistent(r.0.session)
            && r.1 == Deframe(Backlog(m.session)).0
            && Backlog(r.0.session) == Deframe(Backlog(m.session)).1
  {
    var s := m.session.(pending := false);
    assert Backlog(s) == Backlog(m.session);
    DrainSound(Ingestion.Corrected, s);
    CorrectedDrainComplete(s);
  }

  /** Two events in a row. */
  lemma RunTwo(v: Ingestion.Variant, m: Machine, e1: Event, e2: Event)
    requires m.session.Valid()
    ensures var a := Apply(v, m, e1);
            var b := Apply(v, a.0, e2);
            Run(v, m, [e1, e2]) == (b.0, a.1 + b.1)
  {
    var a := Apply(v, m, e1);
    var b := Apply(v, a.0, e2);
    assert [e1, e2][1..] == [e2];
    assert [e2][1..] == [];
    assert Run(v, b.0, []) == (b.0, []);
    assert Run(v, a.0, [e2]) == (b.0, b.1 + []);
    assert b.1 + [] == b.1;
    assert Run(v, m, [e1, e2]) == (b.0, a.1 + (b.1 + []));
  }

  /** One chunk fed and processed by the corrected engine. */
  lemma CorrectedFeedThenProcess(m: Machine, c: seq<u8>)
    requires Consistent(m.session) && m.worker == Running && !m.session.pending
    requires |m.session.rb.data| + |c| <= Ingestion.PACKET_MAX_SIZE
    ensures var r := Run(Ingestion.Corrected, m, [Feed(c), Process]);
            && r.0.worker == Running && !r.0.session.pending && Consistent(r.0.session)
            && r.1 == Deframe(Backlog(m.session) + c).0
            && Backlog(r.0.session) == Deframe(Backlog(m.session) + c).1
  {
    FeedAppends(Ingestion.Corrected, m, c);
    var m1 := Apply(Ingestion.Corrected, m, Feed(c)).0;
    CorrectedProcessReads(m1);
    RunTwo(Ingestion.Corrected, m, Feed(c), Process);
    assert [] + Apply(Ingestion.Corrected, m1, Process).1 == Apply(Ingestion.Corrected, m1, Process).1;
  }

  /**
   The corrected engine receives any stream however the transport cuts it: feeding the
   chunks, each followed by a run of the processing work, delivers exactly the payloads
   the stream carries, in order, and keeps only its incomplete tail.
   */
  lemma {:induction false} CorrectedChunks(m: Machine, chunks: seq<seq<u8>>)
    requires Consistent(m.session) && m.worker == Running && !m.session.pending
    requires !HasFrame(Backlog(m.session)) && ChunksFit(Backlog(m.session), chunks)
    ensures var r := Run(Ingestion.Corrected, m, FeedEach(chunks));
            && r.0.worker == Running && !r.0.session.pending && Consistent(r.0.session)
            && r.1 == Deframe(Backlog(m.session) + Flatten(chunks)).0
            && Backlog(r.0.session) == Deframe(Backlog(m.session) + Flatten(chunks)).1
    decreases |chunks|
  {
    var b := Backlog(m.session);
    if chunks == [] {
      assert b + Flatten(chunks) == b;
    } else {
      var c := chunks[0];
      assert |m.session.rb.data| <= |b|;
      CorrectedFeedThenProcess(m, c);
      var first := Run(Ingestion.Corrected, m, [Feed(c), Process]);
      CorrectedChunks(first.0, chunks[1..]);
      var second := Run(Ingestion.Corrected, first.0, FeedEach(chunks[1..]));
      FeedEachFirst(Ingestion.Corrected, m, chunks);
      DeframeChunk(b, c, Flatten(chunks[1..]), first.1, Backlog(first.0.session), second.1, Backlog(second.0.session));
    }
  }

  /** Feeding the chunks is feeding and processing the first one, then the others. */
  lemma FeedEachFirst(v: Ingestion.Variant, m: Machine, chunks: seq<seq<u8>>)
    requires m.session.Valid() && chunks != []
    ensures var first := Run(v, m, [Feed(chunks[0]), Process]);
            var second := Run(v, first.0, FeedEach(chunks[1..]));
            Run(v, m, FeedEach(chunks)) == (second.0, first.1 + second.1)
  {
    assert FeedEach(chunks) == [Feed(chunks[0]), Process] + FeedEach(chunks[1..]);
    RunAppend(v, m, [Feed(chunks[0]), Process], FeedEach(chunks[1..]));
  }

  /** Reading a stream chunk by chunk, the reading of each chunk starting at the tail the previous left. */
  lemma DeframeChunk(b: seq<u8>, c: seq<u8>, more: seq<u8>,
                     p: seq<seq<u8>>, u: seq<u8>, q: seq<seq<u8>>, w: seq<u8>)
    requires p == Deframe(b + c).0 && u == Deframe(b + c).1
    requires q == Deframe(u + more).0 && w == Deframe(u + more).1
    ensures p + q == Deframe(b + (c + more)).0 && w == Deframe(b + (c + more)).1
  {
    Associative(b, c, more);
    DeframeAppend(b + c, more);
  }

  /** Running two event sequences one after the other. */
  lemma {:induction false} RunAppend(v: Ingestion.Variant, m: Machine, xs: seq<Event>, ys: seq<Event>)
    requires m.session.Valid()
    ensures Run(v, m, xs + ys).0 == Run(v, Run(v, m, xs).0, ys).0
    ensures Run(v, m, xs + ys).1 == Run(v, m, xs).1 + Run(v, Run(v, m, xs).0, ys).1
    decreases |xs|
  {
    if xs == [] {
      assert xs + ys == ys;
    } else {
      assert (xs + ys)[0] == xs[0] && (xs + ys)[1..] == xs[1..] + ys;
      var m1 := Apply(v, m, xs[0]).0;
      RunAppend(v, m1, xs[1..], ys);
      Associative(Apply(v, m, xs[0]).1, Run(v, m1, xs[1..]).1, Run(v, Run(v, m1, xs[1..]).0, ys).1);
    }
  }

  /**
   The corrected engine, between packets, receives frames laid back to back exactly once
   each and in order, however the transport cuts them, when they fit in the buffer.
   */
  lemma CorrectedDeliversEverySplit(m: Machine, ps: seq<seq<u8>>, chunks: seq<seq<u8>>)
    requires AwaitingFrame(m.session) && m.worker == Running && !m.session.pending
    requires forall i | 0 <= i < |ps| :: |ps[i]| < 0x1_0000
    requires Flatten(chunks) == FrameAll(ps) && |FrameAll(ps)| <= Ingestion.PACKET_MAX_SIZE
    ensures var r := Run(Ingestion.Corrected, m, FeedEach(chunks));
            r.1 == ps && AwaitingFrame(r.0.session) && r.0.worker == Running && !r.0.session.pending
  {
    assert Backlog(m.session) == [];
    ChunksFitWithin([], chunks);
    CorrectedChunks(m, chunks);
    DeframeFrameAll(ps);
    assert [] + FrameAll(ps) == FrameAll(ps);
  }
}
