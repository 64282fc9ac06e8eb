/**
 The wire format of the command channel: every payload travels behind a 2-byte big-endian
 length. `Frame` writes one payload; `Deframe` is the reference reading of a byte stream,
 independent of any buffering: the complete payloads it carries, in order, and the tail
 that does not yet hold a complete frame.
 */
module Framing {
  import opened Common

  /** The length a 2-byte big-endian prefix declares. */
  function DeclaredLength(high: u8, low: u8): (n: u16)
    ensures n / 256 == high && n % 256 == low
  {
    high * 256 + low
  }

  /** A payload preceded by its length, high byte first. */
  function Frame(p: seq<u8>): (f: seq<u8>)
    requires |p| < 0x1_0000
    ensures |f| == |p| + 2 && f[2..] == p
    ensures DeclaredLength(f[0], f[1]) == |p|
  {
    [|p| / 256, |p| % 256] + p
  }

  /** Frames laid back to back. */
  function FrameAll(ps: seq<seq<u8>>): seq<u8>
    requires forall i | 0 <= i < |ps| :: |ps[i]| < 0x1_0000
  {
    if ps == [] then [] else Frame(ps[0]) + FrameAll(ps[1..])
  }

  /** True when `stream` starts with a complete frame. */
  predicate HasFrame(stream: seq<u8>)
  {
    2 <= |stream| && 2 + DeclaredLength(stream[0], stream[1]) <= |stream|
  }

  /**
   The payloads of the complete frames at the start of `stream`, and the unread tail.
   */
  function Deframe(stream: seq<u8>): (r: (seq<seq<u8>>, seq<u8>))
    ensures !HasFrame(r.1)
    ensures r.0 == [] <==> !HasFrame(stream)
    ensures r.0 == [] ==> r.1 == stream
    decreases |stream|
  {
    if !HasFrame(stream) then ([], stream)
    else
      var n := DeclaredLength(stream[0], stream[1]);
      var rest := Deframe(stream[2 + n..]);
      ([stream[2..2 + n]] + rest.0, rest.1)
  }

  /** Reading a frame yields its payload and leaves exactly what followed it. */
  lemma DeframeFrame(p: seq<u8>, rest: seq<u8>)
    requires |p| < 0x1_0000
    ensures Deframe(Frame(p) + rest) == ([p] + Deframe(rest).0, Deframe(rest).1)
  {
    var s := Frame(p) + rest;
    assert s[0] == Frame(p)[0] && s[1] == Frame(p)[1];
    assert s[2..2 + |p|] == p;
    assert s[2 + |p|..] == rest;
  }

  /** Round trip: reading frames laid back to back gives back every payload, nothing left over. */
  lemma {:induction false} DeframeFrameAll(ps: seq<seq<u8>>)
    requires forall i | 0 <= i < |ps| :: |ps[i]| < 0x1_0000
    ensures Deframe(FrameAll(ps)) == (ps, [])
  {
    if ps != [] {
      DeframeFrameAll(ps[1..]);
      DeframeFrame(ps[0], FrameAll(ps[1..]));
      assert [ps[0]] + ps[1..] == ps;
    }
  }

  /**
   Reading is independent of how the stream is cut: reading `a + b` is reading `a`, then
   reading what `a` left over followed by `b`.
   */
  lemma {:induction false} DeframeAppend(a: seq<u8>, b: seq<u8>)
    ensures Deframe(a + b).0 == Deframe(a).0 + Deframe(Deframe(a).1 + b).0
    ensures Deframe(a + b).1 == Deframe(Deframe(a).1 + b).1
    decreases |a|
  {
    if HasFrame(a) {
      var n := DeclaredLength(a[0], a[1]);
      var tail := a[2 + n..];
      FirstFrameOfAppend(a, b);
      DeframeAppend(tail, b);
      Associative([a[2..2 + n]], Deframe(tail).0, Deframe(Deframe(tail).1 + b).0);
    }
  }

  /** The first frame of `a` is also the first frame of `a + b`, followed by the rest of `a` and `b`. */
  lemma FirstFrameOfAppend(a: seq<u8>, b: seq<u8>)
    requires HasFrame(a)
    ensures var n := DeclaredLength(a[0], a[1]);
            && Deframe(a) == ([a[2..2 + n]] + Deframe(a[2 + n..]).0, Deframe(a[2 + n..]).1)
            && Deframe(a + b) == ([a[2..2 + n]] + Deframe(a[2 + n..] + b).0, Deframe(a[2 + n..] + b).1)
  {
    var n := DeclaredLength(a[0], a[1]);
    var ab := a + b;
    assert ab[0] == a[0] && ab[1] == a[1];
    assert HasFrame(ab);
    assert ab[2..2 + n] == a[2..2 + n];
    assert ab[2 + n..] == a[2 + n..] + b;
  }

  /**
   Reading `stream` yields `packets` and then whatever reading `rest` yields: the
   relation between a backlog before and after some bytes of it were delivered.
   */
  predicate Yields(stream: seq<u8>, packets: seq<seq<u8>>, rest: seq<u8>)
  {
    Deframe(stream).0 == packets + Deframe(rest).0 && Deframe(stream).1 == Deframe(rest).1
  }

  /** Bytes arriving later do not change what was already read. */
  lemma YieldsAppend(stream: seq<u8>, packets: seq<seq<u8>>, rest: seq<u8>, more: seq<u8>)
    requires Yields(stream, packets, rest)
    ensures Yields(stream + more, packets, rest + more)
  {
    DeframeAppend(stream, more);
    DeframeAppend(rest, more);
    Associative(packets, Deframe(rest).0, Deframe(Deframe(rest).1 + more).0);
  }

  lemma YieldsTransitive(a: seq<u8>, p: seq<seq<u8>>, b: seq<u8>, q: seq<seq<u8>>, c: seq<u8>)
    requires Yields(a, p, b) && Yields(b, q, c)
    ensures Yields(a, p + q, c)
  {
    Associative(p, q, Deframe(c).0);
  }

  /** The unread tail is never longer than the stream. */
  lemma {:induction false} DeframeShrinks(stream: seq<u8>)
    ensures |Deframe(stream).1| <= |stream|
    decreases |stream|
  {
    if HasFrame(stream) {
      DeframeShrinks(stream[2 + DeclaredLength(stream[0], stream[1])..]);
    }
  }

  /**
   Chaining: reading `a + x` yields `p` leaving `b`; reading `b + y` yields `q` leaving `c`;
   so reading `a + (x + y)` yields `p + q` leaving `c`.
   */
  lemma YieldsThen(a: seq<u8>, x: seq<u8>, y: seq<u8>, p: seq<seq<u8>>, b: seq<u8>, q: seq<seq<u8>>, c: seq<u8>)
    requires Yields(a + x, p, b) && Yields(b + y, q, c)
    ensures Yields(a + (x + y), p + q, c)
  {
    YieldsAppend(a + x, p, b, y);
    YieldsTransitive(a + x + y, p, b + y, q, c);
    assert a + x + y == a + (x + y);
  }
}
