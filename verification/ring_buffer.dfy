/**
 The byte ring buffer the ingestion engine is built on (Zephyr's `struct ring_buf`), as seen
 through the calls the core makes: `ring_buf_init`, `ring_buf_put`, `ring_buf_get`,
 `ring_buf_get_claim`, `ring_buf_get_finish`, `ring_buf_size_get` and `ring_buf_reset`.

 A buffer is the FIFO sequence of its unread bytes, the index of the first of them in the
 backing array, and how many of them are claimed but not yet finished. The index matters
 because a zero-copy claim only hands out bytes that are contiguous in that array; the
 claim count matters because each claim starts where the previous unfinished one ended.
 The unread bytes are what `ring_buf_size_get` counts, claimed ones included.
 */
module RingBuffer {
  import opened Common

  datatype RingBuf = RingBuf(capacity: nat, data: seq<u8>, head: nat, claimed: nat)
  {
    /** Never more unread bytes than slots, the read index inside the backing array, and
        never more bytes claimed than are unread. */
    predicate Valid()
    {
      0 < capacity && |data| <= capacity && head < capacity && claimed <= |data|
    }
  }

  /** `ring_buf_init`: an empty buffer over a backing array of `capacity` bytes. */
  function Init(capacity: nat): (rb: RingBuf)
    requires 0 < capacity
    ensures rb.Valid() && rb.capacity == capacity
    ensures rb.data == [] && rb.claimed == 0
  {
    RingBuf(capacity, [], 0, 0)
  }

  /** `ring_buf_reset`: drops every unread byte and outstanding claim and rewinds the indices. */
  function Reset(rb: RingBuf): (r: RingBuf)
    requires rb.Valid()
    ensures r.Valid() && r.capacity == rb.capacity
    ensures r.data == [] && r.head == 0 && r.claimed == 0
  {
    RingBuf(rb.capacity, [], 0, 0)
  }

  /**
   `ring_buf_put`: stores the longest prefix of `bytes` that fits in the free space and
   returns how many bytes that was. Claimed bytes still occupy their slots, and nothing
   already buffered is overwritten.
   */
  function Put(rb: RingBuf, bytes: seq<u8>): (r: (RingBuf, nat))
    requires rb.Valid()
    ensures r.0.Valid() && r.0.capacity == rb.capacity
    ensures r.0.head == rb.head && r.0.claimed == rb.claimed
    ensures r.1 <= |bytes|
    ensures r.0.data == rb.data + bytes[..r.1]
    ensures r.1 < |bytes| <==> |rb.data| + |bytes| > rb.capacity
    ensures r.1 < |bytes| ==> |r.0.data| == rb.capacity
  {
    var n := Min(|bytes|, rb.capacity - |rb.data|);
    (RingBuf(rb.capacity, rb.data + bytes[..n], rb.head, rb.claimed), n)
  }

  /** The index in the backing array of the first unread byte not yet claimed. */
  function ClaimStart(rb: RingBuf): (i: nat)
    requires rb.Valid()
    ensures i < rb.capacity
    ensures i == rb.head + rb.claimed || i + rb.capacity == rb.head + rb.claimed
  {
    var i := rb.head + rb.claimed;
    if i < rb.capacity then i else i - rb.capacity
  }

  /**
   `ring_buf_get_claim`: a zero-copy view of at most `n` unread bytes, starting after the
   bytes already claimed, and the buffer with those bytes claimed too. The view never
   crosses the end of the backing array, so it can be shorter than requested although
   enough bytes are buffered.
   */
  function Claim(rb: RingBuf, n: nat): (r: (seq<u8>, RingBuf))
    requires rb.Valid()
    ensures r.1.Valid() && r.1 == rb.(claimed := rb.claimed + |r.0|)
    ensures r.0 == rb.data[rb.claimed..rb.claimed + |r.0|]
    ensures |r.0| <= n && ClaimStart(rb) + |r.0| <= rb.capacity
    ensures |r.0| == n <==> n <= |rb.data| - rb.claimed && ClaimStart(rb) + n <= rb.capacity
    ensures |r.0| < n ==> rb.claimed + |r.0| == |rb.data| || ClaimStart(rb) + |r.0| == rb.capacity
  {
    var k := Min(n, Min(|rb.data| - rb.claimed, rb.capacity - ClaimStart(rb)));
    (rb.data[rb.claimed..rb.claimed + k], rb.(claimed := rb.claimed + k))
  }

  /**
   `ring_buf_get_finish`: releases the first `n` unread bytes and gives back every other
   claim; the read index moves `n` slots on, around the end of the backing array. More
   bytes than were claimed cannot be released: that is `-EINVAL` and changes nothing.
   */
  function Finish(rb: RingBuf, n: nat): (r: (int, RingBuf))
    requires rb.Valid()
    ensures r.0 == 0 <==> n <= rb.claimed
    ensures r.0 != 0 ==> r.0 == -EINVAL && r.1 == rb
    ensures r.0 == 0 ==> r.1.Valid() && r.1.capacity == rb.capacity && r.1.claimed == 0
    ensures r.0 == 0 ==> rb.data == rb.data[..n] + r.1.data
    ensures r.0 == 0 ==> r.1.head == rb.head + n || r.1.head + rb.capacity == rb.head + n
  {
    if n > rb.claimed then (-EINVAL, rb)
    else
      var h := rb.head + n;
      (0, RingBuf(rb.capacity, rb.data[n..], if h < rb.capacity then h else h - rb.capacity, 0))
  }

  /**
   `ring_buf_get`: copies out up to `n` unread bytes and releases them. It claims twice,
   once up to the end of the backing array and once from its start (a further claim
   would find nothing), then finishes everything it claimed. Zephyr does not support
   mixing it with an outstanding claim.
   */
  function Get(rb: RingBuf, n: nat): (r: (seq<u8>, RingBuf))
    requires rb.Valid() && rb.claimed == 0
    ensures r.1.Valid() && r.1.capacity == rb.capacity && r.1.claimed == 0
    ensures |r.0| == Min(n, |rb.data|)
    ensures r.0 + r.1.data == rb.data
    ensures r.1.head == rb.head + |r.0| || r.1.head + rb.capacity == rb.head + |r.0|
  {
    var (first, rb1) := Claim(rb, n);
    var (second, rb2) := Claim(rb1, n - |first|);
    assert first + second == rb.data[..|first| + |second|];
    (first + second, Finish(rb2, |first| + |second|).1)
  }

  /** When the requested bytes do not wrap, the copying read hands out exactly one claim. */
  lemma GetAgreesWithClaim(rb: RingBuf, n: nat)
    requires rb.Valid() && rb.claimed == 0 && n <= |rb.data| && rb.head + n <= rb.capacity
    ensures Get(rb, n).0 == Claim(rb, n).0
    ensures Get(rb, n).1 == Finish(Claim(rb, n).1, n).1
  {
  }

  /** Claims follow one another: a second claim continues where the first one stopped. */
  lemma ClaimsFollow(rb: RingBuf, n: nat, m: nat)
    requires rb.Valid()
    ensures var (a, rb1) := Claim(rb, n);
            var (b, rb2) := Claim(rb1, m);
            a + b == rb.data[rb.claimed..rb2.claimed] && rb2.claimed == rb.claimed + |a| + |b|
  {
  }

  /** FIFO round trip: whatever `Put` accepted into an empty buffer, `Get` returns in order. */
  lemma PutThenGet(rb: RingBuf, bytes: seq<u8>)
    requires rb.Valid() && rb.data == []
    ensures Get(Put(rb, bytes).0, |bytes|).0 == bytes[..Min(|bytes|, rb.capacity)]
    ensures Get(Put(rb, bytes).0, |bytes|).1.data == []
  {
  }
}
