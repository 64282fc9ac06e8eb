/**
 The transport a session is wired to (`struct ingestion_transport`): a `write` callback
 that reports either an error or how many of the offered bytes it wrote.
 */
module Transport {
  import opened Common

  /** What a `write` call reports. */
  datatype WriteResult =
    | WriteFailed(code: int)   // a negative error code
    | Wrote(count: nat)        // this many bytes of the offer were written

  /**
   The meaning of a value returned by `write` for an offer of `len` bytes: negative is an
   error, otherwise a byte count. A count above `len` breaks the callback's contract and
   has no meaning.
   */
  function Interpret(rc: int, len: u16): (r: Option<WriteResult>)
    ensures r.Some? <==> rc <= len
    ensures r.Some? && r.value.WriteFailed? <==> rc < 0
    ensures r.Some? && r.value.Wrote? ==> r.value.count <= len && r.value.count as int == rc
  {
    if rc < 0 then Some(WriteFailed(rc))
    else if rc <= len then Some(Wrote(rc))
    else None
  }

  /** The value a conforming `write` returns for each meaning. */
  function Encode(w: WriteResult): int
  {
    match w
    case WriteFailed(code) => code
    case Wrote(count) => count
  }

  /** A meaning a conforming `write` can report for an offer of `len` bytes. */
  predicate Conforming(w: WriteResult, len: u16)
  {
    match w
    case WriteFailed(code) => code < 0
    case Wrote(count) => count <= len
  }

  /** Reading back a conforming result gives that result, and nothing else reads back. */
  lemma InterpretEncode(w: WriteResult, len: u16)
    ensures Interpret(Encode(w), len) == Some(w) <==> Conforming(w, len)
  {
  }
}
