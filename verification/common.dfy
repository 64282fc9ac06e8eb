/** Machine integer ranges, an optional value and the Zephyr error numbers used by the core. */
module Common {

  /** `uint8_t` */
  type u8 = x: int | 0 <= x < 0x100

  /** `uint16_t` */
  type u16 = x: int | 0 <= x < 0x1_0000

  /** A value that may be absent (a C pointer that may be NULL). */
  datatype Option<+T> = None | Some(value: T)

  /** Zephyr's errno values for the codes the core returns. */
  const EIO: int := 5
  const EINVAL: int := 22
  const ENOSYS: int := 88

  function Min(a: int, b: int): int
  {
    if a <= b then a else b
  }

  /** Concatenation regroups freely; a named step for proofs about concatenated lists. */
  lemma Associative<T>(a: seq<T>, b: seq<T>, c: seq<T>)
    ensures a + (b + c) == (a + b) + c
  {
  }
}
