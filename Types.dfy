/** Values shared by the vector model: bytes, element slots, and the outcomes of operations. */
module VectorTypes {

  /** The `unsigned char` the buffer is made of. */
  newtype byte = x: int | 0 <= x < 256

  /** The bytes of one element: `element_size` of them in a well-formed vector. */
  type Slot = seq<byte>

  /** The three ways an operation panics in vector.h, one per diagnostic message. */
  datatype Error =
    | OutOfRange        // "Vector subscript is out of range!"
    | EmptyVector       // "Can't pop on an empty vector!"
    | AllocationFailed  // "Couldn't allocate a new memory chunk!"

  /** The result of an operation that yields a value, or the panic it raised instead. */
  datatype Result<T> = Ok(value: T) | Err(error: Error)

  /** The result of an operation that yields nothing but may panic. */
  datatype Outcome = Pass | Fail(error: Error)

  /**
   * What `malloc`/`realloc` answered: no memory (NULL), or a block whose bytes
   * beyond the preserved prefix read `junk` (they are indeterminate in C).
   */
  datatype Allocation = Refused | Granted(junk: byte)

  /** A slot of `width` bytes that all equal `b`. */
  function Fill(width: nat, b: byte): (s: Slot)
    ensures |s| == width
  {
    seq(width, _ => b)
  }

  /** The bytes `memcpy` copies out of a NULL argument: all zero. */
  function Zeros(width: nat): Slot {
    Fill(width, 0)
  }

  function Min(a: int, b: int): int {
    if a < b then a else b
  }
}
