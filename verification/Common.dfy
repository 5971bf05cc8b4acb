/** Types and integer conversions shared by every module. */
module Common {

  datatype Option<+T> = None | Some(value: T)

  /** The outcome of a reader operation: the source prints a message and exits instead of failing. */
  datatype Result<+T, +E> = Success(value: T) | Failure(error: E) {
    predicate IsFailure() {
      Failure?
    }

    function PropagateFailure<U>(): Result<U, E>
      requires Failure?
    {
      Failure(error)
    }

    function Extract(): T
      requires Success?
    {
      value
    }
  }

  type Byte = b: int | 0 <= b < 0x100
  type Bytes = seq<Byte>

  const TWO_16 := 0x1_0000
  const TWO_31 := 0x8000_0000
  const TWO_32 := 0x1_0000_0000

  /** The unsigned 32-bit integers: ticks and frames. */
  type Word = w: int | 0 <= w < TWO_32

  /** Conversion to an unsigned 32-bit integer. */
  function U32(x: int): Word {
    x % TWO_32
  }

  /** Conversion to a signed 32-bit integer (two's complement). */
  function Int32(x: int): int {
    if x % TWO_32 < TWO_31 then x % TWO_32 else x % TWO_32 - TWO_32
  }

  /** Conversion to a signed 16-bit integer (the source's `short`). */
  function Int16(x: int): int {
    if x % TWO_16 < 0x8000 then x % TWO_16 else x % TWO_16 - TWO_16
  }

  function Min(a: nat, b: nat): nat {
    if a < b then a else b
  }
}
