/** Shared result types and the fixed-width integers of the source. */
module Basics {

  datatype Option<+T> = None | Some(value: T)

  /** A value or the error that replaced it; usable with `:-`. */
  datatype Result<+T, +E> = Ok(value: T) | Err(error: E) {
    predicate IsFailure() {
      Err?
    }

    function PropagateFailure<U>(): Result<U, E>
      requires Err?
    {
      Err(error)
    }

    function Extract(): T
      requires Ok?
    {
      value
    }
  }

  const TWO_31: int := 0x8000_0000
  const TWO_32: int := 0x1_0000_0000
  const TWO_63: int := 0x8000_0000_0000_0000
  const TWO_64: int := 0x1_0000_0000_0000_0000

  type byte = x: int | 0 <= x < 256
  type Bytes = seq<byte>

  type Int32 = x: int | -TWO_31 <= x < TWO_31
  type Int64 = x: int | -TWO_63 <= x < TWO_63
  type Uint64 = x: int | 0 <= x < TWO_64

  /** The lexicographic order, a prefix before all that it begins. */
  predicate Less(a: seq<int>, b: seq<int>) {
    b != [] && (a == [] || a[0] < b[0] || (a[0] == b[0] && Less(a[1..], b[1..])))
  }

  /** Conversion to an unsigned 64-bit word: reduction modulo 2^64. */
  function ToUint64(x: int): (r: Uint64)
    ensures 0 <= x < TWO_64 ==> r == x
  {
    x % TWO_64
  }

  /** Reading the low 64 bits as a two's complement number. */
  function ToInt64(x: int): (r: Int64)
    ensures -TWO_63 <= x < TWO_63 ==> r == x
  {
    var u := x % TWO_64;
    if u < TWO_63 then u else u - TWO_64
  }

  /** Reading the low 32 bits as a two's complement number. */
  function ToInt32(x: int): (r: Int32)
    ensures -TWO_31 <= x < TWO_31 ==> r == x
  {
    var u := x % TWO_32;
    if u < TWO_31 then u else u - TWO_32
  }
}
