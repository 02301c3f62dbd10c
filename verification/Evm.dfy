/** Machine integers, addresses and byte strings of the EVM. */
module Evm {
  const TWO_48: int := 0x1_0000_0000_0000
  const TWO_64: int := 0x1_0000_0000_0000_0000
  const TWO_96: int := 0x1_0000_0000_0000_0000_0000_0000
  const TWO_112: int := 0x1_0000_0000_0000_0000_0000_0000_0000
  const TWO_120: int := 0x1_0000_0000_0000_0000_0000_0000_0000_00
  const TWO_160: int := 0x1_0000_0000_0000_0000_0000_0000_0000_0000_0000_0000
  const TWO_256: int := 0x1_0000_0000_0000_0000_0000_0000_0000_0000_0000_0000_0000_0000_0000_0000_0000_0000

  type byte = x: int | 0 <= x < 0x100
  type bytes = s: seq<byte> | |s| < TWO_64

  type uint32 = x: int | 0 <= x < 0x1_0000_0000
  type uint48 = x: int | 0 <= x < TWO_48
  type uint96 = x: int | 0 <= x < TWO_96
  type uint112 = x: int | 0 <= x < TWO_112
  type uint256 = x: int | 0 <= x < TWO_256

  type Address = x: int | 0 <= x < TWO_160

  /** The gas counter of a transaction; clients keep it in 64 bits. */
  type Gas = x: int | 0 <= x < TWO_64

  const ZERO_ADDRESS: Address := 0

  /** Arithmetic inside an `unchecked` block. */
  function Wrap(x: int): uint256 {
    x % TWO_256
  }

  /** Truncating casts. */
  function ToUint48(x: int): uint48 {
    x % TWO_48
  }

  function ToUint112(x: int): uint112 {
    x % TWO_112
  }

  function Min(a: int, b: int): int {
    if a < b then a else b
  }

  datatype Option<+T> = None | Some(value: T) {
    predicate IsFailure() {
      None?
    }

    function PropagateFailure<U>(): Option<U>
      requires None?
    {
      None
    }

    function Extract(): T
      requires Some?
    {
      value
    }
  }

  datatype Result<+T, +E> = Ok(value: T) | Err(error: E) {
    predicate IsFailure() {
      Err?
    }

    function PropagateFailure<U>(): Result<U, E>
      requires Err?
    {
      Err(error)
    }

    function Extract(): T
      requires Ok?
    {
      value
    }
  }
}
