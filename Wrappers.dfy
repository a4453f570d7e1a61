/** Small failure-carrying datatypes shared by the other modules. */
module Wrappers {

  /** A value that may be absent (Python's `None`). */
  datatype Option<+T> = None | Some(value: T)

  /** The outcome of evaluating a Python expression: it returns a value or raises. */
  datatype Py<+T> = Returns(value: T) | Raises

  /** Bytes as the integers 0..255. */
  type byte = x: int | 0 <= x < 0x100
}
