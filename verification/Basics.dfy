/** Small types shared by every model in this project. */
module Basics {

  /** A nullable column or an optional result. */
  datatype Option<+T> = None | Some(value: T)

  datatype Result<+T, +E> = Ok(value: T) | Err(error: E)

  type Byte = b: nat | b < 256

  /** Identifiers are 128-bit numbers in the database; only equality and order matter here. */
  type Uuid = nat

  /** Microseconds since an arbitrary origin. */
  type Time = int

  function Max(a: int, b: int): int {
    if a < b then b else a
  }
}
