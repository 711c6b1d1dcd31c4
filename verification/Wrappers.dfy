/** The result types and the byte type shared by the other modules. */
module Wrappers {

  datatype Option<+T> = None | Some(value: T) {
    /** The carried value, or `other` when there is none. */
    function UnwrapOr(other: T): T {
      match this
      case Some(v) => v
      case None => other
    }
  }

  datatype Result<+T, +E> = Ok(value: T) | Err(error: E)

  /** An octet. */
  type Byte = x: int | 0 <= x < 256
}
