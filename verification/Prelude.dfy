/** Value types shared by the modules. */
module Prelude {
  datatype Option<+T> = None | Some(value: T)

  datatype Result<+T, +E> = Ok(value: T) | Err(error: E)

  /** An element of a `Uint8Array`. */
  newtype byte = b: int | 0 <= b < 256
}
