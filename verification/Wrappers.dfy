/** Optional values and outcomes shared by the component models. */
module Wrappers {

  datatype Option<+T> = None | Some(value: T)

  datatype Result<+T, +E> = Ok(value: T) | Err(error: E)

  /** An eight-bit unsigned byte. */
  newtype byte = x: int | 0 <= x < 256

  type Bytes = seq<byte>
}
