/** Outcome types shared by every module. */
module Prelude {

  datatype Option<+T> = None | Some(value: T)

  /** A Python call that either returns or raises. */
  datatype Result<+T, +E> = Ok(value: T) | Err(error: E)
}
