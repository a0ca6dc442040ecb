/** Result types shared by the modules of this project. */
module Wrappers {
  datatype Option<+T> = None | Some(value: T)

  /** A Go `(value, error)` pair: error texts are not modelled, only that there is one. */
  datatype Result<+T> = Ok(value: T) | Err
}
