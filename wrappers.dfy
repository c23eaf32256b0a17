/** Option and Result values used where the game returns `null` or throws. */
module Wrappers {

  datatype Option<+T> = None | Some(value: T)

  /** `Err` stands for a thrown JavaScript `Error` carrying its message. */
  datatype Result<+T, +E> = Ok(value: T) | Err(error: E)
}
