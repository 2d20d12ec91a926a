/** Results of the controllers' helper functions. */
module Wrappers {

  datatype Option<+T> = None | Some(value: T)

  /** `Panic` stands for a Go run-time panic: a nil dereference or an index out of range. */
  datatype Result<+T> = Ok(value: T) | Err(message: string) | Panic
}
