/** Absent values and thrown exceptions of the JavaScript source, as values. */
module Wrappers {

  datatype Option<+T> = None | Some(value: T)

  /** The outcome of a call that may `throw`: either it returns a value or it throws a message. */
  datatype Result<+T> = Ok(value: T) | Thrown(message: string)
}
