/** Failure-compatible wrappers shared by the whole model. */
module Wrappers {

  /** An optional value; `None` plays the part of JavaScript's `undefined`. */
  datatype Option<+T> = None | Some(value: T)

  /** Either a value or an error; used for the deserialiser's outcome. */
  datatype Result<+R, +E> = Success(value: R) | Failure(error: E)
}
