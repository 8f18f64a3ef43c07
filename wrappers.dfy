/** Wrappers shared by the model: an optional value (Java's
    null) and a value-or-error outcome (Java's exceptions). */
module Wrappers {

  datatype Option<+T> = None | Some(value: T)

  datatype Result<+R, +E> = Success(value: R) | Failure(error: E)
}
