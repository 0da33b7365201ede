/** Failure-carrying wrappers shared by every module of the model. */
module Basics {

  /** Python's `None`-or-value, PHP's `null`-or-value. */
  datatype Option<+T> = None | Some(value: T)

  /** The outcome of a foreign call that may raise: a value or the exception's text. */
  datatype Result<+T, +E> = Ok(value: T) | Err(error: E)

  /** Python truthiness of an optional string: `None` and `""` are both false. */
  predicate Present(o: Option<string>) {
    o.Some? && o.value != ""
  }
}
