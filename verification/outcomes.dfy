/** Wrappers for an absent value (JavaScript's `undefined`)
    and the outcome of a call that may throw. */
module Outcomes {

  /** `None` stands for JavaScript's `undefined`. */
  datatype Option<+T> = None | Some(value: T)

  /** `Ok` carries a returned value, `Err` an exception thrown by the call. */
  datatype Result<+T, +E> = Ok(value: T) | Err(error: E)
}
