/** Failure-carrying datatypes shared by the services: a value that may be
    absent (the source's `null`), a value or an error (a thrown `Error`),
    and a bare success/failure. */
module Wrappers {

  /** `null` in the source becomes `None`. */
  datatype Option<+T> = None | Some(value: T)

  /** A call that either returns `value` or throws `error`. */
  datatype Result<+T, +E> = Success(value: T) | Failure(error: E)

  /** A call that returns nothing or throws `error`. */
  datatype Outcome<+E> = Pass | Fail(error: E)
}
