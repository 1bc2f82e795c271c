/** Failure-carrying values shared by the modules of this model. */
module Wrappers {

  /** An optional value. */
  datatype Option<+T> = None | Some(value: T)

  /** The outcome of an operation that returns only an error:
      `Pass` stands for a nil error, `Fail(e)` for the non-nil error `e`. */
  datatype Outcome<+E> = Pass | Fail(error: E)
}
