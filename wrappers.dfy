/** Small failure-carrying datatypes shared by the whole model. */
module Wrappers {

  /** A value or its absence: the model of JavaScript's `null`/`undefined` results. */
  datatype Option<+T> = None | Some(value: T)

  /** Success, or the message of the `Error` the source throws. */
  datatype Outcome = Pass | Fail(message: string)
}
