/** Failure-carrying values. A Go `error` is represented by its message. */
module Wrappers {

  datatype Option<+T> = None | Some(value: T)

  /** A value, or the message of the error returned in its place. */
  datatype Result<+T> = Ok(value: T) | Err(error: string)

  /** The outcome of a call that returns only an `error`. */
  datatype Outcome = Pass | Fail(error: string)

  /** A string-to-float parser (`strconv.ParseFloat`, `utils.ParseFloat`): outside the model. */
  type Parser = string -> Result<real>
}
