/** Failure-carrying values shared by every module of the model. Go's
    `(T, error)` pairs become `Result<T>`; the error is the message text the
    Go code builds with fmt.Errorf. */
module Wrappers {

  datatype Option<+T> = None | Some(value: T)

  datatype Result<+T> = Ok(value: T) | Err(error: string)

  /** The outcome of a Go function that returns only an `error`. */
  datatype Status = Done | Failed(error: string)
}
