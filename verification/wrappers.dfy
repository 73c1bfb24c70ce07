/** Values shared by every module: optional values, errors and results.

    Go signals absence with a (value, bool) pair or a nil error; the model uses
    `Option` for the nil-or-something cases and `Result` for (value, error) pairs. */
module Wrappers {

  datatype Option<+T> = None | Some(value: T)

  /** A non-nil Go `error`; the message stands for its text. */
  datatype Error = Error(message: string)

  /** A Go (value, error) pair in which exactly one side matters. */
  datatype Result<+T> = Ok(value: T) | Err(error: Error)
}
