/** Values that may be missing. */
module Wrappers {
  datatype Option<+T> = None | Some(value: T)

  /** How a call ends: with a value, an error, or a panic at a failed assertion or a missing value. */
  datatype Outcome<+T> = Returns(value: T) | Fails | Panics
}
