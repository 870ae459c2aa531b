/** Small shared datatypes. */
module Wrappers {

  /** A value that may be absent: a JavaScript `null`, a missing storage key. */
  datatype Option<+T> = None | Some(value: T)

  /** The result of a call that may throw. */
  datatype Outcome<+T> = Ok(value: T) | Throws
}
