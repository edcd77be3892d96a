/** The two result shapes the models share. */
module Outcomes {
  /** A value the source returns as null or undefined when it is missing. */
  datatype Option<+T> = None | Some(value: T) {
    function UnwrapOr(fallback: T): T {
      if Some? then value else fallback
    }
  }

  /** A return value or a thrown error, the error named by its code. */
  datatype Result<+T, +E> = Ok(value: T) | Err(error: E)
}
