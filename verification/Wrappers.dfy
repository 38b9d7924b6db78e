/** The two result shapes the services return: an optional row, and a value or a thrown error. */
module Wrappers {
  datatype Option<+T> = None | Some(value: T)

  datatype Result<+T, +E> = Ok(value: T) | Err(error: E)

  // COALESCE of a given value and the column's.
  function Coalesce<T>(given: Option<T>, column: T): T {
    if given.Some? then given.value else column
  }
}
