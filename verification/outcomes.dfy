/**
 Small result types shared by the store and the screen models.
 */
module Outcomes {

  /** A value that may be missing (`null`/`undefined` in the program). */
  datatype Option<+T> = None | Some(value: T)

  /** What an awaited external call produced: a value, or a rejection/throw. */
  datatype Reply<+T> = Ok(value: T) | Fail
}
