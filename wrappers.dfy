/** Option and Result, the two failure-carrying datatypes used across the model. */
module Wrappers {

  datatype Option<+T> = None | Some(value: T)

  /** The outcome of a step that the scripts may abort: `Ok` carries the value,
      `Err` the reason the script stops (an uncaught exception or a `sys.exit`). */
  datatype Result<+T> = Ok(value: T) | Err(reason: string)
}
