/** Option and Result, the two outcome shapes used throughout the model.
    A TypeScript `throw new Error(message)` (or a rethrown library error)
    becomes `Err(message)`; a returned value becomes `Ok(value)`. */
module Wrappers {

  datatype Option<+T> = None | Some(value: T)

  datatype Result<+T> = Ok(value: T) | Err(error: string)

  /** The unit value returned by `Promise<void>` operations. */
  datatype Unit = Unit
}
