/** Option and Result, used for the library calls and exceptions of the compiler. */
module Wrappers {

  datatype Option<+T> = None | Some(value: T)

  /** The outcome of an operation that can throw: `Err` names the C++ exception. */
  datatype Result<+T> = Ok(value: T) | Err(error: string)
}
