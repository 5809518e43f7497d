/** Option and Result, the shapes the Rust source uses for missing values and errors. */
module Wrappers {

  datatype Option<+T> = None | Some(value: T)

  /** A Rust `Result<T, String>`: every error of the modelled core is a message. */
  datatype Result<+T> = Ok(value: T) | Err(msg: string)
}
