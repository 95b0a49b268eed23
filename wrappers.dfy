/** Option and Result, the shapes of Rust's `Option` and `anyhow::Result` used by the roster code. */
module Wrappers {

  datatype Option<+T> = None | Some(value: T)

  /** `anyhow::Result`: an error carries only its message. */
  datatype Result<+T> = Ok(value: T) | Err(message: string)
}
