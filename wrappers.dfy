/** Option and Result, the two failure-carrying shapes the pipeline passes around. */
module Wrappers {

  datatype Option<+T> = None | Some(value: T)

  /** The error a remote call reports (an `anyhow::Error` in the source). */
  datatype Error = Error(reason: string)

  datatype Result<+T> = Ok(value: T) | Err(error: Error)
}
