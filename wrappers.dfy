/** Option and Result, the two failure shapes the source uses (`None` in Python, `Result<_, E>` in Rust). */
module Wrappers {

  datatype Option<+T> = None | Some(value: T)

  datatype Result<+R, +E> = Ok(value: R) | Err(error: E)
}
