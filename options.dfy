/** Option and Result, standing in for Rust's `Option<T>` and `Result<T, E>`. */
module Options {

  datatype Option<+T> = None | Some(value: T)

  datatype Result<+T, +E> = Ok(value: T) | Err(error: E)
}
