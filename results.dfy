/** Rust's `Result` and `Option`, as the core uses them. */
module Results {

  /** `Result<T, E>`: `Ok(value)` or `Err(error)`; `?` returns the `Err` to the caller. */
  datatype Result<T, E> = Ok(value: T) | Err(error: E)

  /** `Option<T>`, as returned by `Vec::pop`. */
  datatype Option<T> = None | Some(value: T)
}
