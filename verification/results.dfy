/** Rust-style `Option` and `Result` used for the outcomes of systems and handlers. */
module Results {

  datatype Option<+T> = None | Some(value: T)

  /** `Ok` / `Err`, as the server's systems and packet handlers report them. */
  datatype Result<+T, +E> = Ok(value: T) | Err(error: E)
}
