/** Outcome types shared by every module of the model.
    - `Option` mirrors Rust's `Option`, used for iterator pulls.
    - `Result` mirrors Rust's `Result`, used for recoverable errors.
    - `Outcome` separates a value that was returned from a `panic!`
      (an unrecoverable abort), so that panics are stated rather than assumed away.
 */
module Results {

  datatype Option<+T> = None | Some(value: T)

  datatype Result<+T, +E> = Ok(value: T) | Err(error: E)

  datatype Outcome<+T> = Returned(value: T) | Panicked(message: string)
}
