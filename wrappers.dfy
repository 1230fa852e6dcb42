/** Failure-carrying values shared by the connection models. */
module Wrappers {

  /** Rust's `Option<T>`; usable with `:-`. */
  datatype Option<+T> = None | Some(value: T) {
    predicate IsFailure() { None? }

    function PropagateFailure<U>(): Option<U>
      requires None?
    {
      None
    }

    function Extract(): T
      requires Some?
    {
      value
    }
  }

  /** Rust's `Result<T, &'static str>`: the error is a static message. */
  datatype Result<+T> = Ok(value: T) | Err(error: string)
}
