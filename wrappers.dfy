/** Rust's `Option`, and the two ways a Rust computation can end: it returns a
    value, or it panics (`unwrap` on `None`, `expect`, `assert!`, `panic!`). */
module Wrappers {

  datatype Option<+T> = None | Some(value: T)

  datatype Outcome<+T> = Ok(value: T) | Panic(message: string)

  /** The panic message of `Option::unwrap` on `None`. */
  const UnwrapNone := "called `Option::unwrap()` on a `None` value"

  /** The panic message of `Result::unwrap` on `Err`. */
  const UnwrapErr := "called `Result::unwrap()` on an `Err` value"
}
