/** Option and Result, as the Rust code uses them. */
module Wrappers {

  datatype Option<+T> = None | Some(value: T)

  datatype Result<+T, +E> = Ok(value: T) | Err(error: E)

  /** The panic message of `Option::unwrap` on `None`. */
  const UnwrapOnNone: string := "called `Option::unwrap()` on a `None` value"
}
