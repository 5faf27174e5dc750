/** Option and outcome types shared by the model. */
module Wrappers {

  /** Rust's `Option`: a null pointer or an absent entry is `None`. */
  datatype Option<+T> = None | Some(value: T)

  /** How a call of the binding ends: it returns a value, or it panics
      (an `unwrap` on a failed conversion unwinds instead of returning). */
  datatype Outcome<+T> = Returns(value: T) | Panics
}
