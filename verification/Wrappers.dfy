/** The optional value, and the answer of a call that may raise. */
module Wrappers {
  datatype Option<T> = None | Some(value: T)

  /** A call that raises, or returns a value. */
  datatype Call<T> = Raised | Gave(value: T)
}
