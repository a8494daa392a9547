/** The outcome of a computation that may produce no value. */
module Wrappers {
  datatype Option<T> = None | Some(value: T)
}
