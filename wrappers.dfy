/** An optional value: the result of an operation that may find nothing, and
    the error slot of an operation that may raise. */
module Wrappers {
  datatype Option<T> = None | Some(value: T)
}
