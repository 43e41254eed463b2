/** The optional value used for Python's `None`-or-value variables. */
module Wrappers {
  datatype Option<T> = None | Some(value: T)
}
