/** An optional value, for undefined, null and thrown errors. */
module Wrappers {
  datatype Option<T> = None | Some(value: T)
}
