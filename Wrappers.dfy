/** The optional value used for "no match" and "not a number" results. */
module Wrappers {
  datatype Option<T> = None | Some(value: T)
}
