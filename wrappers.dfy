/** The optional value: a C pointer that may be NULL, or a lookup that may miss. */
module Wrappers {
  datatype Option<+T> = None | Some(value: T)
}
