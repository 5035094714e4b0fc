/** The optional value used wherever the C code returns NULL or an error code instead of a result. */
module Wrappers {
  datatype Option<+T> = None | Some(value: T)
}
