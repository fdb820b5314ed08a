/** A value that may be absent: the original's nil, or the error of a decoder. */
module Wrappers {
  datatype Option<+T> = None | Some(value: T)
}
