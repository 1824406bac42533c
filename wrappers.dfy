/** The optional value used wherever the source has `None` or a call that may raise. */
module Wrappers {
  datatype Option<+T> = None | Some(value: T)
}
