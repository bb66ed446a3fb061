/** The optional value used wherever the source returns a value together with an error. */
module Wrappers {
  datatype Option<+T> = None | Some(value: T)
}
