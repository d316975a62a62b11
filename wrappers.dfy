/** The optional value used where the source has a nil-able or absent one. */
module Wrappers {
  datatype Option<+T> = None | Some(value: T)
}
