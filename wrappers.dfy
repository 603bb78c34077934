/** The optional value used for fields that a partial record may leave out. */
module Wrappers {
  datatype Option<+T> = None | Some(value: T)
}
