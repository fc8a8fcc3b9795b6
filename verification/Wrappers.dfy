/** The optional value used for nullable columns and missing rows. */
module Wrappers {
  datatype Option<+T> = None | Some(value: T)
}
