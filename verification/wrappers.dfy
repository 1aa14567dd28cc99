/** The optional values used by every other module. */
module Wrappers {
  datatype Option<+T> = None | Some(value: T)
}
