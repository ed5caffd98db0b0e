/** The Option datatype, standing for the source's nil pointers and error returns without a value. */
module Wrappers {
  datatype Option<+T> = None | Some(value: T)
}
