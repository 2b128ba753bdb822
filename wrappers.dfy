/** The optional value used for "null or a value" in the modelled code. */
module Wrappers {
  datatype Option<+T> = None | Some(value: T)
}
