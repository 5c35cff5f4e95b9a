/** The optional value used for "no character" (end of input) and "no token". */
module Wrappers {
  datatype Option<+T> = None | Some(value: T)
}
