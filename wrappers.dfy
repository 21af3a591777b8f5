/** The optional value used wherever the source tests a property that may be `undefined`. */
module Wrappers {

  datatype Option<+T> = None | Some(value: T)
}
