/** The optional value shared by the other modules. */
module Wrappers {

  /** A value that may be absent: the model of a `T | null` result. */
  datatype Option<+T> = None | Some(value: T)
}
