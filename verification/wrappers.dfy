/** The optional-value datatype shared by the modules of this project. */
module Wrappers {

  /** A value that may be absent: JavaScript's `undefined` for a missing field. */
  datatype Option<+T> = None | Some(value: T)
}
