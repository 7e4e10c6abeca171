/** The optional-value datatype shared by the modules of this project. */
module Wrappers {

  /** A value that may be absent: Go's nil interface or a failed `ok` lookup. */
  datatype Option<+T> = None | Some(value: T)
}
