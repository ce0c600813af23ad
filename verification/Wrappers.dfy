/** The optional-value datatype used for the session's stored fields. */
module Wrappers {

  /** A value that may be absent; `None` stands for a key missing from a Python dict. */
  datatype Option<+T> = None | Some(value: T)
}
