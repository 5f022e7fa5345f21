/** The optional-value type used for session identities and lookup results. */
module Wrappers {

  /** `None` plays the role of Python's `None`/`False` results. */
  datatype Option<+T> = None | Some(value: T)
}
