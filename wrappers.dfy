/** The optional-value wrapper used where the source returns an empty dictionary or a missing value. */
module Wrappers {

  datatype Option<+T> = None | Some(value: T)
}
