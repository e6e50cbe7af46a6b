/** The one stock datatype every module needs: a value that may be absent. */
module Wrappers {

  datatype Option<+T> = None | Some(value: T)
}
