/** The optional value used for a field that may be missing. */
module Wrappers {

  datatype Option<+T> = None | Some(value: T)

}
