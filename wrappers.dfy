/** The optional value used for operations that may fail without a reason of their own. */
module Wrappers {

  datatype Option<+T> = None | Some(value: T)

}
