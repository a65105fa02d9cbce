/** The optional value used wherever a database lookup can find nothing. */
module Wrappers {

  datatype Option<+T> = None | Some(value: T)
}
