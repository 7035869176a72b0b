/** The optional value used wherever the source returns "nothing" or raises an error that is caught. */
module Wrappers {

  datatype Option<+T> = None | Some(value: T)
}
