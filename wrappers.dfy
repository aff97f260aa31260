/** The optional value used for a parser that may fail on a file. */
module Wrappers {

  datatype Option<+T> = None | Some(value: T)

}
