/** The optional value used for PHP's nullable results and for argument
    resolution that can fail. */
module Wrappers {

  datatype Option<+T> = None | Some(value: T)
}
