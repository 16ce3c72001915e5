/** The optional value used for PHP's omitted arguments and for "no match". */
module Wrappers {

  datatype Option<+T> = None | Some(value: T)
}
