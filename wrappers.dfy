/** The optional value used for "no transaction" and for decodings that may fail. */
module Wrappers {

  datatype Option<T> = None | Some(value: T)
}
