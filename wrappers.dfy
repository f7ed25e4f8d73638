/** The optional value used for request parameters, headers and generated identifiers
    that a request may leave out (JavaScript's `undefined`). */
module Wrappers {
  datatype Option<+T> = None | Some(value: T)
}
