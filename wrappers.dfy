/** An optional value: a request header or form field that may be absent. */
module Wrappers {

  datatype Option<+T> = None | Some(value: T)
}
