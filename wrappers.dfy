/** The optional value used for absent form fields, document fields and parse failures. */
module Wrappers {

  datatype Option<+T> = None | Some(value: T)
}
