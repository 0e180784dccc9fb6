/** The optional value used for absent arguments and absent lookups. */
module Wrappers {

  datatype Option<T> = None | Some(value: T)
}
