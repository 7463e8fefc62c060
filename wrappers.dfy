/** The optional value used for the fields a partially filled form may omit. */
module Wrappers {

  datatype Option<+T> = None | Some(value: T)
}
