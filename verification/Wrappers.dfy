/** An optional value: the source's nil pointers and absent map entries. */
module Wrappers {

  datatype Option<+T> = None | Some(value: T)
}
