/**
 * The optional value shared by the modules of this model: Go's nil pointer,
 * nil error or nil slice on one side, a present value on the other.
 */
module Wrappers {

  datatype Option<T> = None | Some(value: T)
}
