/** Optional values, standing in for Go's nil pointers, nil maps and nil errors. */
module Wrappers {

  datatype Option<+T> = None | Some(value: T)
}
