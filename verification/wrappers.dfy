/** The Option type used for a pool slot that may be empty and for a pool
    request that may come back with nothing. */
module Wrappers {

  datatype Option<+T> = None | Some(value: T)
}
