/** Option: an absent value (Java's null) or a remote call that threw. */
module Wrappers {

  datatype Option<+T> = None | Some(value: T)
}
