// The conventional optional value, shared by the header and driver modules.

module Wrappers {

  datatype Option<T> = None | Some(value: T)

}
