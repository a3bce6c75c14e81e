/** The optional value used wherever the program's initialisers can fail. */
module Wrappers {

  datatype Option<T> = None | Some(value: T)
}
