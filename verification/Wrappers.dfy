/** The optional value shared by the models of this project. */
module Wrappers {

  datatype Option<+T> = None | Some(value: T)
}
