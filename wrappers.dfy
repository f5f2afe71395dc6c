/** The optional value used wherever the program holds a possibly-null owning or
    non-owning pointer. */
module Wrappers {

  datatype Option<+T> = None | Some(value: T)
}
