/** Option, used for values the source may find absent. */
module Wrappers {
  datatype Option<+T> = None | Some(value: T)
}
