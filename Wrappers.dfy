/** Option, for the lookups of the program that raise KeyError or IndexError. */
module Wrappers {

  datatype Option<+T> = None | Some(value: T)

}
