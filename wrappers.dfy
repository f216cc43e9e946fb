/** The optional value used for the program's soft failures (a file that does not open,
    a line that does not parse). */
module Wrappers {
  datatype Option<+T> = None | Some(value: T)
}
