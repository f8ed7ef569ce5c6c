/** Small shared datatypes. */
module Common {

  /** A value that may be missing: a file that cannot be opened, a line that does not decode. */
  datatype Option<+T> = None | Some(value: T)
}
