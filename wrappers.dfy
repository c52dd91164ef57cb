/** Option stands in for the nullable references and nullable values of the source. */
module Wrappers {

  datatype Option<+T> = None | Some(value: T)

  /** The string.IsNullOrEmpty test of the source, on a nullable string. */
  predicate NullOrEmpty(s: Option<string>)
  {
    s.None? || s.value == ""
  }
}
