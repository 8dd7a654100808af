/** The usual optional-value datatype, used for "a file was opened" and for builtin lookup. */
module Options {
  datatype Option<+T> = None | Some(value: T)
}
