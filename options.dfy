/** The optional value used for "no piece", "no selection" and "match still running". */
module Options {
  datatype Option<T> = None | Some(value: T)
}
