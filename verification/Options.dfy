/** The value that may be absent: a NULL pointer, a missing answer, an unset field. */
module Options {
  datatype Option<+T> = None | Some(value: T)
}
