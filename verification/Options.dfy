/** An optional value, in place of None. */
module Options {
  datatype Option<+T> = None | Some(value: T)
}
