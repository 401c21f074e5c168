/** Python's `None`-or-value arguments. */
module Options {
  datatype Option<T> = None | Some(value: T)
}
