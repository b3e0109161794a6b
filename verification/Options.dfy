/** An optional value: what the source writes as a nil pointer, a second boolean result or an error. */
module Options {
  datatype Option<+T> = None | Some(value: T)
}
