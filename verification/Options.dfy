/** An optional value: Go's "value, ok" and nil results. */
module Options {
  datatype Option<+T> = None | Some(value: T)
}
