/** An optional value, shared by the components. */
module Options {
  datatype Option<+T> = None | Some(value: T)
}
