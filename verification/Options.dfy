/** An optional value, for results and fields the code leaves nil. */
module Options {
  datatype Option<+T> = None | Some(value: T)
}
