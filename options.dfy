/** An optional value, for parses that can fail. */
module Options {

  datatype Option<+T> = None | Some(value: T)
}
