/** The usual optional value: an absent JavaScript property. */
module Options {
  datatype Option<+T> = None | Some(value: T)
}
