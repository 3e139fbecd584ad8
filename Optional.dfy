/** The optional value used wherever Python returns `None` or a value. */
module Optional {
  datatype Option<+T> = None | Some(value: T)
}
