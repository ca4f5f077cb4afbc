/** The optional value every module of the project shares. */
module Options {
  datatype Option<+T> = None | Some(value: T)
}
