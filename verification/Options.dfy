/** The optional value the modelled functions return where the program returns None. */
module Options {
  datatype Option<+T> = None | Some(value: T)
}
