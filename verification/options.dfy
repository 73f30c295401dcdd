/** The optional value used wherever the program returns None or raises instead of a result. */
module Options {

  datatype Option<+T> = None | Some(value: T)
}
