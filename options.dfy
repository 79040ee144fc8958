/** The optional value used wherever the JavaScript source reads a key that may be missing. */
module Options {

  datatype Option<+T> = None | Some(value: T)
}
