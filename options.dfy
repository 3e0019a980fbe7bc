/** The optional value used for the converter's "no error" result. */
module Options {

  datatype Option<+T> = None | Some(value: T)
}
