/** The optional columns and results shared by the other modules. */
module Options {

  datatype Option<+T> = None | Some(value: T)
}
