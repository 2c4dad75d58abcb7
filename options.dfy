/** The optional value used where the program either does something or
    leaves an input unhandled. */
module Options {

  datatype Option<+T> = None | Some(value: T)
}
