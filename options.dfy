/** The optional value used for "no failure recorded yet" and similar absences. */
module Options {

  datatype Option<+T> = None | Some(value: T)
}
