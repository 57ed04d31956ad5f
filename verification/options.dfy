/** The optional value used where doctor.py returns `None` or a row that may be missing. */
module Options {

  datatype Option<+T> = None | Some(value: T)

}
