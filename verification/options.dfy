/** The optional value used wherever the model may have nothing to report. */
module Options {

  datatype Option<+T> = None | Some(value: T)
}
