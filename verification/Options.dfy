/** A value that may be missing, as the stores of the transaction modules return it. */
module Options {

  datatype Option<+T> = None | Some(value: T)
}
