/** A value that may be missing: pandas' NaN / NaT / None in one cell. */
module Options {

  datatype Option<+T> = None | Some(value: T)

}
