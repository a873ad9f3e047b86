/** Small wrapper types shared by every module. */
module Base {

  /** A value that may be missing: JavaScript's `undefined` result of `find`. */
  datatype Option<+T> = None | Some(value: T)
}
