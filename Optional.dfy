/** A value that may be absent: JavaScript's `undefined`/`null`, or a missing header. */
module Optional {

  datatype Option<+T> = None | Some(value: T)
}
