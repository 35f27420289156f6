/** The optional value used wherever the dashboard code works with a value that
    may be `null` or `undefined`: an upload result, a pattern match, a record
    picked for deletion. */
module Optional {

  datatype Option<+T> = None | Some(value: T)
}
