/** The optional value used throughout the model: a key that may or may not
    have been read, a command that may or may not be emitted, a parse that may
    fail. */
module Options {

  datatype Option<+T> = None | Some(value: T)
}
