/** A value that may be absent: JavaScript's `undefined` for an option field
    or a keybind that was never set. */
module Optional {

  datatype Option<+T> = None | Some(value: T)
}
