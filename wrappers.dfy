/** Shared helper types: an optional value, JavaScript's `null` / `undefined`. */
module Wrappers {

  datatype Option<+T> = None | Some(value: T)

}

/** Key names carried by keyboard events. */
module Keyboard {

  /** The key that appends a new entry from any keyword field. */
  const EnterKey := "Enter"

}
