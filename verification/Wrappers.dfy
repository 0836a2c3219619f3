/** Absence of a value. The decoders of this library have no sentinel errors, so a failed read or
    decode is `None` here: callers can only ask whether there was an error. */
module Wrappers {

  datatype Option<+T> = None | Some(value: T)
}
