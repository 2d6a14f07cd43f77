/** The optional value used throughout the model for SQL NULL, a missing
    request field or a JavaScript `undefined`. */
module Wrappers {

  datatype Option<+T> = None | Some(value: T)
}
