/** The optional value used across the model: JavaScript `null`/`undefined`,
    Python `None` and a missing JSON key all become `None`. */
module Wrappers {
  datatype Option<+T> = None | Some(value: T)
}
