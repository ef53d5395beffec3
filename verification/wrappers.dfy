/** The optional values the model needs: a JavaScript property that may be
    `undefined`, a response that may be missing, a handler that may be suspended. */
module Wrappers {

  datatype Option<+T> = None | Some(value: T)
}
