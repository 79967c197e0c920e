/** Absence of a value: Python's `None`, the result every extractor and the
    model invoker fall back to instead of raising. */
module Wrappers {

  datatype Option<+T> = None | Some(value: T)
}
