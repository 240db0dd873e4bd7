/** Nullable values: `None` stands for the source's `None` / NaN result. */
module Wrappers {

  datatype Option<+T> = None | Some(value: T)
}
