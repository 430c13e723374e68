/** A nullable value: the model's stand-in for JavaScript's `null` in records and component state. */
module Opt {
  datatype Option<+T> = None | Some(value: T)
}
