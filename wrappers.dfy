// The optional-value type the pipeline's "no match" and "no groups" cases use.
module Wrappers {

  datatype Option<+T> = None | Some(value: T)

}
