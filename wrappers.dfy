/** The optional-value wrapper shared by the other modules. */
module Wrappers {
  /** None stands for "no value": a missing column, or pandas' NaN for an empty aggregate. */
  datatype Option<+T> = None | Some(value: T)
}
