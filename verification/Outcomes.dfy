/** Optional values and computations that may end in an exception. */
module Outcomes {
  datatype Option<+T> = None | Some(value: T)

  /** `Raised` stands for an exception that leaves the modelled call. */
  datatype Outcome<+T> = Returned(value: T) | Raised
}
