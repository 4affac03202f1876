/** Result datatypes used for the programs' exceptions, error returns and missing values. */
module Wrappers {

  datatype Option<+T> = None | Some(value: T)

  /** The outcome of a call that either completes or raises. */
  datatype Outcome = Pass | Raised {
    predicate IsFailure() { Raised? }

    function PropagateFailure(): Outcome
      requires Raised?
    {
      this
    }
  }
}
