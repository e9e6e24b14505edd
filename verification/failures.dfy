/** Failure-carrying results. Every operation whose Go counterpart can panic
    returns a `Result`, and each `Error` constructor names one kind of panic. */
module Failures {

  datatype Option<+T> = None | Some(value: T)

  datatype Error =
    | NilMapWrite              // a weight change writes into the missing row of an undeclared value
    | MissingEndCondition      // a nil end condition is dereferenced
    | UnknownValue(name: string)
    | UnknownBranch            // the branch id is not registered
    | SlotOutOfRange           // a store or branch index is past the end of its slice
    | NotBranchStore           // a store slot does not hold a branch store
    | NotTimelineStore         // the root store does not hold a timeline store
    | NotGameStore             // the timeline store does not hold the game store
    | BranchCycle              // the label lookups come back round to an entry: the recursion never ends

  datatype Result<+T> = Ok(value: T) | Err(error: Error) {

    predicate IsFailure() {
      Err?
    }

    function PropagateFailure<U>(): Result<U>
      requires Err?
    {
      Err(error)
    }

    function Extract(): T
      requires Ok?
    {
      value
    }
  }
}
