/**
  Errors, results and state-carrying steps shared by the customer and bank
  models. Every exception the bank can raise becomes a variant of `Error`.
 */
module Outcomes {

  /** The failures an operation can report.
      `InvalidAmount` and `InvalidOperation` stand for the plain `Error`s the
      customer throws (non-positive deposit or withdrawal, negative initial
      deposit, transfer to oneself); the others are the named exception
      classes. The two registry errors carry the customer name their
      message mentions. */
  datatype Error =
    | InvalidAmount
    | InvalidOperation
    | InsufficientFunds
    | AccountLocked
    | DuplicateCustomer(name: string)
    | CustomerNotFound(name: string)

  /** Whether an operation completed or threw. */
  datatype Outcome = Done | Failed(error: Error)

  /** A value, or the error raised instead of computing it (no state change). */
  datatype Result<T> = Ok(value: T) | Err(error: Error)

  /** The state after one atomic operation together with how it ended.
      A failed operation may still have changed the state (a lock flag
      left set), so the state is returned on both paths. */
  datatype Step<S> = Step(state: S, outcome: Outcome)
}
