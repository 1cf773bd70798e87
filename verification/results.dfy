/** Failures of the token ledger and the failure-compatible result type that
    every operation returns. An `Err` result carries no state: the host commits
    a call's writes only when it succeeds, so a failed call changes nothing. */
module Results {

  /** Every way a ledger call can fail. */
  datatype Error =
    /** the caller is not the contract owner ("Unauthorized") */
    | Unauthorized
    /** mint was called while the contract is paused ("Contract is paused") */
    | ContractPaused
    /** mint was entered while the reentrancy guard was set ("Reentrant call detected") */
    | ReentrantCall
    /** a debit larger than the stored balance ("Insufficient balance") */
    | InsufficientBalance
    /** a spend larger than the stored allowance ("Insufficient allowance") */
    | InsufficientAllowance
    /** `Uint128::checked_add` went past 2^128 - 1 */
    | Overflow
    /** `Uint128::checked_sub` went below zero */
    | Underflow
    /** the debited account has no balance entry in storage (`Bucket::load` failed) */
    | BalanceNotFound

  /** A value or the error that prevented it; usable with `:-`. */
  datatype Result<+T> = Ok(value: T) | Err(error: Error) {

    predicate IsFailure() {
      Err?
    }

    function PropagateFailure<U>(): Result<U>
      requires Err?
    {
      Err(error)
    }

    function Extract(): T
      requires Ok?
    {
      value
    }
  }
}
