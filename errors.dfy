/** The hub's error enum and the effect of one handler on the store. */
module Errors {
  import opened Wrappers
  import opened Storage

  /** Errors of the hub's API: storage reads, and a dApp whose flat fee is unset. */
  datatype ApiError = Store(store: StoreError) | DappFeeNotSet

  /**
   * `Underflow` stands for the arithmetic panic of an unchecked `u128`
   * subtraction in the collection handlers: it aborts the transaction
   * like any error.
   */
  datatype Error =
    | Api(api: ApiError)
    | Unauthorized
    | AlreadyRegistered
    | DappNotRegistered
    | ReferralCodeNotRegistered
    | InvalidRewardsAdmin
    | InvalidRewardsPotAdmin
    | RewardsPotAlreadySet
    | Overflow
    | NothingToCollect
    | Underflow

  /** A storage failure, as the handlers propagate it. */
  function StoreErr<T>(e: StoreError): Result<T, Error>
  {
    Err(Api(Store(e)))
  }

  /**
   * What a handler leaves behind: the store as it was written (writes made
   * before a failure included) and what the handler returned.
   */
  datatype Step<T> = Step(ledger: Ledger, result: Result<T, Error>)

  /**
   * The host runs every message in a transaction: a handler's writes are
   * kept when it returns `Ok` and discarded when it returns an error.
   */
  function Commit<T>(before: Ledger, s: Step<T>): (l: Ledger)
    ensures s.result.Err? ==> l == before
    ensures s.result.Ok? ==> l == s.ledger
  {
    if s.result.Ok? then s.ledger else before
  }
}
