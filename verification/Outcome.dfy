/** Results and the refusals the shop's write side raises. */
module Outcome {

  datatype Option<+T> = None | Some(value: T)

  /** The exceptions a command can end with, one constructor per error class. */
  datatype Error =
    // values
    | MoneyAmountOutOfRange
    | NegativeMoneyAmount
    | TooPreciseMoneyAmount
    | CurrencyMismatch
    | NonPositiveQuantity
    | QuantityLimitExceeded
      // carts
    | CartLineLimitExceeded
    | CartLineNotFound
    | EmptyCart
    | CartNotFound
      // orders
    | EmptyOrder
    | OrderStatusTransition
    | CustomerCannotCancelProcessedOrder
    | CancellationReasonRequired
    | OrderNotEditable
    | UnpricedCartLine
    | CartRepriced
    | ProductNotPriced
    | UnsupportedPriceType
      // users
    | PlatformAlreadyLinked
    | MessengerAccountNotLinked
    | LastMessengerAccount
    | NotificationTargetNotLinked
    | UserAlreadyBlocked
    | UserNotBlocked
    | UserAlreadyExists
    | UserNotFound
      // infrastructure
    | CatalogSnapshotBroken
    | RepoFailure
    | InvalidOperation

  datatype Result<+T> = Ok(value: T) | Err(error: Error) {

    predicate IsFailure() {
      Err?
    }

    function PropagateFailure<U>(): (r: Result<U>)
      requires Err?
    {
      Err(error)
    }

    function Extract(): T
      requires Ok?
    {
      value
    }
  }
}
