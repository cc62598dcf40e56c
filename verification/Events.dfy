/** Domain events, and the request-scoped log every aggregate of a command records into. */
module Events {
  import opened Outcome
  import opened Money

  type UserId = nat
  type CartId = nat
  type OrderId = nat
  type ProductId = string
  type PriceTypeId = string

  datatype OrderStatus = New | Confirmed | Shipped | Completed | Cancelled

  datatype Platform = Telegram | Max

  datatype Event =
    | CartCreated(cartId: CartId, userId: UserId)
    | CartItemAdded(cartId: CartId, userId: UserId, productId: ProductId, quantity: Quantity)
    | CartItemQuantityChanged(cartId: CartId, userId: UserId, productId: ProductId, quantity: Quantity)
    | CartItemRemoved(cartId: CartId, userId: UserId, productId: ProductId)
    | CartCleared(cartId: CartId, userId: UserId, lineCount: nat)
    | OrderPlaced(orderId: OrderId, orderNumber: string, customerId: UserId, priceTypeId: PriceTypeId,
                  totalAmount: string, currency: Currency, lineCount: nat)
    | OrderStatusChanged(orderId: OrderId, orderNumber: string, customerId: UserId, oldStatus: OrderStatus,
                         newStatus: OrderStatus, reason: Option<string>)
    | OrderDeliveryAddressChanged(orderId: OrderId, orderNumber: string, customerId: UserId, oldAddress: string,
                                  newAddress: string)
    | UserRegistered(userId: UserId, phoneNumber: string, platform: Platform, externalId: string)
    | MessengerAccountLinked(userId: UserId, platform: Platform, externalId: string)
    | MessengerAccountUnlinked(userId: UserId, platform: Platform, externalId: string)
    | UserPhoneNumberChanged(userId: UserId, oldPhoneNumber: string, newPhoneNumber: string)
    | UserPreferencesChanged(userId: UserId, notifyVia: Platform, locale: string)
    | UserRoleChanged(userId: UserId, admin: bool)
    | UserBlocked(userId: UserId, blockReason: string)
    | UserUnblocked(userId: UserId)

  class EventsCollection {
    var events: seq<Event>

    constructor ()
      ensures events == []
    {
      events := [];
    }

    method AddEvent(event: Event)
      modifies this
      ensures events == old(events) + [event]
    {
      events := events + [event];
    }

    /** Removes the first event equal to the given one; the caller holds one. */
    method RemoveEvent(event: Event)
      requires event in events
      modifies this
      ensures events == WithoutFirst(old(events), event)
    {
      events := WithoutFirst(events, event);
    }

    /** Hands over everything recorded so far and starts again from nothing. */
    method PullEvents() returns (pulled: seq<Event>)
      modifies this
      ensures pulled == old(events) && events == []
    {
      pulled := events;
      events := [];
    }
  }

  function WithoutFirst(events: seq<Event>, event: Event): seq<Event> {
    if events == [] then []
    else if events[0] == event then events[1..]
    else [events[0]] + WithoutFirst(events[1..], event)
  }
}
