/** The order: lines fixed when it is placed, a status that moves along one table, and an address that may
    change while the parcel is still in the shop. */
module Orders {
  import opened Outcome
  import opened Decimals
  import opened Events
  import opened Money
  import opened OrderNumbers

  datatype OrderLine = OrderLine(position: nat, productId: ProductId, sku: string, name: string, unit: string,
                                 unitPrice: Money, quantity: Quantity)

  datatype Initiator = Customer | Manager

  function AllowedTransitions(status: OrderStatus): set<OrderStatus> {
    match status
    case New => {Confirmed, Cancelled}
    case Confirmed => {Shipped, Cancelled}
    case Shipped => {Completed, Cancelled}
    case Completed => {}
    case Cancelled => {}
  }

  const CUSTOMER_CANCELLABLE_STATUSES: set<OrderStatus> := {New, Confirmed}
  const EDITABLE_ORDER_STATUSES: set<OrderStatus> := {New, Confirmed}
  const TERMINAL_ORDER_STATUSES: set<OrderStatus> := {Completed, Cancelled}

  // ---- The total ---------------------------------------------------------------

  function LineTotal(line: OrderLine): Result<Money> {
    TimesQuantity(line.unitPrice, line.quantity)
  }

  function AddUp(total: Money, lines: seq<OrderLine>): Result<Money>
    decreases |lines|
  {
    if lines == [] then Ok(total)
    else
      var lineTotal :- LineTotal(lines[0]);
      var next :- Plus(total, lineTotal);
      AddUp(next, lines[1..])
  }

  function TotalOf(lines: seq<OrderLine>): Result<Money> {
    if lines == [] then Ok(Zero(Rub)) else AddUp(Zero(lines[0].unitPrice.currency), lines)
  }

  predicate SingleCurrency(lines: seq<OrderLine>) {
    forall i, j :: 0 <= i < j < |lines| ==> lines[i].unitPrice.currency == lines[j].unitPrice.currency
  }

  /** What the lines come to in hundredths, with no limit and no rounding. */
  ghost function TrueCents(lines: seq<OrderLine>): nat
    decreases |lines|
  {
    if lines == [] then 0
    else
      ProductBound(Cents(lines[0].unitPrice), lines[0].quantity);
      Cents(lines[0].unitPrice) * lines[0].quantity + TrueCents(lines[1..])
  }

  lemma {:induction false} AddUpMeaning(total: Money, lines: seq<OrderLine>)
    requires forall line :: line in lines ==> line.unitPrice.currency == total.currency
    ensures AddUp(total, lines).Ok? <==> Cents(total) + TrueCents(lines) <= MAX_CENTS
    ensures AddUp(total, lines).Ok? ==>
              var sum := AddUp(total, lines).value;
              Cents(sum) == Cents(total) + TrueCents(lines) && sum.currency == total.currency
              && (total.amount.exponent == -2 ==> sum.amount.exponent == -2)
    ensures AddUp(total, lines).Err? ==> AddUp(total, lines).error == MoneyAmountOutOfRange
    decreases |lines|
  {
    if lines != [] {
      TimesQuantityMeaning(lines[0].unitPrice, lines[0].quantity);
      var lineTotal := LineTotal(lines[0]);
      if lineTotal.Ok? {
        PlusMeaning(total, lineTotal.value);
        var next := Plus(total, lineTotal.value);
        if next.Ok? {
          AddUpMeaning(next.value, lines[1..]);
        }
      }
    }
  }

  /** Lines in another currency never slip into a total. */
  lemma {:induction false} AddUpRefusals(total: Money, lines: seq<OrderLine>)
    ensures AddUp(total, lines).Ok? ==> forall line :: line in lines ==> line.unitPrice.currency == total.currency
    ensures AddUp(total, lines).Err? ==> AddUp(total, lines).error in {CurrencyMismatch, MoneyAmountOutOfRange}
    decreases |lines|
  {
    if lines != [] {
      TimesQuantityMeaning(lines[0].unitPrice, lines[0].quantity);
      var lineTotal := LineTotal(lines[0]);
      if lineTotal.Ok? {
        PlusMeaning(total, lineTotal.value);
        var next := Plus(total, lineTotal.value);
        if next.Ok? {
          AddUpRefusals(next.value, lines[1..]);
        }
      }
    }
  }

  /** The total of lines in one currency exists exactly when their true sum is within the limit; it is then
      that sum, at exactly two decimals. No order of adding and no partial sum can be refused on its own. */
  lemma TotalMeaning(lines: seq<OrderLine>)
    requires SingleCurrency(lines)
    ensures TotalOf(lines).Ok? <==> TrueCents(lines) <= MAX_CENTS
    ensures TotalOf(lines).Ok? ==>
              var total := TotalOf(lines).value;
              Cents(total) == TrueCents(lines) && total.amount == Finite(TrueCents(lines), -2)
              && total.currency == (if lines == [] then Rub else lines[0].unitPrice.currency)
    ensures TotalOf(lines).Err? ==> TotalOf(lines).error == MoneyAmountOutOfRange
  {
    if lines != [] {
      AddUpMeaning(Zero(lines[0].unitPrice.currency), lines);
    }
  }

  // ---- What one operation does ---------------------------------------------------

  datatype OrderState = OrderState(
    id: OrderId, number: string, customerId: UserId, priceTypeId: PriceTypeId, lines: seq<OrderLine>,
    deliveryAddress: string, status: OrderStatus, cancellationReason: Option<string>,
    cancelledBy: Option<Initiator>, cancelledByUserId: Option<UserId>)

  datatype OrderOp =
    | Confirm
    | Ship
    | Complete
    | Cancel(initiatedBy: Initiator, byUser: UserId, reason: Option<string>)
    | ChangeDeliveryAddress(address: string)

  datatype OrderStep = OrderStep(answer: Result<()>, state: OrderState, events: seq<Event>)

  function ChangingStatus(o: OrderState, status: OrderStatus, reason: Option<string>): OrderStep {
    if status !in AllowedTransitions(o.status) then OrderStep(Err(OrderStatusTransition), o, [])
    else
      OrderStep(Ok(()), o.(status := status),
                [OrderStatusChanged(o.id, o.number, o.customerId, o.status, status, reason)])
  }

  function Cancelling(o: OrderState, initiator: Initiator, user: UserId, reason: Option<string>): OrderStep {
    if initiator == Customer && o.status !in CUSTOMER_CANCELLABLE_STATUSES then
      OrderStep(Err(CustomerCannotCancelProcessedOrder), o, [])
    else if initiator == Manager && reason.None? then OrderStep(Err(CancellationReasonRequired), o, [])
    else
      var step := ChangingStatus(o, Cancelled, reason);
      if step.answer.Err? then step
      else step.(state := step.state.(cancelledBy := Some(initiator), cancelledByUserId := Some(user),
                                             cancellationReason := reason))
  }

  function Readdressing(o: OrderState, address: string): OrderStep {
    if o.status !in EDITABLE_ORDER_STATUSES then OrderStep(Err(OrderNotEditable), o, [])
    else if address == o.deliveryAddress then OrderStep(Ok(()), o, [])
    else
      OrderStep(Ok(()), o.(deliveryAddress := address),
                [OrderDeliveryAddressChanged(o.id, o.number, o.customerId, o.deliveryAddress, address)])
  }

  function Apply(o: OrderState, op: OrderOp): OrderStep {
    match op
    case Confirm => ChangingStatus(o, Confirmed, None)
    case Ship => ChangingStatus(o, Shipped, None)
    case Complete => ChangingStatus(o, Completed, None)
    case Cancel(initiator, user, reason) => Cancelling(o, initiator, user, reason)
    case ChangeDeliveryAddress(address) => Readdressing(o, address)
  }

  // ---- The aggregate ---------------------------------------------------------------

  datatype Placement = Placement(customerId: UserId, lines: seq<OrderLine>, deliveryAddress: string,
                                 priceTypeId: PriceTypeId)

  class Order {
    const id: OrderId
    const number: string
    const customerId: UserId
    const priceTypeId: PriceTypeId
    const lines: seq<OrderLine>
    const eventsCollection: EventsCollection
    var deliveryAddress: string
    var status: OrderStatus
    var cancellationReason: Option<string>
    var cancelledBy: Option<Initiator>
    var cancelledByUserId: Option<UserId>

    function Value(): OrderState
      reads this
    {
      OrderState(id, number, customerId, priceTypeId, lines, deliveryAddress, status, cancellationReason,
                 cancelledBy, cancelledByUserId)
    }

    constructor (orderId: OrderId, number: string, placement: Placement, events: EventsCollection)
      ensures Value() == Placed(orderId, number, placement) && eventsCollection == events
    {
      id, this.number, customerId, priceTypeId := orderId, number, placement.customerId, placement.priceTypeId;
      lines, deliveryAddress, eventsCollection := placement.lines, placement.deliveryAddress, events;
      status, cancellationReason, cancelledBy, cancelledByUserId := New, None, None, None;
    }

    /** Creates the order from finished lines and announces it; a refusal creates and announces nothing. */
    static method Place(orderId: OrderId, placedOn: Day, events: EventsCollection, placement: Placement)
      returns (r: Result<Order>)
      requires IsCalendarDay(placedOn)
      modifies events
      ensures r.Ok? <==> Placeable(placement.lines).Ok?
      ensures r.Err? ==> r.error == Placeable(placement.lines).error && events.events == old(events.events)
      ensures r.Ok? ==>
                && IsNew(r.value.Value(), orderId, Derive(placedOn, orderId), placement)
                && Tells(Announcement(orderId, Derive(placedOn, orderId), placement),
                         orderId, Derive(placedOn, orderId), placement)
      ensures r.Ok? ==>
                && fresh(r.value)
                && r.value.Value() == Placed(orderId, Derive(placedOn, orderId), placement)
                && r.value.eventsCollection == events
                && events.events == old(events.events)
                                    + [Announcement(orderId, Derive(placedOn, orderId), placement)]
    {
      if placement.lines == [] {
        return Err(EmptyOrder);
      }
      if !SingleCurrency(placement.lines) {
        return Err(CurrencyMismatch);
      }
      TotalMeaning(placement.lines);
      PlacedIsNew(orderId, Derive(placedOn, orderId), placement);
      hide Derive, TotalOf, TrueCents, SingleCurrency, Tells, IsNew, PlainText;
      var number := Derive(placedOn, orderId);
      var order := new Order(orderId, number, placement, events);
      var total := order.Total();
      if total.Err? {
        return Err(total.error);
      }
      events.AddEvent(OrderPlaced(orderId, number, placement.customerId, placement.priceTypeId,
                                  PlainText(total.value.amount), total.value.currency, |order.lines|));
      r := Ok(order);
    }

    method ConfirmOrder() returns (r: Result<()>)
      modifies this, eventsCollection
      ensures var step := Apply(old(Value()), Confirm);
              r == step.answer && Value() == step.state
              && eventsCollection.events == old(eventsCollection.events) + step.events
    {
      r := ChangeStatus(Confirmed, None);
    }

    method ShipOrder() returns (r: Result<()>)
      modifies this, eventsCollection
      ensures var step := Apply(old(Value()), Ship);
              r == step.answer && Value() == step.state
              && eventsCollection.events == old(eventsCollection.events) + step.events
    {
      r := ChangeStatus(Shipped, None);
    }

    method CompleteOrder() returns (r: Result<()>)
      modifies this, eventsCollection
      ensures var step := Apply(old(Value()), Complete);
              r == step.answer && Value() == step.state
              && eventsCollection.events == old(eventsCollection.events) + step.events
    {
      r := ChangeStatus(Completed, None);
    }

    /** What the whole order comes to, added up from the lines every time. */
    method Total() returns (r: Result<Money>)
      ensures r == TotalOf(lines)
    {
      if lines == [] {
        return Ok(Zero(Rub));
      }
      var total := Zero(lines[0].unitPrice.currency);
      var i := 0;
      while i < |lines|
        invariant 0 <= i <= |lines|
        invariant AddUp(total, lines[i..]) == TotalOf(lines)
      {
        assert lines[i..][0] == lines[i] && lines[i..][1..] == lines[i + 1..];
        var lineTotal := LineTotal(lines[i]);
        if lineTotal.Err? {
          return Err(lineTotal.error);
        }
        var next := Plus(total, lineTotal.value);
        if next.Err? {
          return Err(next.error);
        }
        total, i := next.value, i + 1;
      }
      r := Ok(total);
    }

    method ChangeStatus(status: OrderStatus, reason: Option<string>) returns (r: Result<()>)
      modifies this, eventsCollection
      ensures var step := ChangingStatus(old(Value()), status, reason);
              r == step.answer && Value() == step.state
              && eventsCollection.events == old(eventsCollection.events) + step.events
    {
      var oldStatus := this.status;
      if status !in AllowedTransitions(oldStatus) {
        return Err(OrderStatusTransition);
      }
      this.status := status;
      eventsCollection.AddEvent(OrderStatusChanged(id, number, customerId, oldStatus, status, reason));
      r := Ok(());
    }

    method CancelOrder(initiatedBy: Initiator, byUser: UserId, reason: Option<string>) returns (r: Result<()>)
      modifies this, eventsCollection
      ensures var step := Apply(old(Value()), Cancel(initiatedBy, byUser, reason));
              r == step.answer && Value() == step.state
              && eventsCollection.events == old(eventsCollection.events) + step.events
    {
      if initiatedBy == Customer && status !in CUSTOMER_CANCELLABLE_STATUSES {
        return Err(CustomerCannotCancelProcessedOrder);
      }
      if initiatedBy == Manager && reason.None? {
        return Err(CancellationReasonRequired);
      }
      r := ChangeStatus(Cancelled, reason);
      if r.Ok? {
        cancelledBy, cancelledByUserId, cancellationReason := Some(initiatedBy), Some(byUser), reason;
      }
    }

    method ChangeAddress(address: string) returns (r: Result<()>)
      modifies this, eventsCollection
      ensures var step := Apply(old(Value()), ChangeDeliveryAddress(address));
              r == step.answer && Value() == step.state
              && eventsCollection.events == old(eventsCollection.events) + step.events
    {
      if status !in EDITABLE_ORDER_STATUSES {
        return Err(OrderNotEditable);
      }
      if address == deliveryAddress {
        return Ok(());
      }
      var oldAddress := deliveryAddress;
      deliveryAddress := address;
      eventsCollection.AddEvent(OrderDeliveryAddressChanged(id, number, customerId, oldAddress, address));
      r := Ok(());
    }
  }

  function Placed(orderId: OrderId, number: string, p: Placement): OrderState {
    OrderState(orderId, number, p.customerId, p.priceTypeId, p.lines, p.deliveryAddress, New, None, None, None)
  }

  /** Whether lines can become an order, and the first refusal when they cannot. */
  function Placeable(lines: seq<OrderLine>): Result<Money> {
    if lines == [] then Err(EmptyOrder) else if !SingleCurrency(lines) then Err(CurrencyMismatch) else TotalOf(lines)
  }

  /** The text of the total of lines that can become an order. */
  ghost function TotalText(lines: seq<OrderLine>): string {
    if Placeable(lines).Err? then ""
    else
      TotalMeaning(lines);
      PlainText(Placeable(lines).value.amount)
  }

  ghost function Announcement(orderId: OrderId, number: string, p: Placement): Event {
    OrderPlaced(orderId, number, p.customerId, p.priceTypeId, TotalText(p.lines), TotalCurrency(p.lines), |p.lines|)
  }

  ghost function TotalCurrency(lines: seq<OrderLine>): Currency {
    if Placeable(lines).Err? then Rub else Placeable(lines).value.currency
  }

  /** An order that starts its life: everything as it was agreed, new, and not cancelled. */
  ghost predicate IsNew(o: OrderState, orderId: OrderId, number: string, p: Placement) {
    && o.status == New
    && o.cancellationReason.None? && o.cancelledBy.None? && o.cancelledByUserId.None?
    && o.id == orderId && o.number == number
    && o.customerId == p.customerId && o.priceTypeId == p.priceTypeId
    && o.lines == p.lines && o.deliveryAddress == p.deliveryAddress
  }

  /** An announcement of that order: whose it is, what it comes to, and how many lines it has. */
  ghost predicate Tells(e: Event, orderId: OrderId, number: string, p: Placement) {
    && e.OrderPlaced?
    && e.orderId == orderId && e.orderNumber == number
    && e.customerId == p.customerId && e.priceTypeId == p.priceTypeId
    && e.lineCount == |p.lines|
    && ShowsTwoDecimals(e.totalAmount, TrueCents(p.lines))
    && p.lines != [] && e.currency == p.lines[0].unitPrice.currency
  }

  lemma PlacedIsNew(orderId: OrderId, number: string, p: Placement)
    ensures IsNew(Placed(orderId, number, p), orderId, number, p)
    ensures Placeable(p.lines).Ok? ==> Tells(Announcement(orderId, number, p), orderId, number, p)
  {
    hide TotalOf, SingleCurrency, TrueCents, PlainText, ShowsTwoDecimals;
    if Placeable(p.lines).Ok? {
      AnnouncedTotal(orderId, number, p);
      TotalMeaning(p.lines);
    }
  }

  /** Lines that can become an order, and the first refusal of those that cannot. */
  lemma WhatCanBePlaced(lines: seq<OrderLine>)
    ensures Placeable(lines).Ok? <==> lines != [] && SingleCurrency(lines) && TrueCents(lines) <= 999_999_999_999
    ensures Placeable(lines).Err? ==>
              Placeable(lines).error
              == if lines == [] then EmptyOrder
                 else if !SingleCurrency(lines) then CurrencyMismatch
                 else MoneyAmountOutOfRange
  {
    if SingleCurrency(lines) { TotalMeaning(lines); }
  }

  /** Whatever exponents the prices come in, an announced total shows exactly two decimals and reads back as
      the true sum of the lines. */
  lemma AnnouncedTotal(orderId: OrderId, number: string, p: Placement)
    requires Placeable(p.lines).Ok?
    ensures ShowsTwoDecimals(Announcement(orderId, number, p).totalAmount, TrueCents(p.lines))
  {
    TotalMeaning(p.lines);
    TwoDecimalsText(Placeable(p.lines).value.amount);
  }

  /** Exactly when each operation goes through, and what it leaves. */
  lemma WhatOperationsNeed(o: OrderState, op: OrderOp)
    ensures var step := Apply(o, op);
            match op
            case Confirm =>
              && (step.answer.Ok? <==> o.status == New)
              && (step.answer.Ok? ==> step.state == o.(status := Confirmed))
            case Ship =>
              && (step.answer.Ok? <==> o.status == Confirmed)
              && (step.answer.Ok? ==> step.state == o.(status := Shipped))
            case Complete =>
              && (step.answer.Ok? <==> o.status == Shipped)
              && (step.answer.Ok? ==> step.state == o.(status := Completed))
            case Cancel(initiator, user, reason) =>
              && (step.answer.Ok? <==>
                  if initiator == Customer then o.status == New || o.status == Confirmed
                  else reason.Some? && o.status != Completed && o.status != Cancelled)
              && (step.answer.Ok? ==>
                    step.state == o.(status := Cancelled, cancelledBy := Some(initiator),
                                        cancelledByUserId := Some(user),
                                     cancellationReason := reason))
            case ChangeDeliveryAddress(address) =>
              && (step.answer.Ok? <==> o.status == New || o.status == Confirmed)
              && (step.answer.Ok? ==> step.state == o.(deliveryAddress := address))
  {
  }

  /** What each operation records when it goes through, and what it answers when it is refused; a refused one
      changes and records nothing. */
  lemma WhatOperationsRecord(o: OrderState, op: OrderOp)
    ensures var step := Apply(o, op);
            var moved := (now: OrderStatus, reason: Option<string>) =>
                           [OrderStatusChanged(o.id, o.number, o.customerId, o.status, now, reason)];
            && (step.answer.Err? ==> step.state == o && step.events == [])
            && match op
               case Confirm =>
                 if step.answer.Ok? then step.events == moved(Confirmed, None)
                 else step.answer == Err(OrderStatusTransition)
               case Ship =>
                 if step.answer.Ok? then step.events == moved(Shipped, None)
                 else step.answer == Err(OrderStatusTransition)
               case Complete =>
                 if step.answer.Ok? then step.events == moved(Completed, None)
                 else step.answer == Err(OrderStatusTransition)
               case Cancel(initiator, _, reason) =>
                 if step.answer.Ok? then step.events == moved(Cancelled, reason)
                 else
                   step.answer == Err(if initiator == Customer then CustomerCannotCancelProcessedOrder
                                      else if reason.None? then CancellationReasonRequired
                                      else OrderStatusTransition)
               case ChangeDeliveryAddress(address) =>
                 if step.answer.Err? then step.answer == Err(OrderNotEditable)
                 else if address == o.deliveryAddress then step.events == []
                 else
                   step.events
                   == [OrderDeliveryAddressChanged(o.id, o.number, o.customerId, o.deliveryAddress, address)]
  {
  }

  // ---- Every run --------------------------------------------------------------------

  function Run(o: OrderState, ops: seq<OrderOp>): (OrderState, seq<Event>)
    decreases |ops|
  {
    if ops == [] then (o, [])
    else
      var step := Apply(o, ops[0]);
      var (end, events) := Run(step.state, ops[1..]);
      (end, step.events + events)
  }

  /** A log that takes an order from one status and address to another: every status event starts where the
      last one ended and follows the table, every address event starts at the current address while the
      order is editable. */
  ghost predicate Lawful(status: OrderStatus, address: string, events: seq<Event>, endStatus: OrderStatus,
                         endAddress: string)
    decreases |events|
  {
    if events == [] then status == endStatus && address == endAddress
    else
      match events[0]
      case OrderStatusChanged(_, _, _, was, now, _) =>
        was == status && now in AllowedTransitions(status) && Lawful(now, address, events[1..], endStatus, endAddress)
      case OrderDeliveryAddressChanged(_, _, _, was, now) =>
        was == address && now != address && status in EDITABLE_ORDER_STATUSES
        && Lawful(status, now, events[1..], endStatus, endAddress)
      case _ => false
  }

  ghost predicate CancellationConsistent(o: OrderState) {
    && (o.cancelledBy.Some? <==> o.status == Cancelled)
    && (o.cancelledByUserId.Some? <==> o.status == Cancelled)
    && (o.cancellationReason.Some? ==> o.status == Cancelled)
    && (o.cancelledBy == Some(Manager) ==> o.cancellationReason.Some?)
  }

  function StatusChanges(events: seq<Event>): nat {
    if events == [] then 0 else (if events[0].OrderStatusChanged? then 1 else 0) + StatusChanges(events[1..])
  }

  /** The longest way still open from a status. */
  function MovesLeft(status: OrderStatus): nat {
    match status case New => 3 case Confirmed => 2 case Shipped => 1 case _ => 0
  }

  lemma {:induction false} LawfulConcat(s: OrderStatus, a: string, first: seq<Event>, s1: OrderStatus, a1: string,
                                        second: seq<Event>, s2: OrderStatus, a2: string)
    requires Lawful(s, a, first, s1, a1) && Lawful(s1, a1, second, s2, a2)
    ensures Lawful(s, a, first + second, s2, a2)
    decreases |first|
  {
    if first == [] {
      assert first + second == second;
    } else {
      assert (first + second)[1..] == first[1..] + second;
      match first[0]
      case OrderStatusChanged(_, _, _, _, now, _) => LawfulConcat(now, a, first[1..], s1, a1, second, s2, a2);
      case OrderDeliveryAddressChanged(_, _, _, _, now) => LawfulConcat(s, now, first[1..], s1, a1, second, s2, a2);
    }
  }

  lemma {:induction false} AtMostMovesLeft(s: OrderStatus, a: string, events: seq<Event>, s1: OrderStatus, a1: string)
    requires Lawful(s, a, events, s1, a1)
    ensures StatusChanges(events) + MovesLeft(s1) <= MovesLeft(s)
    decreases |events|
  {
    if events != [] {
      match events[0]
      case OrderStatusChanged(_, _, _, _, now, _) => AtMostMovesLeft(now, a, events[1..], s1, a1);
      case OrderDeliveryAddressChanged(_, _, _, _, now) => AtMostMovesLeft(s, now, events[1..], s1, a1);
    }
  }

  lemma NothingIsLawful(status: OrderStatus, address: string)
    ensures Lawful(status, address, [], status, address)
  {
  }

  lemma StepIsLawful(o: OrderState, op: OrderOp)
    requires CancellationConsistent(o)
    ensures var step := Apply(o, op);
            && Lawful(o.status, o.deliveryAddress, step.events, step.state.status, step.state.deliveryAddress)
            && CancellationConsistent(step.state)
            && step.state.lines == o.lines && step.state.number == o.number && step.state.id == o.id
            && step.state.customerId == o.customerId && step.state.priceTypeId == o.priceTypeId
            && (step.answer.Err? ==> step.state == o && step.events == [])
  {
  }

  /** Any run of operations, refused ones included, leaves a lawful log that ends at the order's own status
      and address, never touches what was agreed, and cancels consistently. */
  lemma {:induction false} RunIsLawful(o: OrderState, ops: seq<OrderOp>)
    requires CancellationConsistent(o)
    ensures var (end, events) := Run(o, ops);
            && Lawful(o.status, o.deliveryAddress, events, end.status, end.deliveryAddress)
            && CancellationConsistent(end)
            && end.lines == o.lines && end.number == o.number && end.id == o.id
            && end.customerId == o.customerId && end.priceTypeId == o.priceTypeId
            && TotalOf(end.lines) == TotalOf(o.lines)
    decreases |ops|
  {
    hide Apply, Lawful;
    if ops == [] {
      NothingIsLawful(o.status, o.deliveryAddress);
    } else {
      var step := Apply(o, ops[0]);
      StepIsLawful(o, ops[0]);
      RunIsLawful(step.state, ops[1..]);
      var (end, events) := Run(step.state, ops[1..]);
      LawfulConcat(o.status, o.deliveryAddress, step.events, step.state.status, step.state.deliveryAddress,
                   events, end.status, end.deliveryAddress);
    }
  }

  /** A placed order changes status at most three times in its whole life. */
  lemma AtMostThreeMoves(orderId: OrderId, number: string, placement: Placement, ops: seq<OrderOp>)
    ensures StatusChanges(Run(Placed(orderId, number, placement), ops).1) <= 3
  {
    var o := Placed(orderId, number, placement);
    RunIsLawful(o, ops);
    var (end, events) := Run(o, ops);
    AtMostMovesLeft(New, o.deliveryAddress, events, end.status, end.deliveryAddress);
  }

  /** Once an order has left the shop, neither its address nor the customer's way out comes back. */
  lemma {:induction false} DispatchIsFinal(o: OrderState, ops: seq<OrderOp>)
    requires o.status !in EDITABLE_ORDER_STATUSES && o.cancelledBy != Some(Customer)
    ensures Run(o, ops).0.deliveryAddress == o.deliveryAddress
    ensures Run(o, ops).0.status !in EDITABLE_ORDER_STATUSES
    ensures Run(o, ops).0.cancelledBy != Some(Customer)
    decreases |ops|
  {
    if ops != [] {
      DispatchIsFinal(Apply(o, ops[0]).state, ops[1..]);
    }
  }

  /** A finished order is past every operation: whatever is tried, it stays exactly as it is. */
  lemma {:induction false} TerminalIsFinal(o: OrderState, ops: seq<OrderOp>)
    ensures (o.status in TERMINAL_ORDER_STATUSES) <==> AllowedTransitions(o.status) == {}
    ensures o.status in TERMINAL_ORDER_STATUSES ==> Run(o, ops) == (o, [])
    decreases |ops|
  {
    if ops != [] && o.status in TERMINAL_ORDER_STATUSES {
      var step := Apply(o, ops[0]);
      TerminalIsFinal(o, ops[1..]);
      assert step.state == o && step.events + Run(o, ops[1..]).1 == [];
    }
  }
}
