/** Three readings of one cart (the screen, the pricing service, the order) and the command that refuses to
    place an order they do not agree on. */
module Checkout {
  import opened Outcome
  import opened Decimals
  import opened Events
  import opened Money
  import opened Currencies
  import opened Carts
  import opened OrderNumbers
  import opened Orders

  datatype ProductRow = ProductRow(sku: string, name: string, unit: string, isActive: bool)
  datatype PriceRow = PriceRow(amount: Decimal, currency: string)

  /** The part of the projection a cart is priced from. */
  datatype Catalog = Catalog(products: map<ProductId, ProductRow>, prices: map<(ProductId, PriceTypeId), PriceRow>)

  // ---- The screen ----------------------------------------------------------------

  datatype MoneyView = MoneyView(amount: Decimal, currency: string)

  datatype LineView = LineView(productId: ProductId, quantity: Quantity, lineTotal: Option<MoneyView>,
                               isAvailable: bool)

  datatype CartView = CartView(lines: seq<LineView>, total: MoneyView)

  /** One joined row: no product row reads as unavailable, no price row as unpriced. */
  function ToLineView(catalog: Catalog, list: PriceTypeId, line: CartLine): LineView {
    var key := (line.productId, list);
    var lineTotal :=
      if key in catalog.prices then
        Some(MoneyView(Times(catalog.prices[key].amount, line.quantity), catalog.prices[key].currency))
      else None;
    LineView(line.productId, line.quantity, lineTotal,
             line.productId in catalog.products && catalog.products[line.productId].isActive)
  }

  function ToLineViews(catalog: Catalog, list: PriceTypeId, lines: seq<CartLine>): (views: seq<LineView>)
    ensures |views| == |lines|
    ensures forall i :: 0 <= i < |lines| ==> views[i] == ToLineView(catalog, list, lines[i])
  {
    if lines == [] then [] else [ToLineView(catalog, list, lines[0])] + ToLineViews(catalog, list, lines[1..])
  }

  function PricedTotals(views: seq<LineView>): seq<MoneyView> {
    if views == [] then []
    else (if views[0].lineTotal.Some? then [views[0].lineTotal.value] else []) + PricedTotals(views[1..])
  }

  function Sum(start: Decimal, totals: seq<MoneyView>): Decimal
    decreases |totals|
  {
    if totals == [] then start else Sum(Add(start, totals[0].amount), totals[1..])
  }

  function ToCartView(catalog: Catalog, list: PriceTypeId, lines: seq<CartLine>): CartView {
    var views := ToLineViews(catalog, list, lines);
    var totals := PricedTotals(views);
    if totals == [] then CartView(views, MoneyView(Finite(0, -2), "rub"))
    else CartView(views, MoneyView(Sum(Finite(0, -2), totals), totals[0].currency))
  }

  /** When the screen offers to check out. */
  predicate OffersCheckout(view: CartView) {
    view.lines != [] && forall line :: line in view.lines ==> line.isAvailable && line.lineTotal.Some?
  }

  // ---- The pricing service ----------------------------------------------------------

  datatype PricedProduct = PricedProduct(productId: ProductId, sku: string, name: string, unit: string,
                                         unitPrice: Money)

  datatype CartPrices = CartPrices(priced: seq<PricedProduct>, unpriced: seq<ProductId>)

  function ToPricedProduct(id: ProductId, product: ProductRow, price: PriceRow): Result<PricedProduct> {
    match ParseCurrency(price.currency)
    case None => Err(UnsupportedPriceType)
    case Some(currency) =>
      var unitPrice :- MakeMoney(price.amount, currency);
      Ok(PricedProduct(id, product.sku, product.name, product.unit, unitPrice))
  }

  /** The active products of the list, split into those the price list prices and those it does not. */
  function ReadCartPrices(catalog: Catalog, list: PriceTypeId, ids: seq<ProductId>): Result<CartPrices> {
    if ids == [] then Ok(CartPrices([], []))
    else
      var id := ids[0];
      if id in catalog.products && catalog.products[id].isActive then
        if (id, list) in catalog.prices then
          var first :- ToPricedProduct(id, catalog.products[id], catalog.prices[(id, list)]);
          var rest :- ReadCartPrices(catalog, list, ids[1..]);
          Ok(rest.(priced := [first] + rest.priced))
        else
          var rest :- ReadCartPrices(catalog, list, ids[1..]);
          Ok(rest.(unpriced := [id] + rest.unpriced))
      else ReadCartPrices(catalog, list, ids[1..])
  }

  /** The prices of everything in the cart; a product listed without a price refuses the whole cart, a
      product the catalog lost is simply missing. */
  function ForCart(catalog: Catalog, list: Result<PriceTypeId>, lines: seq<CartLine>): Result<seq<PricedProduct>> {
    var id :- list;
    var prices :- ReadCartPrices(catalog, id, Products(lines));
    if prices.unpriced != [] then Err(ProductNotPriced) else Ok(prices.priced)
  }

  function PriceMap(priced: seq<PricedProduct>): map<ProductId, PricedProduct> {
    if priced == [] then map[]
    else PriceMap(priced[..|priced| - 1])[priced[|priced| - 1].productId := priced[|priced| - 1]]
  }

  /** The total of the lines still to come on top of what has been added so far. */
  function TotalFrom(total: Option<Money>, prices: map<ProductId, PricedProduct>,
                     lines: seq<CartLine>): Result<Option<Money>>
    decreases |lines|
  {
    if lines == [] then Ok(total)
    else if lines[0].productId !in prices then Ok(None)
    else
      var lineTotal :- TimesQuantity(prices[lines[0].productId].unitPrice, lines[0].quantity);
      var next :- if total.None? then Ok(lineTotal) else Plus(total.value, lineTotal);
      TotalFrom(Some(next), prices, lines[1..])
  }

  method TotalFor(priced: seq<PricedProduct>, lines: seq<CartLine>) returns (r: Result<Option<Money>>)
    ensures r == TotalFrom(None, PriceMap(priced), lines)
    ensures lines == [] ==> r == Ok(None)
  {
    var prices := PriceMap(priced);
    var total: Option<Money> := None;
    var i := 0;
    while i < |lines|
      invariant 0 <= i <= |lines|
      invariant TotalFrom(total, prices, lines[i..]) == TotalFrom(None, prices, lines)
    {
      var line := lines[i];
      assert lines[i..][0] == line && lines[i..][1..] == lines[i + 1..];
      if line.productId !in prices {
        return Ok(None);
      }
      var lineTotal := TimesQuantity(prices[line.productId].unitPrice, line.quantity);
      if lineTotal.Err? {
        return Err(lineTotal.error);
      }
      if total.None? {
        total := Some(lineTotal.value);
      } else {
        var next := Plus(total.value, lineTotal.value);
        if next.Err? {
          return Err(next.error);
        }
        total := Some(next.value);
      }
      i := i + 1;
    }
    r := Ok(total);
  }

  // ---- Placing ------------------------------------------------------------------------

  /** Snapshot lines at the given prices, numbered from `position`. */
  function BuildLines(prices: map<ProductId, PricedProduct>, lines: seq<CartLine>,
                      position: nat): Result<seq<OrderLine>>
    decreases |lines|
  {
    if lines == [] then Ok([])
    else if lines[0].productId !in prices then Err(UnpricedCartLine)
    else
      var p := prices[lines[0].productId];
      var rest :- BuildLines(prices, lines[1..], position + 1);
      Ok([OrderLine(position, p.productId, p.sku, p.name, p.unit, p.unitPrice, lines[0].quantity)] + rest)
  }

  /** What the screen promised, sent back with the command. */
  datatype Expected = Expected(total: Decimal, lineCount: int)

  function EnsureNotRepriced(expected: Expected, lines: seq<CartLine>, priced: seq<PricedProduct>): Result<()> {
    if |lines| != expected.lineCount then Err(CartRepriced)
    else
      var total :- TotalFrom(None, PriceMap(priced), lines);
      if total.Some? && !SameNumber(total.value.amount, expected.total) then Err(CartRepriced) else Ok(())
  }

  /** The lines a command would place, or the refusal it would meet, whichever check comes first. */
  function Placing(catalog: Catalog, list: Result<PriceTypeId>, expected: Expected,
                   lines: seq<CartLine>): Result<seq<OrderLine>> {
    if lines == [] then Err(EmptyCart)
    else
      var priced :- ForCart(catalog, list, lines);
      var _ :- EnsureNotRepriced(expected, lines, priced);
      var built :- BuildLines(PriceMap(priced), lines, 1);
      var _ :- Orders.Placeable(built);
      Ok(built)
  }

  /** Prices the cart, checks it against the screen, places the order and empties the cart; a refusal at any
      point leaves the cart and the event log as they were. */
  method PlaceOrder(cart: Cart, catalog: Catalog, list: Result<PriceTypeId>, expected: Expected,
                    deliveryAddress: string, orderId: OrderId, placedOn: Day) returns (r: Result<Orders.Order>)
    requires IsCalendarDay(placedOn)
    modifies cart, cart.eventsCollection
    ensures var placing := Placing(catalog, list, expected, old(cart.lines));
            && (placing.Err? ==>
                  r == Err(placing.error) && cart.lines == old(cart.lines)
                  && cart.eventsCollection.events == old(cart.eventsCollection.events))
            && (placing.Ok? ==>
                  var placement := Orders.Placement(cart.userId, placing.value, deliveryAddress, list.value);
                  && r.Ok? && fresh(r.value) && cart.lines == []
                  && Orders.IsNew(r.value.Value(), orderId, Derive(placedOn, orderId), placement)
                  && Orders.Tells(Orders.Announcement(orderId, Derive(placedOn, orderId), placement),
                                  orderId, Derive(placedOn, orderId), placement)
                  && r.value.Value() == Orders.Placed(orderId, Derive(placedOn, orderId), placement)
                  && cart.eventsCollection.events
                  == old(cart.eventsCollection.events)
                     + [Orders.Announcement(orderId, Derive(placedOn, orderId), placement),
                        CartCleared(cart.id, cart.userId, |old(cart.lines)|)])
  {
    hide BuildLines, PriceMap, TotalFrom, SameNumber, Derive, ReadCartPrices;
    hide Orders.Placeable, Orders.Announcement, Orders.Tells, Orders.IsNew, Orders.Placed;
    if cart.lines == [] {
      return Err(EmptyCart);
    }
    var pricing := ForCart(catalog, list, cart.lines);
    if pricing.Err? {
      return Err(pricing.error);
    }
    if |cart.lines| != expected.lineCount {
      return Err(CartRepriced);
    }
    var total := TotalFor(pricing.value, cart.lines);
    if total.Err? {
      return Err(total.error);
    }
    if total.value.Some? && !SameNumber(total.value.value.amount, expected.total) {
      return Err(CartRepriced);
    }
    r := CheckOut(cart, pricing.value, list.value, deliveryAddress, orderId, placedOn);
  }

  /** Turns a priced cart into an order. */
  method CheckOut(cart: Cart, priced: seq<PricedProduct>, list: PriceTypeId, deliveryAddress: string,
                  orderId: OrderId, placedOn: Day) returns (r: Result<Orders.Order>)
    requires IsCalendarDay(placedOn)
    modifies cart, cart.eventsCollection
    ensures var built := BuildLines(PriceMap(priced), old(cart.lines), 1);
            var refusal := if old(cart.lines) == [] then Err(EmptyCart) else if built.Err? then Err(built.error)
                           else Orders.Placeable(built.value);
            && (refusal.Err? ==>
                  r == Err(refusal.error) && cart.lines == old(cart.lines)
                  && cart.eventsCollection.events == old(cart.eventsCollection.events))
            && (refusal.Ok? ==>
                  var placement := Orders.Placement(cart.userId, built.value, deliveryAddress, list);
                  && r.Ok? && fresh(r.value) && cart.lines == []
                  && Orders.IsNew(r.value.Value(), orderId, Derive(placedOn, orderId), placement)
                  && Orders.Tells(Orders.Announcement(orderId, Derive(placedOn, orderId), placement),
                                  orderId, Derive(placedOn, orderId), placement)
                  && r.value.Value() == Orders.Placed(orderId, Derive(placedOn, orderId), placement)
                  && cart.eventsCollection.events
                  == old(cart.eventsCollection.events)
                     + [Orders.Announcement(orderId, Derive(placedOn, orderId), placement),
                        CartCleared(cart.id, cart.userId, |old(cart.lines)|)])
  {
    hide BuildLines, PriceMap, Orders.Placeable, Orders.TotalText, Orders.Tells, Orders.IsNew, Derive;
    if cart.lines == [] {
      return Err(EmptyCart);
    }
    var built := BuildLines(PriceMap(priced), cart.lines, 1);
    if built.Err? {
      return Err(built.error);
    }
    r := Orders.Order.Place(orderId, placedOn, cart.eventsCollection,
                            Orders.Placement(cart.userId, built.value, deliveryAddress, list));
    if r.Ok? {
      Orders.PlacedIsNew(orderId, Derive(placedOn, orderId),
                         Orders.Placement(cart.userId, built.value, deliveryAddress, list));
      cart.ClearLines();
    }
  }
}
