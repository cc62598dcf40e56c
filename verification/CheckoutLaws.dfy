/** Why an order confirmed from the cart screen is the order the screen showed. */
module CheckoutLaws {
  import opened Outcome
  import opened Decimals
  import opened Events
  import opened Money
  import opened Currencies
  import opened Carts
  import opened Orders
  import opened Checkout

  /** The catalog still offers the product and prices it, in a row the domain accepts. */
  ghost predicate Sellable(catalog: Catalog, list: PriceTypeId, id: ProductId) {
    && id in catalog.products && catalog.products[id].isActive
    && (id, list) in catalog.prices
    && ToPricedProduct(id, catalog.products[id], catalog.prices[(id, list)]).Ok?
  }

  ghost predicate AllSellable(catalog: Catalog, list: PriceTypeId, lines: seq<CartLine>) {
    forall line :: line in lines ==> Sellable(catalog, list, line.productId)
  }

  ghost function Offer(catalog: Catalog, list: PriceTypeId, id: ProductId): PricedProduct
    requires Sellable(catalog, list, id)
  {
    ToPricedProduct(id, catalog.products[id], catalog.prices[(id, list)]).value
  }

  /** The cart, line for line, as an order at the current prices would record it. */
  ghost function Snapshot(catalog: Catalog, list: PriceTypeId, lines: seq<CartLine>, position: nat): (s: seq<OrderLine>)
    requires AllSellable(catalog, list, lines)
    ensures |s| == |lines|
    ensures forall i :: 0 <= i < |lines| ==>
                          && s[i].position == position + i
                          && s[i].productId == lines[i].productId && s[i].quantity == lines[i].quantity
                          && s[i].unitPrice == Offer(catalog, list, lines[i].productId).unitPrice
                          && s[i].sku == Offer(catalog, list, lines[i].productId).sku
                          && s[i].name == Offer(catalog, list, lines[i].productId).name
                          && s[i].unit == Offer(catalog, list, lines[i].productId).unit
    decreases |lines|
  {
    if lines == [] then []
    else
      var p := Offer(catalog, list, lines[0].productId);
      [OrderLine(position, p.productId, p.sku, p.name, p.unit, p.unitPrice, lines[0].quantity)]
      + Snapshot(catalog, list, lines[1..], position + 1)
  }

  /** An offer is the catalog's own row at the list's own price. */
  lemma OfferIsTheRow(catalog: Catalog, list: PriceTypeId, id: ProductId)
    requires Sellable(catalog, list, id)
    ensures var (offer, product, price) := (Offer(catalog, list, id), catalog.products[id], catalog.prices[(id, list)]);
            && offer.productId == id
            && offer.sku == product.sku && offer.name == product.name && offer.unit == product.unit
            && offer.unitPrice.amount == price.amount && Some(offer.unitPrice.currency) == ParseCurrency(price.currency)
  {
    hide ParseCurrency;
    var price := catalog.prices[(id, list)];
    MoneyIsTheAmount(price.amount, ParseCurrency(price.currency).value);
  }

  // ---- The reader ------------------------------------------------------------------

  ghost predicate PricesAsOffered(catalog: Catalog, list: PriceTypeId, priced: seq<PricedProduct>) {
    forall p :: p in priced ==> Sellable(catalog, list, p.productId) && p == Offer(catalog, list, p.productId)
  }

  lemma {:induction false} ReaderSplits(catalog: Catalog, list: PriceTypeId, ids: seq<ProductId>)
    requires ReadCartPrices(catalog, list, ids).Ok?
    ensures var prices := ReadCartPrices(catalog, list, ids).value;
            && PricesAsOffered(catalog, list, prices.priced)
            && (forall id :: id in ids && Sellable(catalog, list, id) ==> Offer(catalog, list, id) in prices.priced)
            && (forall id :: id in prices.unpriced <==>
                               id in ids && id in catalog.products && catalog.products[id].isActive
                               && (id, list) !in catalog.prices)
            && (prices.unpriced == [] <==>
                forall id :: id in ids && id in catalog.products && catalog.products[id].isActive
                             ==> (id, list) in catalog.prices)
  {
    if ids != [] {
      var id := ids[0];
      if id in catalog.products && catalog.products[id].isActive && (id, list) in catalog.prices {
        assert ToPricedProduct(id, catalog.products[id], catalog.prices[(id, list)]).Ok?;
      }
      ReaderSplits(catalog, list, ids[1..]);
    }
  }

  lemma {:induction false} ReaderAccepts(catalog: Catalog, list: PriceTypeId, ids: seq<ProductId>)
    requires forall id :: id in ids ==> Sellable(catalog, list, id)
    ensures ReadCartPrices(catalog, list, ids).Ok? && ReadCartPrices(catalog, list, ids).value.unpriced == []
  {
    if ids != [] {
      assert ids[0] in ids;
      ReaderAccepts(catalog, list, ids[1..]);
    }
  }

  lemma {:induction false} PriceMapHolds(priced: seq<PricedProduct>)
    ensures forall p :: p in priced ==> p.productId in PriceMap(priced)
    ensures forall id :: id in PriceMap(priced) ==>
              PriceMap(priced)[id] in priced && PriceMap(priced)[id].productId == id
  {
    if priced != [] {
      PriceMapHolds(priced[..|priced| - 1]);
      assert priced == priced[..|priced| - 1] + [priced[|priced| - 1]];
    }
  }

  lemma {:induction false} IdsOfLines(lines: seq<CartLine>)
    ensures forall id :: id in Products(lines) <==> exists line :: line in lines && line.productId == id
  {
    if lines != [] {
      IdsOfLines(lines[1..]);
      forall id | id in Products(lines) ensures exists line :: line in lines && line.productId == id {
        if id == lines[0].productId {
          assert lines[0] in lines;
        } else {
          assert id in Products(lines[1..]);
          var line :| line in lines[1..] && line.productId == id;
          assert line in lines;
        }
      }
    }
  }

  /** Whatever the service answers with holds exactly the sellable products of the cart, as offered. */
  lemma ServiceMap(catalog: Catalog, list: PriceTypeId, lines: seq<CartLine>)
    ensures AllSellable(catalog, list, lines) ==> ForCart(catalog, Ok(list), lines).Ok?
    ensures ForCart(catalog, Ok(list), lines).Ok? ==>
              var prices := PriceMap(ForCart(catalog, Ok(list), lines).value);
              forall line :: line in lines ==>
                               && (line.productId in prices <==> Sellable(catalog, list, line.productId))
                               && (line.productId in prices ==>
                                   prices[line.productId] == Offer(catalog, list, line.productId))
  {
    IdsOfLines(lines);
    if AllSellable(catalog, list, lines) { ReaderAccepts(catalog, list, Products(lines)); }
    if ForCart(catalog, Ok(list), lines).Ok? {
      ReaderSplits(catalog, list, Products(lines));
      PriceMapHolds(ForCart(catalog, Ok(list), lines).value);
    }
  }

  // ---- Totals ------------------------------------------------------------------------

  ghost predicate Offers(catalog: Catalog, list: PriceTypeId, prices: map<ProductId, PricedProduct>,
                         lines: seq<CartLine>) {
    && AllSellable(catalog, list, lines)
    && forall line :: line in lines ==>
                        line.productId in prices && prices[line.productId] == Offer(catalog, list, line.productId)
  }

  lemma {:induction false} BuiltIsSnapshot(catalog: Catalog, list: PriceTypeId, prices: map<ProductId, PricedProduct>,
                                           lines: seq<CartLine>, position: nat)
    requires Offers(catalog, list, prices, lines)
    ensures BuildLines(prices, lines, position) == Ok(Snapshot(catalog, list, lines, position))
    decreases |lines|
  {
    if lines != [] {
      BuiltIsSnapshot(catalog, list, prices, lines[1..], position + 1);
    }
  }

  lemma {:induction false} BuildNeedsEveryPrice(prices: map<ProductId, PricedProduct>, lines: seq<CartLine>,
                                                position: nat)
    ensures BuildLines(prices, lines, position).Ok? <==> forall line :: line in lines ==> line.productId in prices
    ensures BuildLines(prices, lines, position).Err? ==> BuildLines(prices, lines, position).error == UnpricedCartLine
    decreases |lines|
  {
    if lines != [] {
      BuildNeedsEveryPrice(prices, lines[1..], position + 1);
    }
  }

  /** The service adds the same lines the order adds, from whatever it has so far. */
  lemma {:induction false} ServiceAddsTheOrdersLines(catalog: Catalog, list: PriceTypeId,
                                                     prices: map<ProductId, PricedProduct>,
                                                     total: Money, lines: seq<CartLine>, position: nat)
    requires Offers(catalog, list, prices, lines)
    ensures var sum := AddUp(total, Snapshot(catalog, list, lines, position));
            TotalFrom(Some(total), prices, lines) == if sum.Err? then Err(sum.error) else Ok(Some(sum.value))
    decreases |lines|
  {
    if lines != [] {
      var snapshot := Snapshot(catalog, list, lines, position);
      assert snapshot[1..] == Snapshot(catalog, list, lines[1..], position + 1);
      var lineTotal := LineTotal(snapshot[0]);
      if lineTotal.Ok? {
        var next := Plus(total, lineTotal.value);
        if next.Ok? {
          ServiceAddsTheOrdersLines(catalog, list, prices, next.value, lines[1..], position + 1);
        }
      }
    }
  }

  /** The service and the order come to the same amount, and are refused in the same cases. */
  lemma ServiceAgreesWithOrder(catalog: Catalog, list: PriceTypeId, prices: map<ProductId, PricedProduct>,
                               lines: seq<CartLine>)
    requires lines != [] && Offers(catalog, list, prices, lines)
    ensures var snapshot := Snapshot(catalog, list, lines, 1);
            var total := TotalFrom(None, prices, lines);
            && (total.Ok? <==> SingleCurrency(snapshot) && TrueCents(snapshot) <= MAX_CENTS)
            && (total.Ok? ==>
                  total.value.Some? && SameNumber(total.value.value.amount, Finite(TrueCents(snapshot), -2))
                  && TotalOf(snapshot).Ok? && SameNumber(total.value.value.amount, TotalOf(snapshot).value.amount))
            && (total.Err? ==> total.error in {CurrencyMismatch, MoneyAmountOutOfRange})
  {
    var snapshot := Snapshot(catalog, list, lines, 1);
    var first := LineTotal(snapshot[0]);
    assert snapshot[1..] == Snapshot(catalog, list, lines[1..], 2);
    TimesQuantityMeaning(snapshot[0].unitPrice, snapshot[0].quantity);
    if first.Ok? {
      ServiceAddsTheOrdersLines(catalog, list, prices, first.value, lines[1..], 2);
      AddUpRefusals(first.value, snapshot[1..]);
      if SingleCurrency(snapshot) {
        AddUpMeaning(first.value, snapshot[1..]);
        TotalMeaning(snapshot);
        var total := TotalFrom(None, prices, lines);
        if total.Ok? {
          SameCentsSameNumber(total.value.value.amount, Finite(TrueCents(snapshot), -2));
          SameCentsSameNumber(total.value.value.amount, TotalOf(snapshot).value.amount);
        }
      }
    }
  }

  // ---- The screen -----------------------------------------------------------------------

  /** Every price of the cart under the list is a value the domain accepts. */
  ghost predicate ValidRows(catalog: Catalog, list: PriceTypeId, lines: seq<CartLine>) {
    forall line :: line in lines && line.productId in catalog.products && (line.productId, list) in catalog.prices ==>
                     ToPricedProduct(line.productId, catalog.products[line.productId],
                                     catalog.prices[(line.productId, list)]).Ok?
  }

  lemma {:induction false} TrueCentsBound(lines: seq<OrderLine>)
    ensures TrueCents(lines) <= |lines| * 999_999_999_999_000_000
    decreases |lines|
  {
    if lines != [] {
      TrueCentsBound(lines[1..]);
      ProductBound(Cents(lines[0].unitPrice), lines[0].quantity);
    }
  }

  lemma {:induction false} ScreenSum(catalog: Catalog, list: PriceTypeId, lines: seq<CartLine>, start: Decimal,
                                     position: nat)
    requires AllSellable(catalog, list, lines) && start.Finite? && start.exponent == -2 && start.coefficient >= 0
    requires start.coefficient + TrueCents(Snapshot(catalog, list, lines, position)) < PRECISION_BOUND
    ensures Sum(start, PricedTotals(ToLineViews(catalog, list, lines)))
         == Finite(start.coefficient + TrueCents(Snapshot(catalog, list, lines, position)), -2)
    decreases |lines|
  {
    hide Sellable, Offer, Add, Times, Cents;
    if lines != [] {
      hide ToLineViews, PricedTotals;
      var snapshot := Snapshot(catalog, list, lines, position);
      assert snapshot[1..] == Snapshot(catalog, list, lines[1..], position + 1);
      var price, quantity := snapshot[0].unitPrice, lines[0].quantity;
      ProductBound(Cents(price), quantity);
      ScreenAdds(start, price, quantity);
      ScreenSum(catalog, list, lines[1..], Finite(start.coefficient + Cents(price) * quantity, -2), position + 1);
      FirstTotal(catalog, list, lines);
    }
  }

  lemma ScreenAdds(start: Decimal, price: Money, quantity: Quantity)
    requires start.Finite? && start.exponent == -2 && start.coefficient >= 0
    requires start.coefficient + Cents(price) * quantity < PRECISION_BOUND
    ensures Add(start, Times(price.amount, quantity)) == Finite(start.coefficient + Cents(price) * quantity, -2)
  {
    TimesIsExact(price, quantity);
    ProductBound(Cents(price), quantity);
    AddIsExact(start, Times(price.amount, quantity), -2);
  }

  lemma FirstTotal(catalog: Catalog, list: PriceTypeId, lines: seq<CartLine>)
    requires lines != [] && AllSellable(catalog, list, lines)
    ensures var totals := PricedTotals(ToLineViews(catalog, list, lines));
            && totals != [] && totals[1..] == PricedTotals(ToLineViews(catalog, list, lines[1..]))
            && totals[0].amount == Times(Offer(catalog, list, lines[0].productId).unitPrice.amount, lines[0].quantity)
            && totals[0].currency == catalog.prices[(lines[0].productId, list)].currency
            && ParseCurrency(totals[0].currency) == Some(Offer(catalog, list, lines[0].productId).unitPrice.currency)
  {
    assert lines[0] in lines;
    assert ToLineViews(catalog, list, lines)[1..] == ToLineViews(catalog, list, lines[1..]);
  }

  /** A screen that offers to check out shows, to the kopeck and without any limit, what the lines come to, in
      the currency of the first of them, which is the order's whenever there is an order. */
  lemma ScreenShowsTheTruth(catalog: Catalog, list: PriceTypeId, lines: seq<CartLine>)
    requires WellFormed(lines) && ValidRows(catalog, list, lines)
    requires OffersCheckout(ToCartView(catalog, list, lines))
    ensures AllSellable(catalog, list, lines)
    ensures var (total, snapshot) := (ToCartView(catalog, list, lines).total, Snapshot(catalog, list, lines, 1));
            && total.amount == Finite(TrueCents(snapshot), -2)
            && ParseCurrency(total.currency) == Some(snapshot[0].unitPrice.currency)
            && (TotalOf(snapshot).Ok? ==> ParseCurrency(total.currency) == Some(TotalOf(snapshot).value.currency))
  {
    EveryLineIsSellable(catalog, list, lines);
    hide Sellable, ParseCurrency, WellFormed, OffersCheckout, ValidRows, TotalOf;
    var snapshot := Snapshot(catalog, list, lines, 1);
    TrueCentsBound(snapshot);
    ScreenSum(catalog, list, lines, Finite(0, -2), 1);
    ScreenCurrency(catalog, list, lines);
    TotalCurrency(snapshot);
  }

  lemma TotalCurrency(lines: seq<OrderLine>)
    ensures lines != [] && TotalOf(lines).Ok? ==> TotalOf(lines).value.currency == lines[0].unitPrice.currency
  {
    if lines != [] && TotalOf(lines).Ok? {
      AddUpRefusals(Zero(lines[0].unitPrice.currency), lines);
      TotalMeaning(lines);
    }
  }

  lemma EveryLineIsSellable(catalog: Catalog, list: PriceTypeId, lines: seq<CartLine>)
    requires ValidRows(catalog, list, lines) && OffersCheckout(ToCartView(catalog, list, lines))
    ensures AllSellable(catalog, list, lines) && lines != []
  {
    var view := ToCartView(catalog, list, lines);
    forall line | line in lines ensures Sellable(catalog, list, line.productId) {
      var i :| 0 <= i < |lines| && lines[i] == line;
      assert view.lines[i] in view.lines;
    }
  }

  lemma ScreenCurrency(catalog: Catalog, list: PriceTypeId, lines: seq<CartLine>)
    requires lines != [] && AllSellable(catalog, list, lines)
    ensures ParseCurrency(ToCartView(catalog, list, lines).total.currency)
         == Some(Snapshot(catalog, list, lines, 1)[0].unitPrice.currency)
  {
    hide Sellable, Offer, ToLineViews, PricedTotals, Sum, ParseCurrency;
    FirstTotal(catalog, list, lines);
  }

  /** A line of the screen, whatever the catalog holds of it: its own product and quantity, available exactly
      when the product is active, priced exactly when the list prices it, at so many times the price. */
  lemma ScreenLine(catalog: Catalog, list: PriceTypeId, lines: seq<CartLine>, i: nat)
    requires i < |lines|
    ensures var (view, line) := (ToCartView(catalog, list, lines), lines[i]);
            var key := (line.productId, list);
            && |view.lines| == |lines|
            && view.lines[i].productId == line.productId && view.lines[i].quantity == line.quantity
            && (view.lines[i].isAvailable <==>
                line.productId in catalog.products && catalog.products[line.productId].isActive)
            && (view.lines[i].lineTotal.Some? <==> key in catalog.prices)
            && (key in catalog.prices ==> view.lines[i].lineTotal.value.currency == catalog.prices[key].currency)
            && (key in catalog.prices && IsAmount(catalog.prices[key].amount) ==>
                  view.lines[i].lineTotal.value.amount.Finite?
                  && view.lines[i].lineTotal.value.amount.exponent >= -2
                  && Scaled(view.lines[i].lineTotal.value.amount, -2)
                     == Scaled(catalog.prices[key].amount, -2) * line.quantity)
  {
    hide Times, Scaled;
    var key := (lines[i].productId, list);
    if key in catalog.prices && IsAmount(catalog.prices[key].amount) {
      LineTotalIsExact(catalog.prices[key].amount, lines[i].quantity);
    }
  }

  /** A price the domain accepts. */
  ghost predicate IsAmount(amount: Decimal) {
    IsValid(MoneyFields(amount, Rub))
  }

  lemma LineTotalIsExact(amount: Decimal, quantity: Quantity)
    requires IsAmount(amount)
    ensures var total := Times(amount, quantity);
            total.Finite? && total.exponent >= -2 && Scaled(total, -2) == Scaled(amount, -2) * quantity
  {
    TimesIsExact(MoneyFields(amount, Rub), quantity);
  }

  /** A screen offers to check out exactly when the cart holds something and all of it is offered. */
  lemma ScreenOffersExactly(catalog: Catalog, list: PriceTypeId, lines: seq<CartLine>)
    requires ValidRows(catalog, list, lines)
    ensures OffersCheckout(ToCartView(catalog, list, lines)) <==> lines != [] && AllSellable(catalog, list, lines)
  {
    var view := ToCartView(catalog, list, lines);
    if OffersCheckout(view) {
      EveryLineIsSellable(catalog, list, lines);
    }
    if lines != [] && AllSellable(catalog, list, lines) {
      forall shown | shown in view.lines ensures shown.isAvailable && shown.lineTotal.Some? {
        var i :| 0 <= i < |view.lines| && view.lines[i] == shown;
        assert lines[i] in lines;
      }
    }
  }

  ghost predicate PricesAreAmounts(catalog: Catalog, list: PriceTypeId, lines: seq<CartLine>) {
    forall line :: line in lines && (line.productId, list) in catalog.prices ==>
                     IsAmount(catalog.prices[(line.productId, list)].amount)
  }

  /** What the priced lines of a cart come to, in hundredths. */
  ghost function PricedCents(catalog: Catalog, list: PriceTypeId, lines: seq<CartLine>): nat
    requires PricesAreAmounts(catalog, list, lines)
    decreases |lines|
  {
    if lines == [] then 0
    else
      var key := (lines[0].productId, list);
      (if key in catalog.prices then CentsOf(catalog.prices[key].amount, lines[0].quantity) else 0)
      + PricedCents(catalog, list, lines[1..])
  }

  ghost function CentsOf(amount: Decimal, quantity: Quantity): (c: nat)
    requires IsAmount(amount)
    ensures c == Scaled(amount, -2) * quantity && c <= 999_999_999_999_000_000
  {
    ProductBound(Scaled(amount, -2), quantity);
    Scaled(amount, -2) * quantity
  }

  lemma {:induction false} PricedCentsBound(catalog: Catalog, list: PriceTypeId, lines: seq<CartLine>)
    requires PricesAreAmounts(catalog, list, lines)
    ensures PricedCents(catalog, list, lines) <= |lines| * 999_999_999_999_000_000
    decreases |lines|
  {
    if lines != [] {
      PricedCentsBound(catalog, list, lines[1..]);
    }
  }

  lemma {:induction false} ScreenAddsPriced(catalog: Catalog, list: PriceTypeId, lines: seq<CartLine>, start: Decimal)
    requires PricesAreAmounts(catalog, list, lines)
    requires start.Finite? && start.exponent == -2 && start.coefficient >= 0
    requires start.coefficient + PricedCents(catalog, list, lines) < PRECISION_BOUND
    ensures Sum(start, PricedTotals(ToLineViews(catalog, list, lines)))
         == Finite(start.coefficient + PricedCents(catalog, list, lines), -2)
    decreases |lines|
  {
    hide Add, Times, IsAmount, Scaled;
    if lines != [] {
      var key := (lines[0].productId, list);
      assert lines[0] in lines;
      assert ToLineViews(catalog, list, lines)[1..] == ToLineViews(catalog, list, lines[1..]);
      if key in catalog.prices {
        var cents := CentsOf(catalog.prices[key].amount, lines[0].quantity);
        AddsOne(start, catalog.prices[key].amount, lines[0].quantity);
        ScreenAddsPriced(catalog, list, lines[1..], Finite(start.coefficient + cents, -2));
        var totals := PricedTotals(ToLineViews(catalog, list, lines));
        assert totals[1..] == PricedTotals(ToLineViews(catalog, list, lines[1..]));
      } else {
        ScreenAddsPriced(catalog, list, lines[1..], start);
        assert PricedTotals(ToLineViews(catalog, list, lines)) == PricedTotals(ToLineViews(catalog, list, lines[1..]));
      }
    }
  }

  lemma AddsOne(start: Decimal, amount: Decimal, quantity: Quantity)
    requires start.Finite? && start.exponent == -2 && start.coefficient >= 0 && IsAmount(amount)
    requires start.coefficient + CentsOf(amount, quantity) < PRECISION_BOUND
    ensures Add(start, Times(amount, quantity)) == Finite(start.coefficient + CentsOf(amount, quantity), -2)
  {
    ScreenAdds(start, MoneyFields(amount, Rub), quantity);
  }

  lemma {:induction false} FirstPriced(views: seq<LineView>, i: nat)
    requires i < |views| && views[i].lineTotal.Some? && forall j :: 0 <= j < i ==> views[j].lineTotal.None?
    ensures PricedTotals(views) != [] && PricedTotals(views)[0] == views[i].lineTotal.value
  {
    if i > 0 { FirstPriced(views[1..], i - 1); }
  }

  lemma {:induction false} NonePriced(views: seq<LineView>)
    requires forall i :: 0 <= i < |views| ==> views[i].lineTotal.None?
    ensures PricedTotals(views) == []
  {
    if views != [] { NonePriced(views[1..]); }
  }

  /** Any screen, one that does not offer to check out included, shows what its priced lines come to, in the
      currency of the first of them; and nothing, in roubles, when none is priced. */
  lemma ScreenTotal(catalog: Catalog, list: PriceTypeId, lines: seq<CartLine>)
    requires WellFormed(lines) && PricesAreAmounts(catalog, list, lines)
    ensures var total := ToCartView(catalog, list, lines).total;
            && total.amount == Finite(PricedCents(catalog, list, lines), -2)
            && (forall i :: 0 <= i < |lines| && (lines[i].productId, list) in catalog.prices
                            && (forall j :: 0 <= j < i ==> (lines[j].productId, list) !in catalog.prices) ==>
                              total.currency == catalog.prices[(lines[i].productId, list)].currency)
            && ((forall i :: 0 <= i < |lines| ==> (lines[i].productId, list) !in catalog.prices) ==>
                  total.currency == "rub")
  {
    hide Add, Times, IsAmount, Scaled, Sum, PricedTotals;
    PricedCentsBound(catalog, list, lines);
    ScreenAddsPriced(catalog, list, lines, Finite(0, -2));
    var views := ToLineViews(catalog, list, lines);
    if forall i :: 0 <= i < |lines| ==> (lines[i].productId, list) !in catalog.prices {
      NonePriced(views);
    }
    forall i | 0 <= i < |lines| && (lines[i].productId, list) in catalog.prices
               && forall j :: 0 <= j < i ==> (lines[j].productId, list) !in catalog.prices
      ensures PricedTotals(views) != []
              && PricedTotals(views)[0].currency == catalog.prices[(lines[i].productId, list)].currency
    {
      FirstPriced(views, i);
    }
    if PricedTotals(views) == [] { NothingToSum(Finite(0, -2)); }
  }

  lemma NothingToSum(start: Decimal)
    ensures Sum(start, []) == start
  {
  }

  // ---- Placing ------------------------------------------------------------------------------

  /** Exactly when a command places an order, and which lines it places. */
  lemma PlacingSucceeds(catalog: Catalog, list: Result<PriceTypeId>, expected: Expected, lines: seq<CartLine>)
    ensures Placing(catalog, list, expected, lines).Ok? <==>
            && lines != [] && list.Ok? && AllSellable(catalog, list.value, lines)
            && expected.lineCount == |lines|
            && var snapshot := Snapshot(catalog, list.value, lines, 1);
            && SingleCurrency(snapshot) && TrueCents(snapshot) <= MAX_CENTS
            && SameNumber(expected.total, Finite(TrueCents(snapshot), -2))
    ensures Placing(catalog, list, expected, lines).Ok? ==>
              Placing(catalog, list, expected, lines).value == Snapshot(catalog, list.value, lines, 1)
  {
    if lines != [] && list.Ok? {
      ServiceMap(catalog, list.value, lines);
      var priced := ForCart(catalog, list, lines);
      if priced.Ok? {
        var prices := PriceMap(priced.value);
        BuildNeedsEveryPrice(prices, lines, 1);
        if AllSellable(catalog, list.value, lines) {
          var snapshot := Snapshot(catalog, list.value, lines, 1);
          BuiltIsSnapshot(catalog, list.value, prices, lines, 1);
          ServiceAgreesWithOrder(catalog, list.value, prices, lines);
          if SingleCurrency(snapshot) { TotalMeaning(snapshot); }
          var total := TotalFrom(None, prices, lines);
          if total.Ok? && expected.total.Finite? {
            SameNumberIsTransitive(total.value.value.amount, Finite(TrueCents(snapshot), -2), expected.total);
          }
        }
      }
    }
  }

  lemma SameNumberIsTransitive(a: Decimal, b: Decimal, c: Decimal)
    requires a.Finite? && b.Finite? && c.Finite? && SameNumber(a, b)
    ensures SameNumber(a, c) <==> SameNumber(c, b)
  {
    var low := Min(a.exponent, Min(b.exponent, c.exponent));
    ComparedAt(a, b, low);
    ComparedAt(a, c, low);
    ComparedAt(c, b, low);
  }

  /** What a successful command placed is what the screen promised: the same amount, the same number of
      lines, the cart's own products and quantities in order at positions 1 to n. */
  lemma PlacedAsPromised(catalog: Catalog, list: Result<PriceTypeId>, expected: Expected, lines: seq<CartLine>)
    requires Placing(catalog, list, expected, lines).Ok?
    ensures var placed := Placing(catalog, list, expected, lines).value;
            && |placed| == expected.lineCount == |lines|
            && TotalOf(placed).Ok? && SameNumber(TotalOf(placed).value.amount, expected.total)
            && forall i :: 0 <= i < |lines| ==>
                             && placed[i].position == i + 1 && placed[i].productId == lines[i].productId
                             && placed[i].quantity == lines[i].quantity
                             && list.Ok? && IsRowOf(catalog, list.value, placed[i])
  {
    hide Offer, Sellable, IsRowOf, TotalOf, Placing;
    PlacingSucceeds(catalog, list, expected, lines);
    var placed := Snapshot(catalog, list.value, lines, 1);
    TotalMeaning(placed);
    forall i | 0 <= i < |lines| ensures IsRowOf(catalog, list.value, placed[i]) {
      assert lines[i] in lines;
      SnapshotOfRow(catalog, list.value, lines, i);
    }
  }

  /** A line with the catalog's own article, name and unit, at the list's own price. */
  ghost predicate IsRowOf(catalog: Catalog, list: PriceTypeId, line: OrderLine) {
    && line.productId in catalog.products && (line.productId, list) in catalog.prices
    && var (product, price) := (catalog.products[line.productId], catalog.prices[(line.productId, list)]);
       && line.sku == product.sku && line.name == product.name && line.unit == product.unit
       && line.unitPrice.amount == price.amount && Some(line.unitPrice.currency) == ParseCurrency(price.currency)
  }

  lemma SnapshotOfRow(catalog: Catalog, list: PriceTypeId, lines: seq<CartLine>, i: nat)
    requires AllSellable(catalog, list, lines) && i < |lines|
    ensures IsRowOf(catalog, list, Snapshot(catalog, list, lines, 1)[i])
  {
    hide ParseCurrency;
    var id := lines[i].productId;
    assert lines[i] in lines;
    assert Sellable(catalog, list, id);
    OfferIsTheRow(catalog, list, id);
  }

  /** What is refused before prices matter. */
  lemma RefusedBeforePricing(catalog: Catalog, list: Result<PriceTypeId>, expected: Expected, lines: seq<CartLine>)
    ensures lines == [] ==> Placing(catalog, list, expected, lines) == Err(EmptyCart)
    ensures lines != [] && list.Err? ==> Placing(catalog, list, expected, lines) == Err(list.error)
  {
  }

  /** Over a cart whose products are all offered: a changed number of lines is a repricing, and so is a changed
      total; lines that cannot be added up are refused as such. */
  lemma WhenRepriced(catalog: Catalog, list: PriceTypeId, expected: Expected, lines: seq<CartLine>)
    requires lines != [] && AllSellable(catalog, list, lines)
    ensures var snapshot := Snapshot(catalog, list, lines, 1);
            var placing := Placing(catalog, Ok(list), expected, lines);
            if expected.lineCount != |lines| then placing == Err(CartRepriced)
            else if !SingleCurrency(snapshot) || TrueCents(snapshot) > 999_999_999_999 then
              placing.Err? && placing.error in {CurrencyMismatch, MoneyAmountOutOfRange}
            else if !SameNumber(expected.total, Finite(TrueCents(snapshot), -2)) then placing == Err(CartRepriced)
            else placing == Ok(snapshot)
  {
    hide Sellable, Offer, TrueCents, SingleCurrency, SameNumber, BuildLines, TotalFrom, ReadCartPrices, PriceMap;
    PlacingSucceeds(catalog, Ok(list), expected, lines);
    ServiceMap(catalog, list, lines);
    var snapshot := Snapshot(catalog, list, lines, 1);
    var prices := PriceMap(ForCart(catalog, Ok(list), lines).value);
    ServiceAgreesWithOrder(catalog, list, prices, lines);
    var total := TotalFrom(None, prices, lines);
    if total.Ok? && expected.total.Finite? {
      SameNumberIsTransitive(total.value.value.amount, Finite(TrueCents(snapshot), -2), expected.total);
    }
    if total.Ok? { SymmetricNumber(total.value.value.amount, expected.total, Finite(TrueCents(snapshot), -2)); }
  }

  /** A number equal to one is unequal to what the other is unequal to. */
  lemma SymmetricNumber(a: Decimal, b: Decimal, c: Decimal)
    requires SameNumber(a, c)
    ensures SameNumber(a, b) ==> SameNumber(b, c)
  {
    if SameNumber(a, b) { SameNumberIsTransitive(a, c, b); }
  }

  /** An order confirmed from a screen that offered it, at prices that have not moved, is never refused as
      repriced: it is placed exactly when the lines share a currency and stay within the money limit. */
  lemma ConfirmedFromTheScreen(catalog: Catalog, list: PriceTypeId, lines: seq<CartLine>)
    requires WellFormed(lines) && ValidRows(catalog, list, lines)
    requires OffersCheckout(ToCartView(catalog, list, lines))
    ensures AllSellable(catalog, list, lines)
    ensures var view := ToCartView(catalog, list, lines);
            var placing := Placing(catalog, Ok(list), Expected(view.total.amount, |view.lines|), lines);
            var snapshot := Snapshot(catalog, list, lines, 1);
            && (placing.Ok? <==> SingleCurrency(snapshot) && TrueCents(snapshot) <= MAX_CENTS)
            && (placing.Err? ==> placing.error in {CurrencyMismatch, MoneyAmountOutOfRange})
  {
    ScreenShowsTheTruth(catalog, list, lines);
    var view := ToCartView(catalog, list, lines);
    var expected := Expected(view.total.amount, |view.lines|);
    var snapshot := Snapshot(catalog, list, lines, 1);
    PlacingSucceeds(catalog, Ok(list), expected, lines);
    ServiceMap(catalog, list, lines);
    var prices := PriceMap(ForCart(catalog, Ok(list), lines).value);
    ServiceAgreesWithOrder(catalog, list, prices, lines);
    SameCentsSameNumber(view.total.amount, Finite(TrueCents(snapshot), -2));
  }

  lemma {:induction false} NoTotalWithoutEveryPrice(total: Option<Money>, prices: map<ProductId, PricedProduct>,
                                                    lines: seq<CartLine>)
    requires exists line :: line in lines && line.productId !in prices
    ensures var r := TotalFrom(total, prices, lines);
            if r.Ok? then r.value.None? else r.error in {CurrencyMismatch, MoneyAmountOutOfRange}
    decreases |lines|
  {
    if lines[0].productId in prices {
      var line :| line in lines && line.productId !in prices;
      assert line in lines[1..];
      var price := prices[lines[0].productId].unitPrice;
      TimesQuantityMeaning(price, lines[0].quantity);
      var lineTotal := TimesQuantity(price, lines[0].quantity);
      if lineTotal.Ok? {
        if total.Some? { PlusMeaning(total.value, lineTotal.value); }
        var next := if total.None? then Ok(lineTotal.value) else Plus(total.value, lineTotal.value);
        if next.Ok? { NoTotalWithoutEveryPrice(Some(next.value), prices, lines[1..]); }
      }
    }
  }

  /** A product the catalog stopped selling or pricing since the screen was drawn is never mistaken for a
      repricing: with as many lines as the screen showed, a listed product without a price is named as such,
      and a withdrawn one as a line that cannot be priced. */
  lemma LostProductsAreNotRepricing(catalog: Catalog, list: PriceTypeId, expected: Expected, lines: seq<CartLine>)
    requires lines != [] && expected.lineCount == |lines| && ValidRows(catalog, list, lines)
    requires !AllSellable(catalog, list, lines)
    ensures var placing := Placing(catalog, Ok(list), expected, lines);
            var unpriced := exists line :: line in lines && line.productId in catalog.products
                                           && catalog.products[line.productId].isActive
                                           && (line.productId, list) !in catalog.prices;
            && placing.Err?
            && (unpriced ==> placing.error == ProductNotPriced)
            && (!unpriced ==> placing.error in {UnpricedCartLine, CurrencyMismatch, MoneyAmountOutOfRange})
  {
    var ids := Products(lines);
    IdsOfLines(lines);
    ValidRowsAreRead(catalog, list, lines, ids);
    ReaderSplits(catalog, list, ids);
    ServiceMap(catalog, list, lines);
    var priced := ForCart(catalog, Ok(list), lines);
    if priced.Ok? {
      var prices := PriceMap(priced.value);
      var lost :| lost in lines && !Sellable(catalog, list, lost.productId);
      assert lost.productId !in prices;
      NoTotalWithoutEveryPrice(None, prices, lines);
      BuildNeedsEveryPrice(prices, lines, 1);
    }
  }

  lemma {:induction false} ValidRowsAreRead(catalog: Catalog, list: PriceTypeId, lines: seq<CartLine>,
                                            ids: seq<ProductId>)
    requires ValidRows(catalog, list, lines)
    requires forall id :: id in ids ==> exists line :: line in lines && line.productId == id
    ensures ReadCartPrices(catalog, list, ids).Ok?
    decreases |ids|
  {
    if ids != [] {
      assert ids[0] in ids && forall id :: id in ids[1..] ==> id in ids;
      ValidRowsAreRead(catalog, list, lines, ids[1..]);
    }
  }

  // ---- The second tap -------------------------------------------------------------------------

  /** What one person does to a cart, one thing after another: changing it, or confirming it. */
  datatype Tap =
    | Change(op: CartOp)
    | Confirm(catalog: Catalog, list: Result<PriceTypeId>, expected: Expected)

  /** The refusal a confirmation meets, or the lines it places. */
  function Answer(c: Draft, tap: Tap): Result<seq<OrderLine>>
    requires tap.Confirm?
  {
    Placing(tap.catalog, tap.list, tap.expected, c.lines)
  }

  predicate Places(c: Draft, tap: Tap) {
    tap.Confirm? && Answer(c, tap).Ok?
  }

  predicate Adds(c: Draft, tap: Tap) {
    tap.Change? && tap.op.AddItem? && Carts.Apply(c, tap.op).answer.Ok?
  }

  function AfterTap(c: Draft, tap: Tap): Draft {
    if tap.Change? then c.(lines := Carts.Apply(c, tap.op).lines) else if Places(c, tap) then c.(lines := []) else c
  }

  function AfterTaps(c: Draft, taps: seq<Tap>): Draft
    decreases |taps|
  {
    if taps == [] then c else AfterTaps(AfterTap(c, taps[0]), taps[1..])
  }

  function OrdersPlaced(c: Draft, taps: seq<Tap>): nat
    decreases |taps|
  {
    if taps == [] then 0 else (if Places(c, taps[0]) then 1 else 0) + OrdersPlaced(AfterTap(c, taps[0]), taps[1..])
  }

  function Additions(c: Draft, taps: seq<Tap>): nat
    decreases |taps|
  {
    if taps == [] then 0 else (if Adds(c, taps[0]) then 1 else 0) + Additions(AfterTap(c, taps[0]), taps[1..])
  }

  ghost function Filled(c: Draft): nat {
    if c.lines == [] then 0 else 1
  }

  /** A tap that neither adds nor places leaves an empty cart empty, and placing needs one that is not. */
  lemma OneTap(c: Draft, tap: Tap)
    ensures Filled(AfterTap(c, tap)) + (if Places(c, tap) then 1 else 0) <= Filled(c) + (if Adds(c, tap) then 1 else 0)
  {
  }

  /** In any serial run, however often it is confirmed and whatever the screens promised, there are no more
      orders than accepted additions, give or take the cart there was to begin with. */
  lemma {:induction false} OrdersNeedAdditions(c: Draft, taps: seq<Tap>)
    ensures OrdersPlaced(c, taps) + Filled(AfterTaps(c, taps)) <= Filled(c) + Additions(c, taps)
    decreases |taps|
  {
    hide AfterTap, Places, Adds, Filled;
    if taps != [] {
      OneTap(c, taps[0]);
      OrdersNeedAdditions(AfterTap(c, taps[0]), taps[1..]);
    }
  }

  /** After an order is placed, every further confirmation is told the cart is empty, whatever it expects,
      whatever the prices and whatever else was tapped, until something is added again. */
  lemma {:induction false} SecondTap(c: Draft, first: Tap, between: seq<Tap>, again: Tap)
    requires Places(c, first) && again.Confirm?
    requires Additions(AfterTap(c, first), between) == 0
    ensures OrdersPlaced(AfterTap(c, first), between) == 0
    ensures Answer(AfterTaps(AfterTap(c, first), between), again) == Err(EmptyCart)
  {
    hide OrdersPlaced, Additions, AfterTaps;
    OrdersNeedAdditions(AfterTap(c, first), between);
  }
}
