/** The catalog projection: what one snapshot writes and what finalising a batch takes away. */
module Projection {
  import opened Outcome
  import opened Decimals
  import opened Currencies
  import CategoryTree
  import opened Upserts

  datatype CategoryCard = CategoryCard(parent: Option<string>, name: string, placement: CategoryTree.Placement)
  datatype PriceTypeCard = PriceTypeCard(name: string, currency: string, isSupported: bool)

  /** A number as the exchange sends it: of any scale, and possibly none. */
  datatype Amount = Number(coefficient: int, exponent: int) | Infinity(negative: bool) | NaN

  /** A price as sent, and as its row holds it. */
  datatype PriceOffer = PriceOffer(amount: Amount, currency: string)
  datatype PriceCard = PriceCard(amount: Decimal, currency: string)
  datatype BindingCard = BindingCard(priceTypeId: string, sourceCounterpartyId: Option<string>)

  /** Product cards and stock figures are carried through unread. */
  datatype Tables = Tables(
    categories: Table<string, CategoryCard>,
    products: Table<string, string>,
    priceTypes: Table<string, PriceTypeCard>,
    prices: Table<PriceKey, PriceCard>,
    stock: Table<(string, string), Decimal>,
    bindings: Table<string, BindingCard>)

  type PriceKey = (string, string)
  type Offer = Incoming<PriceKey, PriceOffer>

  datatype CategoryRow = CategoryRow(id: string, parent: Option<string>, name: string, changedAt: Option<int>)
  datatype PriceTypeRow = PriceTypeRow(id: string, name: string, currency: string, changedAt: Option<int>)

  datatype Snapshot = Snapshot(
    batch: string,
    categories: seq<CategoryRow>,
    products: seq<Incoming<string, string>>,
    priceTypes: seq<PriceTypeRow>,
    prices: seq<Offer>,
    stock: seq<Incoming<(string, string), Decimal>>,
    bindings: seq<Incoming<string, BindingCard>>)

  datatype Scope =
    | Categories
    | Products
    | PriceTypes
    | Prices(priceTypeId: Option<string>)
    | Stock(warehouseId: Option<string>)
    | Bindings

  // ---- What a snapshot writes ---------------------------------------------------------

  function CategoryOf(row: CategoryRow): CategoryTree.Category {
    CategoryTree.Category(row.id, row.parent)
  }

  function Graph(rows: seq<CategoryRow>): seq<CategoryTree.Category> {
    seq(|rows|, i requires 0 <= i < |rows| => CategoryOf(rows[i]))
  }

  /** Every category of the batch with the place the batch as a whole gives it. */
  function CategoryValues(rows: seq<CategoryRow>, placements: map<string, CategoryTree.Placement>)
    : seq<Incoming<string, CategoryCard>>
    requires forall row :: row in rows ==> row.id in placements
  {
    seq(|rows|, i requires 0 <= i < |rows| =>
          Incoming(rows[i].id, CategoryCard(rows[i].parent, rows[i].name, placements[rows[i].id]), rows[i].changedAt))
  }

  lemma {:induction false} EveryIdHasAParentEntry(rows: seq<CategoryTree.Category>)
    ensures forall row :: row in rows ==> row.id in CategoryTree.ParentsOf(rows)
  {
    if rows != [] {
      EveryIdHasAParentEntry(rows[..|rows| - 1]);
      assert rows == rows[..|rows| - 1] + [rows[|rows| - 1]];
    }
  }

  function PlacedCategories(rows: seq<CategoryRow>): (placed: seq<Incoming<string, CategoryCard>>)
    ensures |placed| == |rows|
  {
    var graph := Graph(rows);
    var parents := CategoryTree.ParentsOf(graph);
    assert forall row :: row in rows ==> row.id in CategoryTree.PlacementsOf(parents, graph) by {
      EveryIdHasAParentEntry(graph);
      CategoryTree.EveryCategoryIsPlaced(graph, parents);
      forall row | row in rows ensures row.id in parents {
        var i :| 0 <= i < |rows| && rows[i] == row;
        assert graph[i] in graph;
      }
    }
    CategoryValues(rows, CategoryTree.PlacementsOf(parents, graph))
  }

  function PriceTypeValues(rows: seq<PriceTypeRow>): seq<Incoming<string, PriceTypeCard>> {
    seq(|rows|, i requires 0 <= i < |rows| =>
          Incoming(rows[i].id,
                   PriceTypeCard(rows[i].name, Strip(rows[i].currency), ParseCurrency(rows[i].currency).Some?),
                   rows[i].changedAt))
  }

  /** A price of nothing would read as free, and a price in a currency nobody knows as roubles. Comparing
      what is not a number raises, so a batch that holds one does not get here. */
  predicate IsAccepted(offer: PriceOffer) {
    && (match offer.amount
        case Number(coefficient, _) => coefficient > 0
        case Infinity(negative) => !negative
        case NaN => false)
    && ParseCurrency(offer.currency).Some?
  }

  function AcceptablePrices(prices: seq<Offer>): seq<Offer> {
    if prices == [] then []
    else (if IsAccepted(prices[0].payload) then [prices[0]] else []) + AcceptablePrices(prices[1..])
  }

  predicate HoldsNaN(prices: seq<Offer>) {
    exists i :: 0 <= i < |prices| && prices[i].payload.amount.NaN?
  }

  /** A positive amount in hundredths, as a column of two decimals stores it. */
  function StoredCents(coefficient: nat, exponent: int): int {
    if exponent >= -2 then Shift(coefficient, exponent + 2)
    else
      ShiftIsPositive(1, -2 - exponent);
      var unit := Shift(1, -2 - exponent);
      (2 * coefficient + unit) / (2 * unit)
  }

  /** What the column makes of an accepted amount; infinity has no place in it. */
  function InColumn(amount: Amount): Decimal {
    if amount.Number? && amount.coefficient > 0 then Finite(StoredCents(amount.coefficient, amount.exponent), -2)
    else NotFinite
  }

  /** Fourteen digits, two of them decimals. */
  predicate FitsColumn(amount: Amount) {
    InColumn(amount).Finite? && InColumn(amount).coefficient <= 99_999_999_999_999
  }

  function StoredRow(offer: Offer): Incoming<PriceKey, PriceCard> {
    var card := PriceCard(InColumn(offer.payload.amount), Strip(offer.payload.currency));
    Incoming(offer.key, card, offer.changedAt)
  }

  /** Prices as the table stores them: rounded, their currency code stripped. */
  function PriceValues(prices: seq<Offer>): seq<Incoming<PriceKey, PriceCard>> {
    seq(|prices|, i requires 0 <= i < |prices| => StoredRow(prices[i]))
  }

  /** A number too long for the column refuses the whole statement. */
  function UpsertPrices(table: Table<PriceKey, PriceCard>, prices: seq<Offer>, batch: string)
    : Result<Written<PriceKey, PriceCard>>
  {
    if exists i :: 0 <= i < |prices| && !FitsColumn(prices[i].payload.amount) then Err(RepoFailure)
    else Upsert(table, PriceValues(prices), batch)
  }

  datatype Report = Report(accepted: nat, discarded: nat)

  datatype Imported = Imported(tables: Tables, report: Report)

  function ImportInto(t: Tables, s: Snapshot): Result<Imported> {
    if HoldsNaN(s.prices) then Err(InvalidOperation)
    else
      var prices := AcceptablePrices(s.prices);
      var categories :- Upsert(t.categories, PlacedCategories(s.categories), s.batch);
      var products :- Upsert(t.products, s.products, s.batch);
      var priceTypes :- Upsert(t.priceTypes, PriceTypeValues(s.priceTypes), s.batch);
      var priced :- UpsertPrices(t.prices, prices, s.batch);
      var stock :- Upsert(t.stock, s.stock, s.batch);
      var bindings :- Upsert(t.bindings, s.bindings, s.batch);
      AcceptableAreFewer(s.prices);
      Ok(Imported(
           Tables(categories.table, products.table, priceTypes.table, priced.table, stock.table, bindings.table),
           Report(|categories.keys| + |products.keys| + |priceTypes.keys|
                  + |priced.keys| + |stock.keys| + |bindings.keys|,
                  |s.prices| - |prices|)))
  }

  lemma {:induction false} AcceptableAreFewer(prices: seq<Offer>)
    ensures |AcceptablePrices(prices)| <= |prices|
    ensures forall p :: p in AcceptablePrices(prices) <==> p in prices && IsAccepted(p.payload)
  {
    if prices != [] {
      AcceptableAreFewer(prices[1..]);
    }
  }

  // ---- What finalising takes away ----------------------------------------------------------

  function Reaches(qualifier: Option<string>): ((string, string)) -> bool {
    (key: (string, string)) => qualifier.None? || key.1 == qualifier.value
  }

  function FinalizeIn(t: Tables, scope: Scope, batch: string): Tables {
    match scope
    case Categories => t.(categories := Deactivate(t.categories, batch))
    case Products => t.(products := Deactivate(t.products, batch))
    case PriceTypes => t.(priceTypes := Sweep(t.priceTypes, batch, Everywhere()))
    case Prices(list) => t.(prices := Sweep(t.prices, batch, Reaches(list)))
    case Stock(warehouse) => t.(stock := Sweep(t.stock, batch, Reaches(warehouse)))
    case Bindings => t.(bindings := Sweep(t.bindings, batch, Everywhere()))
  }

  /** A table from which nothing was taken but what carries another stamp and is in reach. */
  ghost predicate IsSwept<K(!new), V(!new)>(before: Table<K, V>, after: Table<K, V>, batch: string,
                                            reached: K -> bool) {
    && (forall k :: k in after <==> k in before && (before[k].batch == batch || !reached(k)))
    && (forall k :: k in after ==> after[k] == before[k])
  }

  /** A table in which nothing is hidden but what carries another stamp, and nothing is gone. */
  ghost predicate IsHidden<K(!new), V(!new)>(before: Table<K, V>, after: Table<K, V>, batch: string) {
    && (forall k :: k in after <==> k in before)
    && (forall k :: k in after ==> after[k] == before[k].(active := before[k].active && before[k].batch == batch))
  }

  /** What finalising does to each of the six tables, one after another. */
  ghost predicate IsFinalised(before: Tables, after: Tables, scope: Scope, batch: string) {
    && (if scope.Categories? then IsHidden(before.categories, after.categories, batch)
        else after.categories == before.categories)
    && (if scope.Products? then IsHidden(before.products, after.products, batch)
        else after.products == before.products)
    && (if scope.PriceTypes? then IsSwept(before.priceTypes, after.priceTypes, batch, id => true)
        else after.priceTypes == before.priceTypes)
    && (if scope.Prices? then
          IsSwept(before.prices, after.prices, batch,
                  (key: PriceKey) => scope.priceTypeId.None? || key.1 == scope.priceTypeId.value)
        else after.prices == before.prices)
    && (if scope.Stock? then
          IsSwept(before.stock, after.stock, batch,
                  (key: (string, string)) => scope.warehouseId.None? || key.1 == scope.warehouseId.value)
        else after.stock == before.stock)
    && (if scope.Bindings? then IsSwept(before.bindings, after.bindings, batch, id => true)
        else after.bindings == before.bindings)
  }

  /** Finalising a scope does to its table what the scope says, and to the other five nothing. */
  lemma FinalisingMovesNothingElse(t: Tables, scope: Scope, batch: string)
    ensures IsFinalised(t, FinalizeIn(t, scope, batch), scope, batch)
  {
  }

  // ---- The two commands -----------------------------------------------------------------------

  /** The tables as they are committed, and as the running transaction sees them. */
  class ProjectionSession {
    var committed: Tables
    var working: Tables

    constructor (tables: Tables)
      ensures committed == tables && working == tables
    {
      committed, working := tables, tables;
    }

    method Rollback()
      modifies this
      ensures working == committed == old(committed)
    {
      working := committed;
    }

    method Commit()
      modifies this
      ensures committed == working == old(working)
    {
      committed := working;
    }

    /** Writes every collection the snapshot carries, whatever its scope, counting what was taken. */
    method HandleImport(s: Snapshot) returns (r: Result<Report>)
      modifies this
      ensures committed == old(committed)
      ensures var imported := ImportInto(old(working), s);
              if imported.Ok? then r == Ok(imported.value.report) && working == imported.value.tables
              else r == Err(imported.error)
    {
      hide Upsert, PlacedCategories, PriceTypeValues, UpsertPrices, AcceptablePrices, HoldsNaN;
      if HoldsNaN(s.prices) { return Err(InvalidOperation); }
      var prices := AcceptablePrices(s.prices);
      AcceptableAreFewer(s.prices);
      var discarded := |s.prices| - |prices|;
      var accepted := 0;

      var categories := Upsert(working.categories, PlacedCategories(s.categories), s.batch);
      if categories.Err? { return Err(categories.error); }
      working, accepted := working.(categories := categories.value.table), accepted + |categories.value.keys|;

      var products := Upsert(working.products, s.products, s.batch);
      if products.Err? { return Err(products.error); }
      working, accepted := working.(products := products.value.table), accepted + |products.value.keys|;

      var priceTypes := Upsert(working.priceTypes, PriceTypeValues(s.priceTypes), s.batch);
      if priceTypes.Err? { return Err(priceTypes.error); }
      working, accepted := working.(priceTypes := priceTypes.value.table), accepted + |priceTypes.value.keys|;

      var priced := UpsertPrices(working.prices, prices, s.batch);
      if priced.Err? { return Err(priced.error); }
      working, accepted := working.(prices := priced.value.table), accepted + |priced.value.keys|;

      var stock := Upsert(working.stock, s.stock, s.batch);
      if stock.Err? { return Err(stock.error); }
      working, accepted := working.(stock := stock.value.table), accepted + |stock.value.keys|;

      var bindings := Upsert(working.bindings, s.bindings, s.batch);
      if bindings.Err? { return Err(bindings.error); }
      working, accepted := working.(bindings := bindings.value.table), accepted + |bindings.value.keys|;

      r := Ok(Report(accepted, discarded));
    }

    /** Sweeps one scope, then refuses a sweep of price lists that took the default one. */
    method HandleFinalize(scope: Scope, batch: string, defaultPriceType: string) returns (r: Result<()>)
      modifies this
      ensures committed == old(committed) && working == FinalizeIn(old(working), scope, batch)
      ensures IsFinalised(old(working), working, scope, batch)
      ensures r.Err? <==> scope.PriceTypes? && defaultPriceType !in working.priceTypes
      ensures r.Err? ==> r.error == CatalogSnapshotBroken
    {
      FinalisingMovesNothingElse(working, scope, batch);
      working := FinalizeIn(working, scope, batch);
      if scope.PriceTypes? && defaultPriceType !in working.priceTypes {
        return Err(CatalogSnapshotBroken);
      }
      r := Ok(());
    }

    /** The import inside its transaction: everything or nothing. */
    method Import(s: Snapshot) returns (r: Result<Report>)
      requires working == committed
      modifies this
      ensures working == committed
      ensures var imported := ImportInto(old(committed), s);
              if imported.Ok? then r == Ok(imported.value.report) && committed == imported.value.tables
              else r == Err(imported.error) && committed == old(committed)
      ensures forall listId :: committed == After(old(committed), listId, Command.Import(s))
    {
      hide ImportInto;
      r := HandleImport(s);
      if r.Ok? { Commit(); } else { Rollback(); }
    }

    /** The finalisation inside its transaction: a refused sweep is undone. */
    method Finalize(scope: Scope, batch: string, defaultPriceType: string) returns (r: Result<()>)
      requires working == committed
      modifies this
      ensures working == committed
      ensures r.Ok? ==> committed == FinalizeIn(old(committed), scope, batch)
      ensures r.Ok? ==> IsFinalised(old(committed), committed, scope, batch)
      ensures r.Ok? && scope.PriceTypes? ==> defaultPriceType in committed.priceTypes
      ensures r.Err? ==> r.error == CatalogSnapshotBroken && committed == old(committed)
      ensures r.Err? <==> scope.PriceTypes?
                          && (defaultPriceType in old(committed).priceTypes ==>
                                old(committed).priceTypes[defaultPriceType].batch != batch)
      ensures committed == After(old(committed), defaultPriceType, Command.Finalize(scope, batch))
    {
      r := HandleFinalize(scope, batch, defaultPriceType);
      if r.Ok? { Commit(); } else { Rollback(); }
    }
  }

  // ---- What the commands keep and what they add up to ---------------------------------------------

  function RowsSent(s: Snapshot): nat {
    |s.categories| + |s.products| + |s.priceTypes| + |s.prices| + |s.stock| + |s.bindings|
  }

  /** Every row of the snapshot that is not discarded wins against the table it goes to. */
  ghost predicate NothingIsStale(t: Tables, s: Snapshot) {
    && AllLand(t.categories, PlacedCategories(s.categories))
    && AllLand(t.products, s.products)
    && AllLand(t.priceTypes, PriceTypeValues(s.priceTypes))
    && AllLand(t.prices, PriceValues(AcceptablePrices(s.prices)))
    && AllLand(t.stock, s.stock)
    && AllLand(t.bindings, s.bindings)
  }

  lemma CountedExactly<K(!new), V(!new)>(table: Table<K, V>, rows: seq<Incoming<K, V>>, batch: string)
    requires Upsert(table, rows, batch).Ok?
    ensures |Upsert(table, rows, batch).value.keys| <= |rows|
    ensures AllLand(table, rows) <==> |Upsert(table, rows, batch).value.keys| == |rows|
  {
    UpsertEffect(table, rows, batch);
  }

  /** The import log never claims more rows than were sent, and it accounts for every one of them exactly
      when none was ignored as stale. */
  lemma ImportAccounting(t: Tables, s: Snapshot)
    requires ImportInto(t, s).Ok?
    ensures var report := ImportInto(t, s).value.report;
            && report.accepted + report.discarded <= RowsSent(s)
            && (report.accepted + report.discarded == RowsSent(s) <==> NothingIsStale(t, s))
  {
    hide AllLand, Upsert, AcceptablePrices;
    AcceptableAreFewer(s.prices);
    CountedExactly(t.categories, PlacedCategories(s.categories), s.batch);
    CountedExactly(t.products, s.products, s.batch);
    CountedExactly(t.priceTypes, PriceTypeValues(s.priceTypes), s.batch);
    CountedExactly(t.prices, PriceValues(AcceptablePrices(s.prices)), s.batch);
    CountedExactly(t.stock, s.stock, s.batch);
    CountedExactly(t.bindings, s.bindings, s.batch);
  }

  // ---- Prices -------------------------------------------------------------------------------------

  /** Not nothing, and in a currency the shop knows. */
  predicate IsUsable(price: PriceCard) {
    price.amount.Finite? && price.amount.coefficient > 0 && ParseCurrency(price.currency).Some?
  }

  ghost predicate PricesAreUsable(prices: Table<PriceKey, PriceCard>) {
    forall key :: key in prices ==> IsUsable(prices[key].payload)
  }

  /** At least half of the smallest amount the column can hold. */
  predicate IsAtLeastHalfACent(amount: Amount) {
    amount.Number? && !LessThan(Finite(amount.coefficient, amount.exponent), Finite(5, -3))
  }

  /** The hundredths nearest to an amount, a half going up; an amount of at most two decimals is its own. */
  ghost predicate IsNearest(cents: int, coefficient: nat, exponent: int) {
    if exponent >= -2 then cents == Scaled(Finite(coefficient, exponent), -2)
    else
      var unit := Shift(1, -2 - exponent);
      -unit <= 2 * coefficient - 2 * (unit * cents) < unit
  }

  /** The column stores the nearest hundredth. */
  lemma StoredIsNearest(coefficient: nat, exponent: int)
    ensures IsNearest(StoredCents(coefficient, exponent), coefficient, exponent)
  {
    if exponent < -2 {
      ShiftIsPositive(1, -2 - exponent);
      var unit := Shift(1, -2 - exponent);
      var whole := 2 * coefficient + unit;
      assert whole == (2 * unit) * (whole / (2 * unit)) + whole % (2 * unit);
      assert (2 * unit) * (whole / (2 * unit)) == 2 * (unit * (whole / (2 * unit)));
    }
  }

  /** An amount the filter takes for positive is stored as nothing exactly when it is below half a hundredth. */
  lemma StoredAsNothing(coefficient: nat, exponent: int)
    requires coefficient > 0
    ensures StoredCents(coefficient, exponent) > 0 <==> IsAtLeastHalfACent(Number(coefficient, exponent))
  {
    if exponent >= -2 {
      ShiftIsPositive(coefficient, exponent + 2);
      assert Scaled(Finite(coefficient, exponent), -3) == 10 * Shift(coefficient, exponent + 2);
      assert Scaled(Finite(5, -3), -3) == 5;
    } else {
      StoredIsNearest(coefficient, exponent);
      var fifth := -3 - exponent;
      ShiftTimes(1, 5, fifth);
      assert Shift(1, -2 - exponent) == 10 * Shift(1, fifth);
      assert Scaled(Finite(coefficient, exponent), exponent) == coefficient;
      assert Scaled(Finite(5, -3), exponent) == 5 * Shift(1, fifth);
      QuotientIsPositive(2 * coefficient + 10 * Shift(1, fifth), 2 * (10 * Shift(1, fifth)));
    }
  }

  lemma QuotientIsPositive(n: nat, unit: int)
    requires unit >= 1
    ensures n / unit > 0 <==> n >= unit
  {
    var q := n / unit;
    assert n == unit * q + n % unit;
    if q >= 1 { assert unit * (q - 1) >= 0; }
  }

  lemma StoredRowIsUsable(offer: Offer)
    requires IsAccepted(offer.payload) && FitsColumn(offer.payload.amount)
    ensures IsUsable(StoredRow(offer).payload) <==> IsAtLeastHalfACent(offer.payload.amount)
  {
    hide ParseCurrency, Strip, StoredCents, IsAtLeastHalfACent;
    StripTwice(offer.payload.currency);
    StoredAsNothing(offer.payload.amount.coefficient, offer.payload.amount.exponent);
  }

  /** No accepted price of the snapshot that wins its upsert is below half a hundredth. */
  ghost predicate NoDustLands(prices: Table<PriceKey, PriceCard>, s: Snapshot) {
    forall offer :: offer in s.prices && IsAccepted(offer.payload) && Lands(prices, StoredRow(offer)) ==>
                      IsAtLeastHalfACent(offer.payload.amount)
  }

  datatype Command = Import(snapshot: Snapshot) | Finalize(scope: Scope, batch: string)

  /** The committed tables after one command; a refused one leaves them as they were. */
  function After(t: Tables, defaultPriceType: string, command: Command): Tables {
    match command
    case Import(s) => (var imported := ImportInto(t, s); if imported.Ok? then imported.value.tables else t)
    case Finalize(scope, batch) =>
      (var swept := FinalizeIn(t, scope, batch);
       if scope.PriceTypes? && defaultPriceType !in swept.priceTypes then t else swept)
  }

  function AfterAll(t: Tables, defaultPriceType: string, run: seq<Command>): Tables
    decreases |run|
  {
    if run == [] then t else AfterAll(After(t, defaultPriceType, run[0]), defaultPriceType, run[1..])
  }

  lemma ImportedParts(t: Tables, s: Snapshot)
    requires ImportInto(t, s).Ok?
    ensures var tables := ImportInto(t, s).value.tables;
            && UpsertsTo(t.categories, PlacedCategories(s.categories), s.batch, tables.categories)
            && UpsertsTo(t.products, s.products, s.batch, tables.products)
            && UpsertsTo(t.priceTypes, PriceTypeValues(s.priceTypes), s.batch, tables.priceTypes)
            && UpsertsTo(t.prices, PriceValues(AcceptablePrices(s.prices)), s.batch, tables.prices)
            && UpsertsTo(t.stock, s.stock, s.batch, tables.stock)
            && UpsertsTo(t.bindings, s.bindings, s.batch, tables.bindings)
    ensures forall offer :: offer in AcceptablePrices(s.prices) ==> FitsColumn(offer.payload.amount)
  {
    hide Upsert, PlacedCategories, PriceTypeValues, FitsColumn, AcceptablePrices;
  }

  predicate UpsertsTo<K(==), V(==)>(before: Table<K, V>, rows: seq<Incoming<K, V>>, batch: string, after: Table<K, V>) {
    var w := Upsert(before, rows, batch);
    w.Ok? && w.value.table == after
  }

  /** After an import every stored price is usable exactly when no dust landed. */
  lemma ImportKeepsPricesUsable(t: Tables, s: Snapshot)
    requires PricesAreUsable(t.prices) && ImportInto(t, s).Ok?
    ensures PricesAreUsable(ImportInto(t, s).value.tables.prices) <==> NoDustLands(t.prices, s)
  {
    hide ImportInto, IsUsable, IsAccepted, FitsColumn, IsAtLeastHalfACent, AcceptablePrices, Upsert, InColumn;
    ImportedParts(t, s);
    AcceptableAreFewer(s.prices);
    var offers := AcceptablePrices(s.prices);
    var rows := PriceValues(offers);
    UpsertEffect(t.prices, rows, s.batch);
    var w := Upsert(t.prices, rows, s.batch).value;
    forall i | 0 <= i < |offers| ensures IsUsable(rows[i].payload) <==> IsAtLeastHalfACent(offers[i].payload.amount) {
      assert offers[i] in offers;
      StoredRowIsUsable(offers[i]);
    }
    if NoDustLands(t.prices, s) {
      forall key | key in w.keys ensures IsUsable(w.table[key].payload) {
        var i :| 0 <= i < |rows| && rows[i].key == key && Lands(t.prices, rows[i]);
        assert IsWritten(w, rows[i], s.batch);
        assert offers[i] in offers;
      }
    }
    if PricesAreUsable(w.table) {
      forall offer | offer in s.prices && IsAccepted(offer.payload) && Lands(t.prices, StoredRow(offer))
        ensures IsAtLeastHalfACent(offer.payload.amount)
      {
        assert offer in offers;
        var i :| 0 <= i < |offers| && offers[i] == offer;
        assert IsWritten(w, rows[i], s.batch);
      }
    }
  }

  lemma ImportKeepsPriceLists(t: Tables, s: Snapshot)
    requires ImportInto(t, s).Ok?
    ensures forall id :: id in t.priceTypes ==> id in ImportInto(t, s).value.tables.priceTypes
  {
    hide ImportInto, Upsert;
    ImportedParts(t, s);
    UpsertEffect(t.priceTypes, PriceTypeValues(s.priceTypes), s.batch);
  }

  ghost predicate LandsNoDust(t: Tables, command: Command) {
    command.Import? && ImportInto(t, command.snapshot).Ok? ==> NoDustLands(t.prices, command.snapshot)
  }

  lemma OneCommandKeepsPricesUsable(t: Tables, defaultPriceType: string, command: Command)
    requires PricesAreUsable(t.prices)
    ensures PricesAreUsable(After(t, defaultPriceType, command).prices) <==> LandsNoDust(t, command)
    ensures defaultPriceType in t.priceTypes ==> defaultPriceType in After(t, defaultPriceType, command).priceTypes
  {
    hide ImportInto, IsUsable, NoDustLands;
    if command.Import? {
      if ImportInto(t, command.snapshot).Ok? {
        ImportKeepsPricesUsable(t, command.snapshot);
        ImportKeepsPriceLists(t, command.snapshot);
      }
    } else {
      FinalisingKeepsPricesUsable(t, command.scope, command.batch);
    }
  }

  lemma FinalisingKeepsPricesUsable(t: Tables, scope: Scope, batch: string)
    requires PricesAreUsable(t.prices)
    ensures PricesAreUsable(FinalizeIn(t, scope, batch).prices)
  {
    hide IsUsable;
  }

  /** At no moment of the run is a stored price free or in an unknown currency. */
  ghost predicate UsableThroughout(t: Tables, defaultPriceType: string, run: seq<Command>)
    decreases |run|
  {
    PricesAreUsable(t.prices)
    && (run != [] ==> UsableThroughout(After(t, defaultPriceType, run[0]), defaultPriceType, run[1..]))
  }

  ghost predicate RunLandsNoDust(t: Tables, defaultPriceType: string, run: seq<Command>)
    decreases |run|
  {
    run != [] ==>
      LandsNoDust(t, run[0]) && RunLandsNoDust(After(t, defaultPriceType, run[0]), defaultPriceType, run[1..])
  }

  /** In every run the prices stay usable throughout exactly when no accepted price below half a hundredth
      wins an upsert; and once the default price list is there no command takes it away. */
  lemma {:induction false} EveryRunKeepsPricesUsable(t: Tables, defaultPriceType: string, run: seq<Command>)
    requires PricesAreUsable(t.prices)
    ensures UsableThroughout(t, defaultPriceType, run) <==> RunLandsNoDust(t, defaultPriceType, run)
    ensures defaultPriceType in t.priceTypes ==> defaultPriceType in AfterAll(t, defaultPriceType, run).priceTypes
    decreases |run|
  {
    hide ImportInto, IsUsable, PricesAreUsable, LandsNoDust;
    if run != [] {
      var next := After(t, defaultPriceType, run[0]);
      OneCommandKeepsPricesUsable(t, defaultPriceType, run[0]);
      if PricesAreUsable(next.prices) {
        EveryRunKeepsPricesUsable(next, defaultPriceType, run[1..]);
      } else {
        assert !UsableThroughout(next, defaultPriceType, run[1..]);
      }
      DefaultListStays(next, defaultPriceType, run[1..]);
    }
  }

  lemma {:induction false} DefaultListStays(t: Tables, defaultPriceType: string, run: seq<Command>)
    ensures defaultPriceType in t.priceTypes ==> defaultPriceType in AfterAll(t, defaultPriceType, run).priceTypes
    decreases |run|
  {
    hide ImportInto;
    if run != [] {
      if run[0].Import? && ImportInto(t, run[0].snapshot).Ok? { ImportKeepsPriceLists(t, run[0].snapshot); }
      DefaultListStays(After(t, defaultPriceType, run[0]), defaultPriceType, run[1..]);
    }
  }

  /** The sender's duty is enough: amounts of which none lies between nothing and half a hundredth. */
  lemma {:induction false} RoundedPricesStayUsable(t: Tables, defaultPriceType: string, run: seq<Command>)
    requires PricesAreUsable(t.prices)
    requires forall command :: command in run && command.Import? ==>
                                 forall offer :: offer in command.snapshot.prices && IsAccepted(offer.payload) ==>
                                                   IsAtLeastHalfACent(offer.payload.amount)
    ensures UsableThroughout(t, defaultPriceType, run)
    decreases |run|
  {
    hide ImportInto, IsUsable, PricesAreUsable, IsAccepted, IsAtLeastHalfACent;
    if run != [] {
      assert run[0] in run;
      OneCommandKeepsPricesUsable(t, defaultPriceType, run[0]);
      RoundedPricesStayUsable(After(t, defaultPriceType, run[0]), defaultPriceType, run[1..]);
    }
  }

  /** A price of 0.004 is sent, passes the filter, is counted as accepted, and is stored as 0.00. */
  lemma DustIsStoredAsFree(t: Tables, key: PriceKey, batch: string)
    ensures var s := Snapshot(batch, [], [], [], [Incoming(key, PriceOffer(Number(4, -3), "rub"), None)], [], []);
            var imported := ImportInto(t, s);
            && imported.Ok? && imported.value.report == Report(1, 0)
            && key in imported.value.tables.prices
            && imported.value.tables.prices[key].payload == PriceCard(Finite(0, -2), "rub")
            && !PricesAreUsable(imported.value.tables.prices)
  {
    hide UpsertPrices, StoredRow, ParseCurrency, IsAccepted, FitsColumn;
    var offer := Incoming(key, PriceOffer(Number(4, -3), "rub"), None);
    DustInTheColumn(offer);
    assert AcceptablePrices([offer]) == [offer];
    assert PriceValues([offer]) == [StoredRow(offer)];
    UpsertPricesOne(t.prices, offer, batch);
  }

  lemma DustInTheColumn(offer: Offer)
    requires offer.payload == PriceOffer(Number(4, -3), "rub")
    ensures IsAccepted(offer.payload) && FitsColumn(offer.payload.amount)
    ensures StoredRow(offer) == Incoming(offer.key, PriceCard(Finite(0, -2), "rub"), offer.changedAt)
  {
    assert Shift(1, 1) == 10 * Shift(1, 0);
  }

  lemma UpsertPricesOne(table: Table<PriceKey, PriceCard>, offer: Offer, batch: string)
    requires FitsColumn(offer.payload.amount)
    ensures UpsertPrices(table, [offer], batch) == Ok(Write(Written(table, {}), StoredRow(offer), batch))
  {
    assert PriceValues([offer]) == [StoredRow(offer)];
    UpsertOne(table, StoredRow(offer), batch);
  }

  // ---- What one import writes, reports and refuses --------------------------------------------------

  /** A price that may be shown: a positive number in a currency the shop can read. */
  ghost predicate IsOffered(offer: PriceOffer) {
    offer.amount.Number? && offer.amount.coefficient > 0 && ParseCurrency(offer.currency).Some?
  }

  /** A price that may be shown and wins its upsert is stored at the nearest hundredth, in its currency, under
      the stamp and the timestamp of its row. */
  lemma ImportedPrice(t: Tables, s: Snapshot, i: nat)
    requires ImportInto(t, s).Ok? && i < |s.prices| && IsOffered(s.prices[i].payload)
    requires s.prices[i].key !in t.prices || Wins(s.prices[i].changedAt, t.prices[s.prices[i].key].changedAt)
    ensures var (sent, prices) := (s.prices[i], ImportInto(t, s).value.tables.prices);
            && sent.key in prices
            && var row := prices[sent.key];
               && row.active && row.batch == s.batch && row.changedAt == sent.changedAt
               && ParseCurrency(row.payload.currency) == ParseCurrency(sent.payload.currency)
               && row.payload.amount.Finite? && row.payload.amount.exponent == -2
               && IsNearest(row.payload.amount.coefficient, sent.payload.amount.coefficient,
                            sent.payload.amount.exponent)
  {
    hide ImportInto, Upsert, AllLand, StoredCents, IsNearest, Strip, ParseCurrency;
    var sent := s.prices[i];
    var offers := AcceptablePrices(s.prices);
    ImportedParts(t, s);
    AcceptableAreFewer(s.prices);
    assert sent in offers;
    hide AcceptablePrices;
    var j :| 0 <= j < |offers| && offers[j] == sent;
    var rows := PriceValues(offers);
    UpsertEffect(t.prices, rows, s.batch);
    assert Lands(t.prices, rows[j]);
    assert IsWritten(Upsert(t.prices, rows, s.batch).value, rows[j], s.batch);
    StripTwice(sent.payload.currency);
    StoredIsNearest(sent.payload.amount.coefficient, sent.payload.amount.exponent);
  }

  /** No other price is written: a key whose row is new or changed was offered, and no row is lost. */
  lemma OnlyOfferedPricesAreWritten(t: Tables, s: Snapshot, key: PriceKey)
    requires ImportInto(t, s).Ok?
    ensures var prices := ImportInto(t, s).value.tables.prices;
            && (key in t.prices ==> key in prices)
            && (key in prices && (key !in t.prices || prices[key] != t.prices[key]) ==>
                  exists i :: 0 <= i < |s.prices| && s.prices[i].key == key && IsOffered(s.prices[i].payload))
  {
    hide ImportInto, Upsert, AllLand, StoredCents, Strip, ParseCurrency;
    var offers := AcceptablePrices(s.prices);
    ImportedParts(t, s);
    AcceptableAreFewer(s.prices);
    var rows := PriceValues(offers);
    UpsertEffect(t.prices, rows, s.batch);
    var w := Upsert(t.prices, rows, s.batch).value;
    if key in w.keys {
      var j :| 0 <= j < |rows| && rows[j].key == key && Lands(t.prices, rows[j]);
      assert offers[j] in offers;
      assert FitsColumn(offers[j].payload.amount);
      hide AcceptablePrices;
      var i :| 0 <= i < |s.prices| && s.prices[i] == offers[j];
      assert s.prices[i].key == key && IsOffered(s.prices[i].payload);
    }
  }

  /** A price list that wins its upsert keeps its name and its currency, and is supported exactly when the
      shop can read that currency. */
  lemma ImportedPriceType(t: Tables, s: Snapshot, i: nat)
    requires ImportInto(t, s).Ok? && i < |s.priceTypes|
    requires var sent := s.priceTypes[i];
             sent.id !in t.priceTypes || Wins(sent.changedAt, t.priceTypes[sent.id].changedAt)
    ensures var (sent, lists) := (s.priceTypes[i], ImportInto(t, s).value.tables.priceTypes);
            && sent.id in lists
            && var row := lists[sent.id];
               && row.active && row.batch == s.batch && row.changedAt == sent.changedAt
               && row.payload.name == sent.name
               && ParseCurrency(row.payload.currency) == ParseCurrency(sent.currency)
               && (row.payload.isSupported <==> ParseCurrency(sent.currency).Some?)
  {
    hide ImportInto, Upsert, AllLand, Strip, ParseCurrency;
    ImportedParts(t, s);
    var rows := PriceTypeValues(s.priceTypes);
    UpsertEffect(t.priceTypes, rows, s.batch);
    assert Lands(t.priceTypes, rows[i]);
    assert IsWritten(Upsert(t.priceTypes, rows, s.batch).value, rows[i], s.batch);
    StripTwice(s.priceTypes[i].currency);
  }

  /** The keys with a row that wins against the table. */
  ghost function Landing<K, V>(table: Table<K, V>, rows: seq<Incoming<K, V>>): set<K> {
    set i | 0 <= i < |rows| && Lands(table, rows[i]) :: rows[i].key
  }

  lemma KeysAreLanding<K(!new), V(!new)>(table: Table<K, V>, rows: seq<Incoming<K, V>>, batch: string)
    requires Upsert(table, rows, batch).Ok?
    ensures Upsert(table, rows, batch).value.keys == Landing(table, rows)
  {
    hide Upsert, AllLand;
    UpsertEffect(table, rows, batch);
    var w := Upsert(table, rows, batch).value;
    forall k ensures k in w.keys <==> k in Landing(table, rows) {
      WrittenMeansLanded(table, w, rows, batch, k);
    }
  }

  /** The rows of prices that are neither offered nor infinite: of no amount, or in an unknown currency. */
  ghost function Discarded(prices: seq<Offer>): set<int> {
    set i | 0 <= i < |prices|
            && !(ParseCurrency(prices[i].payload.currency).Some?
                 && ((prices[i].payload.amount.Number? && prices[i].payload.amount.coefficient > 0)
                     || prices[i].payload.amount == Infinity(false)))
  }

  lemma {:induction false} AcceptableAppended(prices: seq<Offer>, last: Offer)
    ensures |AcceptablePrices(prices + [last])|
         == |AcceptablePrices(prices)| + if IsAccepted(last.payload) then 1 else 0
  {
    if prices == [] {
      assert [] + [last] == [last] && [last][1..] == [];
    } else {
      AcceptableAppended(prices[1..], last);
      assert (prices + [last])[1..] == prices[1..] + [last];
    }
  }

  lemma {:induction false} DiscardedAreCounted(prices: seq<Offer>)
    ensures |prices| - |AcceptablePrices(prices)| == |Discarded(prices)|
  {
    hide ParseCurrency;
    if prices == [] {
      assert Discarded(prices) == {};
    } else {
      var n := |prices| - 1;
      var (earlier, last) := (prices[..n], prices[n]);
      DiscardedAreCounted(earlier);
      AcceptableAppended(earlier, last);
      hide AcceptablePrices;
      assert prices == earlier + [last];
      assert Discarded(prices) == Discarded(earlier) + if IsAccepted(last.payload) then {} else {n};
    }
  }

  /** The import log: accepted is the number of keys that won, table by table, and discarded the number of
      price rows that were not let through. */
  lemma WhatIsReported(t: Tables, s: Snapshot)
    requires ImportInto(t, s).Ok?
    ensures var report := ImportInto(t, s).value.report;
            && report.discarded == |Discarded(s.prices)|
            && report.accepted
               == |Landing(t.categories, PlacedCategories(s.categories))| + |Landing(t.products, s.products)|
                  + |Landing(t.priceTypes, PriceTypeValues(s.priceTypes))|
                  + |Landing(t.prices, PriceValues(AcceptablePrices(s.prices)))|
                  + |Landing(t.stock, s.stock)| + |Landing(t.bindings, s.bindings)|
  {
    DiscardedAreCounted(s.prices);
    hide Upsert, AcceptablePrices, PlacedCategories, PriceTypeValues, Discarded, Landing, HoldsNaN, FitsColumn;
    KeysAreLanding(t.categories, PlacedCategories(s.categories), s.batch);
    KeysAreLanding(t.products, s.products, s.batch);
    KeysAreLanding(t.priceTypes, PriceTypeValues(s.priceTypes), s.batch);
    KeysAreLanding(t.prices, PriceValues(AcceptablePrices(s.prices)), s.batch);
    KeysAreLanding(t.stock, s.stock, s.batch);
    KeysAreLanding(t.bindings, s.bindings, s.batch);
  }

  /** A price the filter lets through that the column cannot hold: an infinite one, or one of more than fourteen
      digits with two decimals. */
  ghost predicate IsTooLong(offer: PriceOffer) {
    && ParseCurrency(offer.currency).Some?
    && (offer.amount == Infinity(false)
        || (offer.amount.Number? && offer.amount.coefficient > 0
            && exists cents :: IsNearest(cents, offer.amount.coefficient, offer.amount.exponent)
                               && cents > 99_999_999_999_999))
  }

  lemma {:induction false} NearestIsOne(a: int, b: int, coefficient: nat, exponent: int)
    requires IsNearest(a, coefficient, exponent) && IsNearest(b, coefficient, exponent)
    ensures a == b
  {
    if exponent < -2 {
      var unit := Shift(1, -2 - exponent);
      ShiftIsPositive(1, -2 - exponent);
      if a < b { Apart(unit, a, b); }
      if b < a { Apart(unit, b, a); }
    }
  }

  lemma {:induction false} Apart(unit: int, a: int, b: int)
    requires unit >= 1 && a < b
    ensures unit * b >= unit * a + unit
    decreases b - a
  {
    assert unit * b == unit * (b - 1) + unit;
    if a + 1 < b { Apart(unit, a, b - 1); }
  }

  lemma TooLongDoesNotFit(offer: PriceOffer)
    requires IsAccepted(offer)
    ensures IsTooLong(offer) <==> !FitsColumn(offer.amount)
  {
    hide StoredCents, IsNearest, ParseCurrency;
    if offer.amount.Number? {
      var (c, e) := (offer.amount.coefficient, offer.amount.exponent);
      StoredIsNearest(c, e);
      forall cents | IsNearest(cents, c, e) ensures cents == StoredCents(c, e) {
        NearestIsOne(cents, StoredCents(c, e), c, e);
      }
    }
  }

  /** An import is refused exactly when a price is not a number, or too long for its column, or some statement
      would write a row twice. */
  lemma ImportIsRefusedExactly(t: Tables, s: Snapshot)
    ensures ImportInto(t, s).Err? <==>
            || (exists i :: 0 <= i < |s.prices| && s.prices[i].payload.amount.NaN?)
            || (exists i :: 0 <= i < |s.prices| && IsTooLong(s.prices[i].payload))
            || WritesTwice(t.categories, PlacedCategories(s.categories))
            || WritesTwice(t.products, s.products)
            || WritesTwice(t.priceTypes, PriceTypeValues(s.priceTypes))
            || WritesTwice(t.prices, PriceValues(AcceptablePrices(s.prices)))
            || WritesTwice(t.stock, s.stock)
            || WritesTwice(t.bindings, s.bindings)
    ensures ImportInto(t, s).Err? ==>
              ImportInto(t, s).error == if HoldsNaN(s.prices) then InvalidOperation else RepoFailure
  {
    TooLongIsSent(s.prices);
    hide Upsert, AcceptablePrices, PlacedCategories, PriceTypeValues, WritesTwice, IsTooLong, FitsColumn, PriceValues;
    RefusedExactly(t.categories, PlacedCategories(s.categories), s.batch);
    RefusedExactly(t.products, s.products, s.batch);
    RefusedExactly(t.priceTypes, PriceTypeValues(s.priceTypes), s.batch);
    RefusedExactly(t.prices, PriceValues(AcceptablePrices(s.prices)), s.batch);
    RefusedExactly(t.stock, s.stock, s.batch);
    RefusedExactly(t.bindings, s.bindings, s.batch);
  }

  lemma TooLongIsSent(prices: seq<Offer>)
    ensures var offers := AcceptablePrices(prices);
            (exists i :: 0 <= i < |offers| && !FitsColumn(offers[i].payload.amount))
            <==> (exists i :: 0 <= i < |prices| && IsTooLong(prices[i].payload))
  {
    hide FitsColumn, ParseCurrency, IsNearest;
    var offers := AcceptablePrices(prices);
    AcceptableAreFewer(prices);
    hide AcceptablePrices;
    if i :| 0 <= i < |offers| && !FitsColumn(offers[i].payload.amount) {
      assert offers[i] in offers;
      TooLongDoesNotFit(offers[i].payload);
      var j :| 0 <= j < |prices| && prices[j] == offers[i];
      assert IsTooLong(prices[j].payload);
    }
    if j :| 0 <= j < |prices| && IsTooLong(prices[j].payload) {
      assert prices[j] in prices && IsAccepted(prices[j].payload);
      TooLongDoesNotFit(prices[j].payload);
      var i :| 0 <= i < |offers| && offers[i] == prices[j];
      assert !FitsColumn(offers[i].payload.amount);
    }
  }

  // ---- A batch in parts, then its sweep -------------------------------------------------------------

  function ImportAll(t: Tables, snapshots: seq<Snapshot>): Result<Tables>
    decreases |snapshots|
  {
    if snapshots == [] then Ok(t)
    else
      var imported :- ImportInto(t, snapshots[0]);
      ImportAll(imported.tables, snapshots[1..])
  }

  /** The rows a list of snapshots brings each table, one chunk a snapshot. */
  datatype Batch = Batch(
    categories: seq<seq<Incoming<string, CategoryCard>>>,
    products: seq<seq<Incoming<string, string>>>,
    priceTypes: seq<seq<Incoming<string, PriceTypeCard>>>,
    prices: seq<seq<Incoming<PriceKey, PriceCard>>>,
    stock: seq<seq<Incoming<(string, string), Decimal>>>,
    bindings: seq<seq<Incoming<string, BindingCard>>>)

  function BatchOf(snapshots: seq<Snapshot>): Batch {
    if snapshots == [] then Batch([], [], [], [], [], [])
    else
      var (s, rest) := (snapshots[0], BatchOf(snapshots[1..]));
      Batch([PlacedCategories(s.categories)] + rest.categories, [s.products] + rest.products,
            [PriceTypeValues(s.priceTypes)] + rest.priceTypes,
            [PriceValues(AcceptablePrices(s.prices))] + rest.prices,
            [s.stock] + rest.stock, [s.bindings] + rest.bindings)
  }

  ghost predicate ChunksLead<K(!new), V(!new)>(before: Table<K, V>, chunks: seq<seq<Incoming<K, V>>>, batch: string,
                                               after: Table<K, V>) {
    var end := ImportChunks(Written(before, {}), chunks, batch);
    end.Ok? && end.value.table == after
  }

  lemma OneChunkMore<K(!new), V(!new)>(before: Table<K, V>, rows: seq<Incoming<K, V>>, next: Table<K, V>,
                                       rest: seq<seq<Incoming<K, V>>>, batch: string, after: Table<K, V>)
    requires UpsertsTo(before, rows, batch, next) && ChunksLead(next, rest, batch, after)
    ensures ChunksLead(before, [rows] + rest, batch, after)
  {
    var w := Upsert(before, rows, batch).value;
    assert ([rows] + rest)[1..] == rest;
    CountingIsOnlyCounting(next, {}, {} + w.keys, rest, batch);
  }

  ghost predicate BatchLeads(t: Tables, b: Batch, batch: string, after: Tables) {
    && ChunksLead(t.categories, b.categories, batch, after.categories)
    && ChunksLead(t.products, b.products, batch, after.products)
    && ChunksLead(t.priceTypes, b.priceTypes, batch, after.priceTypes)
    && ChunksLead(t.prices, b.prices, batch, after.prices)
    && ChunksLead(t.stock, b.stock, batch, after.stock)
    && ChunksLead(t.bindings, b.bindings, batch, after.bindings)
  }

  lemma {:induction false} TablesSeeTheirChunks(t: Tables, snapshots: seq<Snapshot>, batch: string)
    requires forall s :: s in snapshots ==> s.batch == batch
    requires ImportAll(t, snapshots).Ok?
    ensures BatchLeads(t, BatchOf(snapshots), batch, ImportAll(t, snapshots).value)
    decreases |snapshots|
  {
    hide ImportInto, UpsertsTo, PlacedCategories, PriceTypeValues, PriceValues, AcceptablePrices;
    if snapshots != [] {
      hide ChunksLead;
      var s, rest, end := snapshots[0], BatchOf(snapshots[1..]), ImportAll(t, snapshots).value;
      assert s in snapshots;
      ImportedParts(t, s);
      var next := ImportInto(t, s).value.tables;
      TablesSeeTheirChunks(next, snapshots[1..], batch);
      OneChunkMore(t.categories, PlacedCategories(s.categories), next.categories, rest.categories, batch,
                   end.categories);
      OneChunkMore(t.products, s.products, next.products, rest.products, batch, end.products);
      OneChunkMore(t.priceTypes, PriceTypeValues(s.priceTypes), next.priceTypes, rest.priceTypes, batch,
                   end.priceTypes);
      OneChunkMore(t.prices, PriceValues(AcceptablePrices(s.prices)), next.prices, rest.prices, batch, end.prices);
      OneChunkMore(t.stock, s.stock, next.stock, rest.stock, batch, end.stock);
      OneChunkMore(t.bindings, s.bindings, next.bindings, rest.bindings, batch, end.bindings);
    }
  }

  ghost predicate SweptToTheBatch<K(!new), V(!new)>(before: Table<K, V>, chunks: seq<seq<Incoming<K, V>>>,
                                                    inScope: K -> bool, after: Table<K, V>) {
    && Replaces(before, chunks, inScope, after)
    && (HoldsTheBatch(after, chunks, inScope) <==> NothingIsOutdated(before, chunks, inScope))
  }

  ghost predicate HiddenToTheBatch<K(!new), V(!new)>(before: Table<K, V>, chunks: seq<seq<Incoming<K, V>>>,
                                                     after: Table<K, V>) {
    && Hides(before, chunks, after)
    && (ShowsTheBatch(after, chunks) <==> NothingIsOutdated(before, chunks, Everywhere()))
  }

  lemma ChunksThenFinalise<K(!new), V(!new)>(before: Table<K, V>, chunks: seq<seq<Incoming<K, V>>>, batch: string,
                                             inScope: K -> bool, imported: Table<K, V>)
    requires ChunksLead(before, chunks, batch, imported) && IsFreshBatch(before, batch)
    ensures SweptToTheBatch(before, chunks, inScope, Sweep(imported, batch, inScope))
    ensures HiddenToTheBatch(before, chunks, Deactivate(imported, batch))
  {
    hide Replaces, Hides, HoldsTheBatch, ShowsTheBatch, NothingIsOutdated, Sweep, Deactivate;
    ImportThenFinalise(before, chunks, batch, inScope);
  }

  /** One export in any number of parts under a new batch id, then finalised. Whatever the scope, the table
      afterwards is settled by the table before: in scope it is exactly the accepted rows of the export if
      and only if none of them is outdated, and out of scope nothing else has moved. */
  lemma ScopeIsReplaced(t: Tables, snapshots: seq<Snapshot>, batch: string, scope: Scope)
    requires forall s :: s in snapshots ==> s.batch == batch
    requires ImportAll(t, snapshots).Ok?
    ensures IsFinalised(ImportAll(t, snapshots).value, FinalizeIn(ImportAll(t, snapshots).value, scope, batch),
                        scope, batch)
    ensures BatchLeads(t, BatchOf(snapshots), batch, ImportAll(t, snapshots).value)
    ensures var (b, after) := (BatchOf(snapshots), FinalizeIn(ImportAll(t, snapshots).value, scope, batch));
            match scope
            case Categories =>
              IsFreshBatch(t.categories, batch) ==> HiddenToTheBatch(t.categories, b.categories, after.categories)
            case Products =>
              IsFreshBatch(t.products, batch) ==> HiddenToTheBatch(t.products, b.products, after.products)
            case PriceTypes =>
              IsFreshBatch(t.priceTypes, batch) ==>
                SweptToTheBatch(t.priceTypes, b.priceTypes, Everywhere(), after.priceTypes)
            case Prices(list) =>
              IsFreshBatch(t.prices, batch) ==> SweptToTheBatch(t.prices, b.prices, Reaches(list), after.prices)
            case Stock(warehouse) =>
              IsFreshBatch(t.stock, batch) ==> SweptToTheBatch(t.stock, b.stock, Reaches(warehouse), after.stock)
            case Bindings =>
              IsFreshBatch(t.bindings, batch) ==>
                SweptToTheBatch(t.bindings, b.bindings, Everywhere(), after.bindings)
  {
    FinalisingMovesNothingElse(ImportAll(t, snapshots).value, scope, batch);
    hide ImportAll, ChunksLead, SweptToTheBatch, HiddenToTheBatch, IsFreshBatch, Sweep, Deactivate;
    hide Reaches, Everywhere, BatchOf, IsFinalised, BatchLeads;
    TablesSeeTheirChunks(t, snapshots, batch);
    var b, end := BatchOf(snapshots), ImportAll(t, snapshots).value;
    match scope
    case Categories =>
      if IsFreshBatch(t.categories, batch) {
        ChunksThenFinalise(t.categories, b.categories, batch, Everywhere(), end.categories);
      }
    case Products =>
      if IsFreshBatch(t.products, batch) {
        ChunksThenFinalise(t.products, b.products, batch, Everywhere(), end.products);
      }
    case PriceTypes =>
      if IsFreshBatch(t.priceTypes, batch) {
        ChunksThenFinalise(t.priceTypes, b.priceTypes, batch, Everywhere(), end.priceTypes);
      }
    case Prices(list) =>
      if IsFreshBatch(t.prices, batch) {
        ChunksThenFinalise(t.prices, b.prices, batch, Reaches(list), end.prices);
      }
    case Stock(warehouse) =>
      if IsFreshBatch(t.stock, batch) {
        ChunksThenFinalise(t.stock, b.stock, batch, Reaches(warehouse), end.stock);
      }
    case Bindings =>
      if IsFreshBatch(t.bindings, batch) {
        ChunksThenFinalise(t.bindings, b.bindings, batch, Everywhere(), end.bindings);
      }
  }

  /** One price list exported in any number of parts under a new batch id, then finalised for that list: it
      holds exactly the accepted rows of the export if and only if the table held none of them at a newer
      timestamp, and no row of another list that the export did not write has moved. */
  lemma PriceListIsReplaced(t: Tables, snapshots: seq<Snapshot>, batch: string, list: Option<string>)
    requires forall s :: s in snapshots ==> s.batch == batch
    requires ImportAll(t, snapshots).Ok? && IsFreshBatch(t.prices, batch)
    ensures var after := FinalizeIn(ImportAll(t, snapshots).value, Prices(list), batch).prices;
            var chunks := BatchOf(snapshots).prices;
            && ((forall key: PriceKey :: list.None? || key.1 == list.value ==>
                                           (key in after <==> MentionedIn(chunks, key)))
                <==> (forall key: PriceKey :: (list.None? || key.1 == list.value) && MentionedIn(chunks, key) ==>
                                                LandsIn(t.prices, chunks, key)))
            && (forall key :: LandsIn(t.prices, chunks, key) ==>
                                key in after && CarriedIn(chunks, key, after[key].payload, after[key].changedAt))
            && (forall key: PriceKey :: list.Some? && key.1 != list.value && !LandsIn(t.prices, chunks, key) ==>
                                (key in after <==> key in t.prices) && (key in after ==> after[key] == t.prices[key]))
  {
    hide ImportAll, FinalizeIn, BatchOf, MentionedIn, LandsIn, CarriedIn;
    ScopeIsReplaced(t, snapshots, batch, Prices(list));
    assert forall key: PriceKey :: Reaches(list)(key) <==> list.None? || key.1 == list.value;
    hide Reaches;
  }

  // ---- Paths of several snapshots side by side ----------------------------------------------------

  function ParentsIn(s: Snapshot): CategoryTree.Parents {
    CategoryTree.ParentsOf(Graph(s.categories))
  }

  ghost predicate StandsAsPlaced(table: Table<string, CategoryCard>, parents: CategoryTree.Parents, id: string)
    requires id in parents
  {
    id in table && table[id].payload.placement.path == CategoryTree.PathOf(parents, id)
  }

  lemma PlacedAsTheBatchSays(s: Snapshot, i: nat)
    requires i < |s.categories|
    ensures var row := PlacedCategories(s.categories)[i];
            && row.key == s.categories[i].id && row.changedAt == s.categories[i].changedAt
            && row.key in ParentsIn(s)
            && row.payload.parent == s.categories[i].parent && row.payload.name == s.categories[i].name
            && row.payload.placement.depth == |CategoryTree.ChainOf(ParentsIn(s), row.key)| - 1
            && row.payload.placement.path == CategoryTree.PathOf(ParentsIn(s), row.key)
  {
    hide CategoryTree.PlacementsOf, CategoryTree.ParentsOf, CategoryTree.Place, CategoryTree.Chain;
    var graph := Graph(s.categories);
    EveryIdHasAParentEntry(graph);
    assert graph[i] in graph;
    CategoryTree.EveryCategoryIsPlaced(graph, ParentsIn(s));
    CategoryTree.ChainClimbs(ParentsIn(s), graph[i].id);
    PlacedDepth(CategoryTree.ChainOf(ParentsIn(s), graph[i].id));
  }

  lemma PlacedDepth(chain: seq<string>)
    requires chain != []
    ensures CategoryTree.Place(chain).depth == |chain| - 1
  {
  }

  lemma {:induction false} EveryParentEntryHasARow(rows: seq<CategoryTree.Category>, id: string)
    requires id in CategoryTree.ParentsOf(rows)
    ensures exists i :: 0 <= i < |rows| && rows[i].id == id
  {
    var last := |rows| - 1;
    if rows[last].id != id {
      EveryParentEntryHasARow(rows[..last], id);
      var i :| 0 <= i < last && rows[..last][i].id == id;
      assert rows[i].id == id;
    }
  }

  /** A mentioned category stands where the batch puts it if a row of it wins, and where it was if none does. */
  lemma StoredCategory(t: Tables, s: Snapshot, id: string)
    requires ImportInto(t, s).Ok? && id in ParentsIn(s)
    ensures var after := ImportInto(t, s).value.tables.categories;
            if LandsAmong(t.categories, PlacedCategories(s.categories), id) then StandsAsPlaced(after, ParentsIn(s), id)
            else id in t.categories && id in after && after[id] == t.categories[id]
  {
    hide ImportInto, Upsert, CategoryTree.PathOf, CategoryTree.ParentsOf, PlacedCategories, LandsAmong, AllLand;
    ImportedParts(t, s);
    var rows := PlacedCategories(s.categories);
    UpsertEffect(t.categories, rows, s.batch);
    var w := Upsert(t.categories, rows, s.batch).value;
    WrittenMeansLanded(t.categories, w, rows, s.batch, id);
    if LandsAmong(t.categories, rows, id) {
      var i := WinningRow(t.categories, rows, id);
      assert IsWritten(w, rows[i], s.batch);
      PlacedAsTheBatchSays(s, i);
    } else {
      EveryParentEntryHasARow(Graph(s.categories), id);
      var i :| 0 <= i < |s.categories| && Graph(s.categories)[i].id == id;
      PlacedAsTheBatchSays(s, i);
      LosingRow(t.categories, rows, i);
    }
  }

  lemma WinningRow<K, V>(before: Table<K, V>, rows: seq<Incoming<K, V>>, k: K) returns (i: nat)
    requires LandsAmong(before, rows, k)
    ensures i < |rows| && rows[i].key == k && Lands(before, rows[i])
  {
    i :| 0 <= i < |rows| && rows[i].key == k && Lands(before, rows[i]);
  }

  lemma LosingRow<K, V>(before: Table<K, V>, rows: seq<Incoming<K, V>>, i: nat)
    requires i < |rows| && !LandsAmong(before, rows, rows[i].key)
    ensures rows[i].key in before
  {
  }

  /** An imported category that wins its upsert stands where the batch as a whole puts it. */
  lemma CategoriesStandWhereTheBatchPutsThem(t: Tables, s: Snapshot, i: nat)
    requires ImportInto(t, s).Ok? && i < |s.categories|
    requires Lands(t.categories, PlacedCategories(s.categories)[i])
    ensures var id := s.categories[i].id;
            id in ParentsIn(s) && StandsAsPlaced(ImportInto(t, s).value.tables.categories, ParentsIn(s), id)
  {
    hide ImportInto, CategoryTree.PathOf, CategoryTree.ParentsOf, PlacedCategories;
    PlacedAsTheBatchSays(s, i);
    StoredCategory(t, s, s.categories[i].id);
  }

  /** Every category the batch mentions stands where it puts it. */
  ghost predicate AllStandAsPlaced(table: Table<string, CategoryCard>, s: Snapshot) {
    forall id :: id in ParentsIn(s) ==> StandsAsPlaced(table, ParentsIn(s), id)
  }

  /** Every category of which no row wins already stood where the batch puts it. */
  ghost predicate LosersStoodThere(before: Table<string, CategoryCard>, s: Snapshot) {
    forall id :: id in ParentsIn(s) && !LandsAmong(before, PlacedCategories(s.categories), id) ==>
                   StandsAsPlaced(before, ParentsIn(s), id)
  }

  /** After an import the stored paths are the snapshot's exactly when those it could not write were already,
      as they trivially are when every row wins. */
  lemma PathsAreTheSnapshots(t: Tables, s: Snapshot)
    requires ImportInto(t, s).Ok?
    ensures AllStandAsPlaced(ImportInto(t, s).value.tables.categories, s) <==> LosersStoodThere(t.categories, s)
    ensures AllLand(t.categories, PlacedCategories(s.categories)) ==> LosersStoodThere(t.categories, s)
  {
    hide ImportInto, CategoryTree.PathOf, CategoryTree.ParentsOf, PlacedCategories, LandsAmong;
    forall id | id in ParentsIn(s)
      ensures var after := ImportInto(t, s).value.tables.categories;
              if LandsAmong(t.categories, PlacedCategories(s.categories), id) then
                StandsAsPlaced(after, ParentsIn(s), id)
              else
                id in t.categories && id in after && after[id] == t.categories[id]
      ensures AllLand(t.categories, PlacedCategories(s.categories)) ==>
                LandsAmong(t.categories, PlacedCategories(s.categories), id)
    {
      StoredCategory(t, s, id);
      MentionedLands(t.categories, s, id);
    }
  }

  lemma MentionedLands(before: Table<string, CategoryCard>, s: Snapshot, id: string)
    requires id in ParentsIn(s)
    ensures AllLand(before, PlacedCategories(s.categories)) ==> LandsAmong(before, PlacedCategories(s.categories), id)
  {
    hide CategoryTree.PathOf, CategoryTree.ParentsOf, PlacedCategories;
    EveryParentEntryHasARow(Graph(s.categories), id);
    var i :| 0 <= i < |s.categories| && Graph(s.categories)[i].id == id;
    PlacedAsTheBatchSays(s, i);
  }

  /** What the listing of a category selects from the table, among the categories of a snapshot, is what
      descends from it there. */
  ghost predicate TableSelectsDescendants(table: Table<string, CategoryCard>, s: Snapshot) {
    forall g, c :: g in ParentsIn(s) && c in ParentsIn(s) ==>
                     && g in table && c in table
                     && (CategoryTree.InSubtreeOf(table[g].payload.placement.path, table[c].payload.placement.path)
                         <==> CategoryTree.IsSelfOrAncestor(ParentsIn(s), g, c))
  }

  /** Over the table after an import whose losing rows already stood where the snapshot puts them, the listing
      means descent in the snapshot exactly when it has no cycle. */
  lemma TableMeansDescent(t: Tables, s: Snapshot)
    requires ImportInto(t, s).Ok? && LosersStoodThere(t.categories, s)
    requires CategoryTree.PrefixFree(ParentsIn(s).Keys)
    ensures TableSelectsDescendants(ImportInto(t, s).value.tables.categories, s)
       <==> CategoryTree.NoCycle(ParentsIn(s))
  {
    hide ImportInto, CategoryTree.PathOf, CategoryTree.NoCycle, CategoryTree.InSubtreeOf, ParentsIn, LosersStoodThere;
    PathsAreTheSnapshots(t, s);
    CategoryTree.SubtreeMeansDescent(ParentsIn(s));
  }

  /** Every stored path is made of known identifiers and ends in its own. */
  ghost predicate PathsAreSpelled(table: Table<string, CategoryCard>, ids: set<string>) {
    forall id :: id in table ==> CategoryTree.IsPathOf(ids, id, table[id].payload.placement.path)
  }

  lemma ImportKeepsPathsSpelled(t: Tables, s: Snapshot, ids: set<string>)
    requires ImportInto(t, s).Ok? && ParentsIn(s).Keys <= ids && PathsAreSpelled(t.categories, ids)
    ensures PathsAreSpelled(ImportInto(t, s).value.tables.categories, ids)
  {
    hide ImportInto, Upsert, PlacedCategories, LandsAmong, ParentsIn, AllLand;
    hide CategoryTree.IsPathOf, CategoryTree.PathOf;
    ImportedParts(t, s);
    var rows := PlacedCategories(s.categories);
    UpsertEffect(t.categories, rows, s.batch);
    var w := Upsert(t.categories, rows, s.batch).value;
    forall id | id in w.table ensures CategoryTree.IsPathOf(ids, id, w.table[id].payload.placement.path) {
      if id in w.keys {
        var i := WinningRow(t.categories, rows, id);
        PlacedAsTheBatchSays(s, i);
        StoredCategory(t, s, id);
        CategoryTree.PathsAreSpelled(ParentsIn(s), ids, id);
      }
    }
  }

  /** Of the categories that stand where a snapshot without cycles puts them, every listing holds exactly what
      descends there if and only if everything above them stands where it puts it, too. */
  lemma ListingsNeedTheirGroups(table: Table<string, CategoryCard>, s: Snapshot, ids: set<string>)
    requires PathsAreSpelled(table, ids) && ParentsIn(s).Keys <= ids && CategoryTree.PrefixFree(ids)
    requires CategoryTree.NoCycle(ParentsIn(s)) && ParentsIn(s).Keys <= table.Keys
    ensures (forall g, c :: g in ParentsIn(s) && c in ParentsIn(s) && StandsAsPlaced(table, ParentsIn(s), c) ==>
                              (CategoryTree.InSubtreeOf(table[g].payload.placement.path,
                                                        table[c].payload.placement.path)
                               <==> CategoryTree.IsSelfOrAncestor(ParentsIn(s), g, c)))
       <==> (forall g, c :: g in ParentsIn(s) && c in ParentsIn(s) && StandsAsPlaced(table, ParentsIn(s), c)
                            && CategoryTree.IsSelfOrAncestor(ParentsIn(s), g, c) ==>
                              StandsAsPlaced(table, ParentsIn(s), g))
  {
    hide ParentsIn, CategoryTree.PathOf, CategoryTree.IsPathOf, CategoryTree.InSubtreeOf, CategoryTree.IsSelfOrAncestor,
      CategoryTree.NoCycle, CategoryTree.PrefixFree;
    forall g, c | g in ParentsIn(s) && c in ParentsIn(s) && StandsAsPlaced(table, ParentsIn(s), c)
      ensures CategoryTree.InSubtreeOf(table[g].payload.placement.path, table[c].payload.placement.path)
         <==> CategoryTree.IsSelfOrAncestor(ParentsIn(s), g, c) && StandsAsPlaced(table, ParentsIn(s), g)
    {
      CategoryTree.ListedUnder(ParentsIn(s), ids, g, table[g].payload.placement.path, c);
    }
  }

  // ---- A snapshot delivered again ---------------------------------------------------------------------

  /** First a root `g` with a child `c`; then `g`, changed, under a new root `h`, and `c` as it was. */
  const FLAT: seq<CategoryRow> := [CategoryRow("g", None, "", Some(1)), CategoryRow("c", Some("g"), "", Some(1))]
  const NESTED: seq<CategoryRow> :=
    [CategoryRow("h", None, "", Some(2)), CategoryRow("g", Some("h"), "", Some(2)),
     CategoryRow("c", Some("g"), "", Some(1))]

  function OnlyCategories(rows: seq<CategoryRow>, batch: string): Snapshot {
    Snapshot(batch, rows, [], [], [], [], [])
  }

  /** Importing nothing but categories with different ids is never refused. */
  lemma OnlyCategoriesGoThrough(t: Tables, rows: seq<CategoryRow>, batch: string)
    requires forall i, j :: 0 <= i < j < |rows| ==> rows[i].id != rows[j].id
    ensures ImportInto(t, OnlyCategories(rows, batch)).Ok?
  {
    hide PlacedCategories;
    var s := OnlyCategories(rows, batch);
    var placed := PlacedCategories(rows);
    forall i | 0 <= i < |rows| ensures placed[i].key == rows[i].id {
      PlacedAsTheBatchSays(s, i);
    }
    DistinctKeysFrom(Written(t.categories, {}), placed, batch);
    assert PriceTypeValues([]) == [] && PriceValues([]) == [];
  }

  /** The path and the timestamp a row of its own leaves for its id. */
  lemma OneRowOfItsOwn(t: Tables, rows: seq<CategoryRow>, batch: string, i: nat)
    requires i < |rows| && forall j, k :: 0 <= j < k < |rows| ==> rows[j].id != rows[k].id
    ensures var s := OnlyCategories(rows, batch);
            var (imported, id) := (ImportInto(t, s), rows[i].id);
            && imported.Ok? && id in imported.value.tables.categories && id in ParentsIn(s)
            && var after := imported.value.tables.categories[id];
               if id in t.categories && !Wins(rows[i].changedAt, t.categories[id].changedAt) then
                 after == t.categories[id]
               else
                 after.changedAt == rows[i].changedAt
                 && after.payload.placement.path == CategoryTree.PathOf(ParentsIn(s), id)
  {
    hide ImportInto, PlacedCategories, CategoryTree.PathOf, CategoryTree.ParentsOf, Upsert, AllLand;
    var s, id := OnlyCategories(rows, batch), rows[i].id;
    OnlyCategoriesGoThrough(t, rows, batch);
    forall j | 0 <= j < |rows| ensures PlacedCategories(rows)[j].key == rows[j].id {
      PlacedAsTheBatchSays(s, j);
    }
    PlacedAsTheBatchSays(s, i);
    StoredCategory(t, s, id);
    ImportedParts(t, s);
    UpsertEffect(t.categories, PlacedCategories(rows), batch);
    if Lands(t.categories, PlacedCategories(rows)[i]) {
      assert IsWritten(Upsert(t.categories, PlacedCategories(rows), batch).value, PlacedCategories(rows)[i], batch);
    }
  }

  function Rank(id: string): nat {
    if id == "h" then 0 else if id == "g" then 1 else 2
  }

  ghost predicate IsInOrder(s: Snapshot) {
    && CategoryTree.NoCycle(ParentsIn(s)) && CategoryTree.PrefixFree(ParentsIn(s).Keys)
    && CategoryTree.IsSelfOrAncestor(ParentsIn(s), "g", "c")
  }

  lemma PathsOfFlat(batch: string)
    ensures var s := OnlyCategories(FLAT, batch);
            && ParentsIn(s).Keys == {"g", "c"} && IsInOrder(s)
            && CategoryTree.PathOf(ParentsIn(s), "g") == "g" && CategoryTree.PathOf(ParentsIn(s), "c") == "g/c"
  {
    hide CategoryTree.PathOf, CategoryTree.NoCycle, CategoryTree.PrefixFree, CategoryTree.IsSelfOrAncestor;
    var s, rows := OnlyCategories(FLAT, batch), Graph(FLAT);
    var parents := ParentsIn(s);
    CategoryTree.OneMoreParent([], rows[0]);
    CategoryTree.OneMoreParent([rows[0]], rows[1]);
    assert [] + [rows[0]] == [rows[0]] && rows == [rows[0]] + [rows[1]];
    assert parents == map["g" := None, "c" := Some("g")];
    CategoryTree.RankedHasNoCycle(parents, Rank);
    CategoryTree.SeparatorFreeIsPrefixFree(parents.Keys);
    CategoryTree.PathsAreRecursive(parents, "g");
    CategoryTree.PathsAreRecursive(parents, "c");
    CategoryTree.ParentIsAncestor(parents, "c");
  }

  lemma PathsOfNested(batch: string)
    ensures var s := OnlyCategories(NESTED, batch);
            && ParentsIn(s).Keys == {"h", "g", "c"} && IsInOrder(s)
            && CategoryTree.PathOf(ParentsIn(s), "g") == "h/g"
  {
    hide CategoryTree.PathOf, CategoryTree.NoCycle, CategoryTree.PrefixFree, CategoryTree.IsSelfOrAncestor;
    var s, rows := OnlyCategories(NESTED, batch), Graph(NESTED);
    var parents := ParentsIn(s);
    CategoryTree.OneMoreParent([], rows[0]);
    CategoryTree.OneMoreParent([rows[0]], rows[1]);
    CategoryTree.OneMoreParent([rows[0]] + [rows[1]], rows[2]);
    assert [] + [rows[0]] == [rows[0]] && rows == [rows[0]] + [rows[1]] + [rows[2]];
    assert parents == map["h" := None, "g" := Some("h"), "c" := Some("g")];
    CategoryTree.RankedHasNoCycle(parents, Rank);
    CategoryTree.SeparatorFreeIsPrefixFree(parents.Keys);
    CategoryTree.PathsAreRecursive(parents, "h");
    CategoryTree.PathsAreRecursive(parents, "g");
    CategoryTree.ParentIsAncestor(parents, "c");
  }

  /** The first snapshot, the second, and the first once more: `g` stays under `h`, where the second put it,
      and `c`, unchanged and so written again, goes back to where the first had it. In either snapshot `c` is
      a child of `g`, and the listing of `g` has lost it. */
  lemma ReplayBreaksDescent(t: Tables, defaultPriceType: string)
    requires t.categories == map[]
    ensures var (flat, nested) := (OnlyCategories(FLAT, "1"), OnlyCategories(NESTED, "2"));
            var table := AfterAll(t, defaultPriceType, [Import(flat), Import(nested), Import(flat)]).categories;
            && IsInOrder(flat) && IsInOrder(nested)
            && "g" in table && "c" in table
            && !CategoryTree.InSubtreeOf(table["g"].payload.placement.path, table["c"].payload.placement.path)
  {
    hide ImportInto, ParentsIn, IsInOrder, CategoryTree.PathOf, CategoryTree.InSubtreeOf;
    var flat, nested := OnlyCategories(FLAT, "1"), OnlyCategories(NESTED, "2");
    PathsOfFlat("1");
    PathsOfNested("2");
    OneRowOfItsOwn(t, FLAT, "1", 0);
    OneRowOfItsOwn(t, FLAT, "1", 1);
    var first := ImportInto(t, flat).value.tables;
    OneRowOfItsOwn(first, NESTED, "2", 1);
    OneRowOfItsOwn(first, NESTED, "2", 2);
    var second := ImportInto(first, nested).value.tables;
    OneRowOfItsOwn(second, FLAT, "1", 0);
    OneRowOfItsOwn(second, FLAT, "1", 1);
    var third := ImportInto(second, flat).value.tables;
    assert third.categories["g"].payload.placement.path == "h/g";
    assert third.categories["c"].payload.placement.path == "g/c";
    CategoryTree.SubtreeIsUnder("h/g", "g/c");
    ThreeCommands(t, defaultPriceType, Import(flat), Import(nested), Import(flat));
  }

  lemma ThreeCommands(t: Tables, defaultPriceType: string, a: Command, b: Command, c: Command)
    ensures AfterAll(t, defaultPriceType, [a, b, c])
         == After(After(After(t, defaultPriceType, a), defaultPriceType, b), defaultPriceType, c)
  {
    hide After;
    assert [a, b, c][1..] == [b, c] && [b, c][1..] == [c] && [c][1..] == [];
    var first := After(t, defaultPriceType, a);
    var second := After(first, defaultPriceType, b);
    var last := After(second, defaultPriceType, c);
    assert AfterAll(last, defaultPriceType, []) == last;
    assert AfterAll(second, defaultPriceType, [c]) == last;
    assert AfterAll(first, defaultPriceType, [b, c]) == last;
  }
}
