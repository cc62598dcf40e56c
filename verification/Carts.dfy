/** The cart: a draft order whose every change is also an event. */
module Carts {
  import opened Outcome
  import opened Events
  import opened Money

  const MAX_CART_LINES: nat := 100

  datatype CartLine = CartLine(productId: ProductId, quantity: Quantity)

  // ---- What one operation does -----------------------------------------------

  /** One product, one line; the position of its line, or the number of lines when it has none. */
  function LineFor(lines: seq<CartLine>, productId: ProductId): (i: nat)
    ensures i <= |lines|
    ensures i < |lines| ==> lines[i].productId == productId
    ensures forall j :: 0 <= j < i ==> lines[j].productId != productId
  {
    if lines == [] || lines[0].productId == productId then 0 else 1 + LineFor(lines[1..], productId)
  }

  predicate HasLine(lines: seq<CartLine>, productId: ProductId) {
    LineFor(lines, productId) < |lines|
  }

  datatype CartOp =
    | AddItem(productId: ProductId, quantity: Quantity)
    | DecreaseItem(productId: ProductId)
    | SetItemQuantity(productId: ProductId, quantity: Quantity)
    | RemoveItem(productId: ProductId)
    | Clear

  datatype Draft = Draft(id: CartId, userId: UserId, lines: seq<CartLine>)

  /** How an operation ends: the answer, the lines it leaves and the events it recorded. */
  datatype Step = Step(answer: Result<()>, lines: seq<CartLine>, events: seq<Event>)

  function Refuse(c: Draft, error: Error): Step {
    Step(Err(error), c.lines, [])
  }

  function Adding(c: Draft, productId: ProductId, quantity: Quantity): Step {
    var i := LineFor(c.lines, productId);
    if i == |c.lines| then
      if |c.lines| >= MAX_CART_LINES then Refuse(c, CartLineLimitExceeded)
      else
        Step(Ok(()), c.lines + [CartLine(productId, quantity)], [CartItemAdded(c.id, c.userId, productId, quantity)])
    else
      match PlusQuantity(c.lines[i].quantity, quantity)
      case Err(e) => Refuse(c, e)
      case Ok(sum) =>
        Step(Ok(()), c.lines[i := CartLine(productId, sum)], [CartItemAdded(c.id, c.userId, productId, sum)])
  }

  function Setting(c: Draft, productId: ProductId, quantity: Quantity): Step {
    var i := LineFor(c.lines, productId);
    if i == |c.lines| then Refuse(c, CartLineNotFound)
    else
      Step(Ok(()), c.lines[i := CartLine(productId, quantity)],
           [CartItemQuantityChanged(c.id, c.userId, productId, quantity)])
  }

  function Removing(c: Draft, productId: ProductId): Step {
    var i := LineFor(c.lines, productId);
    if i == |c.lines| then Refuse(c, CartLineNotFound)
    else Step(Ok(()), c.lines[..i] + c.lines[i + 1..], [CartItemRemoved(c.id, c.userId, productId)])
  }

  function Decreasing(c: Draft, productId: ProductId): Step {
    var i := LineFor(c.lines, productId);
    if i == |c.lines| then Refuse(c, CartLineNotFound)
    else if c.lines[i].quantity == 1 then Removing(c, productId)
    else Setting(c, productId, c.lines[i].quantity - 1)
  }

  function Clearing(c: Draft): Step {
    if c.lines == [] then Step(Ok(()), [], [])
    else Step(Ok(()), [], [CartCleared(c.id, c.userId, |c.lines|)])
  }

  function Apply(c: Draft, op: CartOp): Step {
    match op
    case AddItem(p, q) => Adding(c, p, q)
    case DecreaseItem(p) => Decreasing(c, p)
    case SetItemQuantity(p, q) => Setting(c, p, q)
    case RemoveItem(p) => Removing(c, p)
    case Clear => Clearing(c)
  }

  // ---- The aggregate ----------------------------------------------------------

  class Cart {
    const id: CartId
    const userId: UserId
    const eventsCollection: EventsCollection
    var lines: seq<CartLine>

    function Value(): Draft
      reads this
    {
      Draft(id, userId, lines)
    }

    constructor Create(cartId: CartId, events: EventsCollection, userId: UserId)
      modifies events
      ensures id == cartId && this.userId == userId && eventsCollection == events && lines == []
      ensures events.events == old(events.events) + [CartCreated(cartId, userId)]
    {
      id, this.userId, eventsCollection, lines := cartId, userId, events, [];
      new;
      events.AddEvent(CartCreated(cartId, userId));
    }

    /** A cart read back from its table, handed the log of the request that reads it. */
    constructor Load(stored: Draft, events: EventsCollection)
      ensures Value() == stored && eventsCollection == events
    {
      id, userId, eventsCollection, lines := stored.id, stored.userId, events, stored.lines;
    }

    method AddItem(productId: ProductId, quantity: Quantity) returns (r: Result<()>)
      modifies this, eventsCollection
      ensures var step := Apply(old(Value()), CartOp.AddItem(productId, quantity));
              r == step.answer && lines == step.lines
              && eventsCollection.events == old(eventsCollection.events) + step.events
    {
      var i := LineFor(lines, productId);
      var held := quantity;
      if i == |lines| {
        if |lines| >= MAX_CART_LINES {
          return Err(CartLineLimitExceeded);
        }
        lines := lines + [CartLine(productId, quantity)];
      } else {
        var sum := PlusQuantity(lines[i].quantity, quantity);
        if sum.Err? {
          return Err(sum.error);
        }
        held := sum.value;
        lines := lines[i := CartLine(productId, held)];
      }
      eventsCollection.AddEvent(CartItemAdded(id, userId, productId, held));
      r := Ok(());
    }

    method DecreaseItem(productId: ProductId) returns (r: Result<()>)
      modifies this, eventsCollection
      ensures var step := Apply(old(Value()), CartOp.DecreaseItem(productId));
              r == step.answer && lines == step.lines
              && eventsCollection.events == old(eventsCollection.events) + step.events
    {
      var i := LineFor(lines, productId);
      if i == |lines| {
        return Err(CartLineNotFound);
      }
      if lines[i].quantity == 1 {
        r := RemoveItem(productId);
      } else {
        r := SetItemQuantity(productId, lines[i].quantity - 1);
      }
    }

    method SetItemQuantity(productId: ProductId, quantity: Quantity) returns (r: Result<()>)
      modifies this, eventsCollection
      ensures var step := Apply(old(Value()), CartOp.SetItemQuantity(productId, quantity));
              r == step.answer && lines == step.lines
              && eventsCollection.events == old(eventsCollection.events) + step.events
    {
      var i := LineFor(lines, productId);
      if i == |lines| {
        return Err(CartLineNotFound);
      }
      lines := lines[i := CartLine(productId, quantity)];
      eventsCollection.AddEvent(CartItemQuantityChanged(id, userId, productId, quantity));
      r := Ok(());
    }

    method RemoveItem(productId: ProductId) returns (r: Result<()>)
      modifies this, eventsCollection
      ensures var step := Apply(old(Value()), CartOp.RemoveItem(productId));
              r == step.answer && lines == step.lines
              && eventsCollection.events == old(eventsCollection.events) + step.events
    {
      var i := LineFor(lines, productId);
      if i == |lines| {
        return Err(CartLineNotFound);
      }
      lines := lines[..i] + lines[i + 1..];
      eventsCollection.AddEvent(CartItemRemoved(id, userId, productId));
      r := Ok(());
    }

    method ClearLines()
      modifies this, eventsCollection
      ensures lines == []
      ensures eventsCollection.events == old(eventsCollection.events) + Apply(old(Value()), CartOp.Clear).events
    {
      if lines == [] {
        return;
      }
      var lineCount := |lines|;
      lines := [];
      eventsCollection.AddEvent(CartCleared(id, userId, lineCount));
    }

    /** Drops the lines whose products the catalog no longer holds; no removal can fail. */
    method RemoveUnavailable(existing: set<ProductId>)
      requires WellFormed(lines)
      modifies this, eventsCollection
      ensures lines == Available(old(lines), |old(lines)|, existing)
      ensures eventsCollection.events
           == old(eventsCollection.events) + Removals(old(Value()), |old(lines)|, existing)
    {
      hide LineFor, Apply, Available, WellFormed, Decided, Removals, Products;
      ghost var was, recorded := Value(), eventsCollection.events;
      NothingDecided(was, existing);
      var productIds := Products(lines);
      var i := 0;
      while i < |productIds|
        invariant 0 <= i <= |productIds|
        invariant Value() == Decided(was, i, existing)
        invariant eventsCollection.events == recorded + Removals(was, i, existing)
      {
        OneMoreLine(was, i, existing);
        if productIds[i] !in existing {
          var r := RemoveItem(productIds[i]);
        }
        i := i + 1;
      }
      EverythingDecided(was, existing);
    }
  }

  // ---- Every run --------------------------------------------------------------

  ghost predicate WellFormed(lines: seq<CartLine>) {
    && |lines| <= MAX_CART_LINES
    && forall i, j :: 0 <= i < j < |lines| ==> lines[i].productId != lines[j].productId
  }

  /** A reader that sees nothing but one event at a time. */
  function ReplayEvent(id: CartId, lines: seq<CartLine>, event: Event): seq<CartLine> {
    match event
    case CartItemAdded(c, _, p, q) => if c == id then Put(lines, p, q) else lines
    case CartItemQuantityChanged(c, _, p, q) => if c == id then Put(lines, p, q) else lines
    case CartItemRemoved(c, _, p) => if c == id then Without(lines, p) else lines
    case CartCleared(c, _, _) => if c == id then [] else lines
    case _ => lines
  }

  function Put(lines: seq<CartLine>, p: ProductId, q: Quantity): seq<CartLine> {
    if lines == [] then [CartLine(p, q)]
    else if lines[0].productId == p then [CartLine(p, q)] + lines[1..]
    else [lines[0]] + Put(lines[1..], p, q)
  }

  function Without(lines: seq<CartLine>, p: ProductId): seq<CartLine> {
    if lines == [] then [] else (if lines[0].productId == p then [] else [lines[0]]) + Without(lines[1..], p)
  }

  function Replay(id: CartId, lines: seq<CartLine>, events: seq<Event>): seq<CartLine>
    decreases |events|
  {
    if events == [] then lines else Replay(id, ReplayEvent(id, lines, events[0]), events[1..])
  }

  /** The cart after a run of operations, refused ones included, and everything it recorded. */
  function Run(c: Draft, ops: seq<CartOp>): (Draft, seq<Event>)
    decreases |ops|
  {
    if ops == [] then (c, [])
    else
      var step := Apply(c, ops[0]);
      var (end, events) := Run(c.(lines := step.lines), ops[1..]);
      (end, step.events + events)
  }

  function Products(lines: seq<CartLine>): (ids: seq<ProductId>)
    ensures |ids| == |lines| && forall i :: 0 <= i < |lines| ==> ids[i] == lines[i].productId
  {
    if lines == [] then [] else [lines[0].productId] + Products(lines[1..])
  }

  /** Of the first `n` lines, those whose products are still held, in order. */
  function Available(lines: seq<CartLine>, n: nat, existing: set<ProductId>): seq<CartLine>
    requires n <= |lines|
  {
    if n == 0 then []
    else Available(lines, n - 1, existing) + (if lines[n - 1].productId in existing then [lines[n - 1]] else [])
  }

  /** The events of removing the others. */
  function Removals(c: Draft, n: nat, existing: set<ProductId>): seq<Event>
    requires n <= |c.lines|
  {
    if n == 0 then []
    else
      var p := c.lines[n - 1].productId;
      Removals(c, n - 1, existing) + (if p in existing then [] else [CartItemRemoved(c.id, c.userId, p)])
  }

  lemma {:induction false} AvailableIsSubset(lines: seq<CartLine>, n: nat, existing: set<ProductId>)
    requires n <= |lines|
    ensures forall line :: line in Available(lines, n, existing) <==>
                             exists i :: 0 <= i < n && lines[i] == line && line.productId in existing
  {
    if n > 0 {
      AvailableIsSubset(lines, n - 1, existing);
    }
  }

  /** The cart once the first `i` of its lines have been decided about. */
  function Decided(was: Draft, i: nat, existing: set<ProductId>): Draft
    requires i <= |was.lines|
  {
    was.(lines := Available(was.lines, i, existing) + was.lines[i..])
  }

  lemma NothingDecided(was: Draft, existing: set<ProductId>)
    ensures Decided(was, 0, existing) == was && Removals(was, 0, existing) == []
  {
  }

  lemma EverythingDecided(was: Draft, existing: set<ProductId>)
    ensures Decided(was, |was.lines|, existing).lines == Available(was.lines, |was.lines|, existing)
  {
  }

  /** Deciding about line `i`: leaving it, or taking its product out, is what the filter over one more
      line says, and taking it out is not refused. */
  lemma OneMoreLine(was: Draft, i: nat, existing: set<ProductId>)
    requires WellFormed(was.lines) && i < |was.lines|
    ensures var p := was.lines[i].productId;
            var (now, next) := (Decided(was, i, existing), Decided(was, i + 1, existing));
            var removal := if p in existing then [] else [CartItemRemoved(was.id, was.userId, p)];
            && Removals(was, i + 1, existing) == Removals(was, i, existing) + removal
            && now.id == next.id && now.userId == next.userId
            && (p in existing ==> now == next)
            && (p !in existing ==> Apply(now, RemoveItem(p)) == Step(Ok(()), next.lines, removal))
  {
    hide LineFor, Removals;
    var kept, c := Available(was.lines, i, existing), Decided(was, i, existing);
    AvailableIsSubset(was.lines, i, existing);
    OneMoreRemoval(was, i, existing);
    assert c.lines[|kept|] == was.lines[i];
    forall j | 0 <= j < |kept| ensures c.lines[j].productId != was.lines[i].productId {
      assert c.lines[j] == kept[j] && kept[j] in kept;
    }
    assert LineFor(c.lines, was.lines[i].productId) == |kept|;
    assert c.lines[|kept| + 1..] == was.lines[i + 1..];
  }

  lemma OneMoreRemoval(was: Draft, i: nat, existing: set<ProductId>)
    requires i < |was.lines|
    ensures var p := was.lines[i].productId;
            var removal := if p in existing then [] else [CartItemRemoved(was.id, was.userId, p)];
            Removals(was, i + 1, existing) == Removals(was, i, existing) + removal
  {
  }

  lemma {:induction false} PutAt(lines: seq<CartLine>, p: ProductId, q: Quantity)
    ensures var i := LineFor(lines, p);
            Put(lines, p, q) == if i == |lines| then lines + [CartLine(p, q)] else lines[i := CartLine(p, q)]
  {
    if lines != [] && lines[0].productId != p {
      PutAt(lines[1..], p, q);
      assert lines == [lines[0]] + lines[1..];
    }
  }

  lemma {:induction false} WithoutAbsent(lines: seq<CartLine>, p: ProductId)
    requires forall line :: line in lines ==> line.productId != p
    ensures Without(lines, p) == lines
  {
    if lines != [] {
      WithoutAbsent(lines[1..], p);
      assert lines == [lines[0]] + lines[1..];
    }
  }

  lemma {:induction false} WithoutAt(lines: seq<CartLine>, p: ProductId)
    requires WellFormed(lines) && HasLine(lines, p)
    ensures var i := LineFor(lines, p); Without(lines, p) == lines[..i] + lines[i + 1..]
  {
    if lines[0].productId == p {
      WithoutAbsent(lines[1..], p);
    } else {
      WithoutAt(lines[1..], p);
      var i := LineFor(lines, p);
      assert lines[..i] == [lines[0]] + lines[1..][..i - 1];
    }
  }

  lemma ReplayOne(id: CartId, lines: seq<CartLine>, event: Event)
    ensures Replay(id, lines, [event]) == ReplayEvent(id, lines, event)
    ensures Replay(id, lines, []) == lines
  {
    assert [event][1..] == [];
  }

  lemma PutIsRecorded(c: Draft, p: ProductId, q: Quantity, step: Step)
    requires WellFormed(c.lines)
    requires step == Adding(c, p, q) || step == Setting(c, p, q)
    ensures IsRecorded(c, step)
  {
    if step.events != [] {
      ReplayOne(c.id, c.lines, step.events[0]);
      PutAt(c.lines, p, step.events[0].quantity);
    }
  }

  lemma RemovingIsRecorded(c: Draft, p: ProductId)
    requires WellFormed(c.lines)
    ensures IsRecorded(c, Removing(c, p))
  {
    if HasLine(c.lines, p) {
      ReplayOne(c.id, c.lines, CartItemRemoved(c.id, c.userId, p));
      WithoutAt(c.lines, p);
    }
  }

  ghost predicate IsRecorded(c: Draft, step: Step) {
    && WellFormed(step.lines)
    && Replay(c.id, c.lines, step.events) == step.lines
    && (step.answer.Err? ==> step.lines == c.lines && step.events == [])
  }

  /** One operation keeps the shape of the cart, and its events say exactly what it did to the lines;
      a refused one changes and records nothing. */
  lemma StepIsRecorded(c: Draft, op: CartOp)
    requires WellFormed(c.lines)
    ensures IsRecorded(c, Apply(c, op))
  {
    match op
    case AddItem(p, q) => PutIsRecorded(c, p, q, Adding(c, p, q));
    case SetItemQuantity(p, q) => PutIsRecorded(c, p, q, Setting(c, p, q));
    case RemoveItem(p) => RemovingIsRecorded(c, p);
    case DecreaseItem(p) =>
      RemovingIsRecorded(c, p);
      if HasLine(c.lines, p) && c.lines[LineFor(c.lines, p)].quantity > 1 {
        var q := c.lines[LineFor(c.lines, p)].quantity - 1;
        PutIsRecorded(c, p, q, Setting(c, p, q));
      }
    case Clear =>
      if c.lines != [] { ReplayOne(c.id, c.lines, CartCleared(c.id, c.userId, |c.lines|)); }
  }

  lemma {:induction false} ReplayConcat(id: CartId, lines: seq<CartLine>, a: seq<Event>, b: seq<Event>)
    ensures Replay(id, lines, a + b) == Replay(id, Replay(id, lines, a), b)
    decreases |a|
  {
    if a == [] {
      assert a + b == b;
    } else {
      hide ReplayEvent;
      var rest := a[1..];
      assert (a + b)[0] == a[0] && (a + b)[1..] == rest + b;
      ReplayConcat(id, ReplayEvent(id, lines, a[0]), rest, b);
    }
  }

  /** After any run of operations the recorded events alone rebuild the cart, and the cart holds at most a
      hundred pairwise different products. */
  lemma {:induction false} RunIsReplayable(c: Draft, ops: seq<CartOp>)
    requires WellFormed(c.lines)
    ensures var (end, events) := Run(c, ops);
            WellFormed(end.lines) && Replay(c.id, c.lines, events) == end.lines && end.id == c.id
    decreases |ops|
  {
    if ops != [] {
      var step := Apply(c, ops[0]);
      StepIsRecorded(c, ops[0]);
      RunIsReplayable(c.(lines := step.lines), ops[1..]);
      ReplayConcat(c.id, c.lines, step.events, Run(c.(lines := step.lines), ops[1..]).1);
    }
  }

  /** The same from the event that starts a cart, with the events of any other aggregate in between. */
  lemma {:induction false} ForeignEventsDoNotMatter(id: CartId, lines: seq<CartLine>, events: seq<Event>)
    ensures Replay(id, lines, events) == Replay(id, lines, Own(id, events))
    decreases |events|
  {
    if events != [] {
      ForeignEventsDoNotMatter(id, ReplayEvent(id, lines, events[0]), events[1..]);
      assert Own(id, events) == (if IsOwn(id, events[0]) then [events[0]] else []) + Own(id, events[1..]);
      ReplayConcat(id, lines, if IsOwn(id, events[0]) then [events[0]] else [], Own(id, events[1..]));
    }
  }

  predicate IsOwn(id: CartId, e: Event) {
    (e.CartItemAdded? || e.CartItemQuantityChanged? || e.CartItemRemoved? || e.CartCleared?) && e.cartId == id
  }

  function Own(id: CartId, events: seq<Event>): seq<Event> {
    if events == [] then [] else (if IsOwn(id, events[0]) then [events[0]] else []) + Own(id, events[1..])
  }

  // ---- What the operations mean ---------------------------------------------------

  /** The cart without its order: how many pieces of which product. */
  function Quantities(lines: seq<CartLine>): map<ProductId, Quantity> {
    if lines == [] then map[] else Quantities(lines[1..])[lines[0].productId := lines[0].quantity]
  }

  lemma {:induction false} QuantitiesAt(lines: seq<CartLine>, p: ProductId)
    ensures p in Quantities(lines) <==> HasLine(lines, p)
    ensures HasLine(lines, p) ==> Quantities(lines)[p] == lines[LineFor(lines, p)].quantity
  {
    if lines != [] && lines[0].productId != p {
      QuantitiesAt(lines[1..], p);
    }
  }

  lemma QuantitiesCons(line: CartLine, rest: seq<CartLine>)
    ensures Quantities([line] + rest) == Quantities(rest)[line.productId := line.quantity]
  {
    assert ([line] + rest)[1..] == rest;
  }

  lemma {:induction false} QuantitiesPut(lines: seq<CartLine>, p: ProductId, q: Quantity)
    ensures Quantities(Put(lines, p, q)) == Quantities(lines)[p := q]
  {
    hide Quantities, LineFor;
    if lines == [] {
      QuantitiesCons(CartLine(p, q), []);
      assert [CartLine(p, q)] + [] == [CartLine(p, q)];
    } else {
      assert lines == [lines[0]] + lines[1..];
      QuantitiesCons(lines[0], lines[1..]);
      if lines[0].productId == p {
        QuantitiesCons(CartLine(p, q), lines[1..]);
      } else {
        QuantitiesPut(lines[1..], p, q);
        QuantitiesCons(lines[0], Put(lines[1..], p, q));
      }
    }
  }

  lemma {:induction false} QuantitiesWithout(lines: seq<CartLine>, p: ProductId)
    ensures Quantities(Without(lines, p)) == Quantities(lines) - {p}
  {
    if lines != [] {
      QuantitiesWithout(lines[1..], p);
      if lines[0].productId == p {
        assert Without(lines, p) == Without(lines[1..], p);
      } else {
        QuantitiesCons(lines[0], Without(lines[1..], p));
      }
    }
  }

  /** What the operations do to the quantities, and exactly when each of them is refused. */
  ghost predicate Means(op: CartOp, before: map<ProductId, Quantity>, lineCount: nat, ok: bool,
                        after: map<ProductId, Quantity>) {
    match op
    case AddItem(p, q) =>
      && (ok <==> if p in before then before[p] + q <= 1_000_000 else lineCount < 100)
      && after == if ok then before[p := if p in before then before[p] + q else q] else before
    case DecreaseItem(p) =>
      && (ok <==> p in before)
      && after == if !ok then before else if before[p] == 1 then before - {p} else before[p := before[p] - 1]
    case SetItemQuantity(p, q) => (ok <==> p in before) && after == if ok then before[p := q] else before
    case RemoveItem(p) => (ok <==> p in before) && after == before - {p}
    case Clear => ok && after == map[]
  }

  lemma PutMeans(c: Draft, p: ProductId, q: Quantity)
    requires WellFormed(c.lines)
    ensures Means(AddItem(p, q), Quantities(c.lines), |c.lines|, Adding(c, p, q).answer.Ok?,
                  Quantities(Adding(c, p, q).lines))
    ensures Means(SetItemQuantity(p, q), Quantities(c.lines), |c.lines|, Setting(c, p, q).answer.Ok?,
                  Quantities(Setting(c, p, q).lines))
  {
    hide Quantities, Put, LineFor;
    QuantitiesAt(c.lines, p);
    PutAt(c.lines, p, q);
    QuantitiesPut(c.lines, p, q);
    if HasLine(c.lines, p) && c.lines[LineFor(c.lines, p)].quantity + q <= MAX_QUANTITY {
      var sum := c.lines[LineFor(c.lines, p)].quantity + q;
      PutAt(c.lines, p, sum);
      QuantitiesPut(c.lines, p, sum);
    }
  }

  lemma RemovingMeans(c: Draft, p: ProductId)
    requires WellFormed(c.lines)
    ensures Means(RemoveItem(p), Quantities(c.lines), |c.lines|, Removing(c, p).answer.Ok?,
                  Quantities(Removing(c, p).lines))
  {
    hide Quantities, Without, LineFor;
    QuantitiesAt(c.lines, p);
    if HasLine(c.lines, p) {
      WithoutAt(c.lines, p);
      QuantitiesWithout(c.lines, p);
    }
  }

  /** Each operation changes the quantity of its own product as it says, by its own amount, and is refused
      exactly by its own guard. */
  lemma OperationsOnQuantities(c: Draft, op: CartOp)
    requires WellFormed(c.lines)
    ensures var step := Apply(c, op);
            Means(op, Quantities(c.lines), |c.lines|, step.answer.Ok?, Quantities(step.lines))
  {
    match op
    case AddItem(p, q) => PutMeans(c, p, q);
    case SetItemQuantity(p, q) => PutMeans(c, p, q);
    case RemoveItem(p) => RemovingMeans(c, p);
    case DecreaseItem(p) =>
      hide Quantities, LineFor;
      QuantitiesAt(c.lines, p);
      RemovingMeans(c, p);
      if HasLine(c.lines, p) && c.lines[LineFor(c.lines, p)].quantity > 1 {
        PutMeans(c, p, c.lines[LineFor(c.lines, p)].quantity - 1);
      }
    case Clear =>
  }

  /** What each operation records, and what it answers when it is refused; a refused one changes and records
      nothing. A product that is already there is announced with the quantity it then has. */
  lemma WhatOperationsRecord(c: Draft, op: CartOp)
    requires WellFormed(c.lines)
    ensures var (step, before) := (Apply(c, op), Quantities(c.lines));
            && (step.answer.Err? ==> step.lines == c.lines && step.events == [])
            && match op
               case AddItem(p, q) =>
                 if step.answer.Err? then
                   step.answer == Err(if p in before then QuantityLimitExceeded else CartLineLimitExceeded)
                 else
                   && Quantities(step.lines) == before[p := if p in before then before[p] + q else q]
                   && step.events == [CartItemAdded(c.id, c.userId, p, Quantities(step.lines)[p])]
               case SetItemQuantity(p, q) =>
                 if step.answer.Err? then step.answer == Err(CartLineNotFound)
                 else step.events == [CartItemQuantityChanged(c.id, c.userId, p, q)]
               case RemoveItem(p) =>
                 if step.answer.Err? then step.answer == Err(CartLineNotFound)
                 else step.events == [CartItemRemoved(c.id, c.userId, p)]
               case DecreaseItem(p) =>
                 if step.answer.Err? then step.answer == Err(CartLineNotFound)
                 else
                   && p in before
                   && (before[p] == 1 ==> step.events == [CartItemRemoved(c.id, c.userId, p)])
                   && (before[p] > 1 ==> step.events == [CartItemQuantityChanged(c.id, c.userId, p, before[p] - 1)])
               case Clear => step.events == if c.lines == [] then [] else [CartCleared(c.id, c.userId, |c.lines|)]
  {
    hide Quantities, LineFor;
    OperationsOnQuantities(c, op);
    if !op.Clear? { QuantitiesAt(c.lines, op.productId); }
  }

  /** No operation reorders a cart: a new product comes last, a removed one leaves a gap that closes, and
      everything else keeps its place. */
  lemma PlacesAreKept(c: Draft, op: CartOp)
    requires WellFormed(c.lines) && !op.Clear?
    ensures var (before, after, p) := (c.lines, Apply(c, op).lines, op.productId);
            if |after| == |before| then
              forall i :: 0 <= i < |before| ==>
                            && after[i].productId == before[i].productId
                            && (before[i].productId != p ==> after[i] == before[i])
            else if |after| > |before| then
              op.AddItem? && after == before + [CartLine(p, op.quantity)]
            else
              exists i :: 0 <= i < |before| && before[i].productId == p && after == before[..i] + before[i + 1..]
  {
    hide LineFor;
    var i := LineFor(c.lines, op.productId);
    if i < |c.lines| { assert c.lines[i].productId == op.productId; }
  }
}
