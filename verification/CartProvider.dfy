/** Taking the caller's cart or starting one, while somebody else may be starting the same cart. */
module CartProvider {
  import opened Events
  import opened Carts

  predicate Announces(event: Event, id: CartId) {
    event.CartCreated? && event.cartId == id
  }

  /** The events that do not announce the cart, and those that do. */
  function Others(events: seq<Event>, id: CartId): seq<Event> {
    if events == [] then [] else (if Announces(events[0], id) then [] else [events[0]]) + Others(events[1..], id)
  }

  function Announcements(events: seq<Event>, id: CartId): (found: seq<Event>)
    ensures forall i :: 0 <= i < |found| ==> Announces(found[i], id)
  {
    if events == [] then [] else (if Announces(events[0], id) then [events[0]] else []) + Announcements(events[1..], id)
  }

  /** Removing the first announcement takes nothing else with it. */
  lemma {:induction false} WithoutOneAnnouncement(events: seq<Event>, id: CartId)
    requires Announcements(events, id) != []
    ensures var first := Announcements(events, id)[0];
            && first in events
            && Others(WithoutFirst(events, first), id) == Others(events, id)
            && Announcements(WithoutFirst(events, first), id) == Announcements(events, id)[1..]
  {
    var head, rest := events[0], events[1..];
    if !Announces(head, id) {
      WithoutOneAnnouncement(rest, id);
      var first := Announcements(events, id)[0];
      var left := WithoutFirst(rest, first);
      assert WithoutFirst(events, first) == [head] + left && ([head] + left)[1..] == left;
    }
  }

  lemma {:induction false} NoneLeft(events: seq<Event>, id: CartId)
    requires Announcements(events, id) == []
    ensures Others(events, id) == events
  {
    if events != [] {
      NoneLeft(events[1..], id);
    }
  }

  lemma OthersOfMore(event: Event, rest: seq<Event>, id: CartId)
    ensures Others([event] + rest, id) == (if Announces(event, id) then [] else [event]) + Others(rest, id)
  {
    assert ([event] + rest)[1..] == rest;
  }

  lemma {:induction false} OthersConcat(a: seq<Event>, b: seq<Event>, id: CartId)
    ensures Others(a + b, id) == Others(a, id) + Others(b, id)
  {
    if a == [] {
      assert a + b == b;
    } else {
      hide Others, Announces;
      var first, rest := a[0], a[1..];
      assert a == [first] + rest;
      OthersConcat(rest, b, id);
      OthersOfMore(first, rest, id);
      OthersOfMore(first, rest + b, id);
      assert a + b == [first] + (rest + b);
    }
  }

  /** What stays when a cart's announcements are withdrawn: everything else, as often as it was there. */
  lemma {:induction false} OthersAreKept(events: seq<Event>, id: CartId, e: Event)
    ensures multiset(Others(events, id))[e]
         == if e.CartCreated? && e.cartId == id then 0 else multiset(events)[e]
  {
    if events != [] {
      OthersAreKept(events[1..], id, e);
      assert events == [events[0]] + events[1..];
      assert multiset(events) == multiset{events[0]} + multiset(events[1..]);
    }
  }

  /** Withdraws every announcement of a cart that was never written. */
  method WithdrawCreationOf(log: EventsCollection, id: CartId)
    modifies log
    ensures log.events == Others(old(log.events), id)
  {
    var doomed := Announcements(log.events, id);
    var i := 0;
    while i < |doomed|
      invariant 0 <= i <= |doomed|
      invariant Announcements(log.events, id) == doomed[i..]
      invariant Others(log.events, id) == Others(old(log.events), id)
    {
      WithoutOneAnnouncement(log.events, id);
      log.RemoveEvent(doomed[i]);
      i := i + 1;
    }
    NoneLeft(log.events, id);
  }

  /** The carts table with its unique index on the person. */
  class CartTable {
    var rows: map<UserId, Draft>

    constructor (stored: map<UserId, Draft>)
      ensures rows == stored
    {
      rows := stored;
    }

    /** Rows other requests commit in the meantime. */
    method CommittedMeanwhile(others: map<UserId, Draft>)
      requires others.Keys !! rows.Keys
      modifies this
      ensures rows == old(rows) + others
    {
      rows := rows + others;
    }

    method Add(cart: Cart) returns (clash: bool)
      modifies this
      ensures clash <==> cart.userId in old(rows)
      ensures rows == if clash then old(rows) else old(rows)[cart.userId := cart.Value()]
    {
      clash := cart.userId in rows;
      if !clash {
        rows := rows[cart.userId := cart.Value()];
      }
    }
  }

  /** Gives back the person's one cart row whoever wrote it, and announces a cart exactly when this call
      wrote it. `meanwhile` are the rows committed by others between the read and the insert. */
  method CurrentOrNew(table: CartTable, log: EventsCollection, userId: UserId, newId: CartId,
                      meanwhile: map<UserId, Draft>)
    returns (cart: Cart)
    requires meanwhile.Keys !! table.rows.Keys
    requires forall u :: u in table.rows ==> table.rows[u].userId == u && table.rows[u].id != newId
    requires forall u :: u in meanwhile ==> meanwhile[u].userId == u && meanwhile[u].id != newId
    requires Announcements(log.events, newId) == []
    modifies table, log
    ensures userId in table.rows && cart.Value() == table.rows[userId] && cart.eventsCollection == log
    ensures var known := userId in old(table.rows) || userId in meanwhile;
            var others := if userId in old(table.rows) then old(table.rows) else old(table.rows) + meanwhile;
            && table.rows == (if known then others else others[userId := Draft(newId, userId, [])])
            && log.events == old(log.events) + if known then [] else [CartCreated(newId, userId)]
  {
    if userId in table.rows {
      cart := new Cart.Load(table.rows[userId], log);
      return;
    }
    cart := new Cart.Create(newId, log, userId);
    table.CommittedMeanwhile(meanwhile);
    var clash := table.Add(cart);
    if clash {
      WithdrawCreationOf(log, newId);
      OthersConcat(old(log.events), [CartCreated(newId, userId)], newId);
      NoneLeft(old(log.events), newId);
      cart := new Cart.Load(table.rows[userId], log);
    }
  }

  // ---- The race as a step system --------------------------------------------------------------

  type RequestId = nat

  datatype Progress =
    | Reading
    | Starting(id: CartId)
    | Inserted(id: CartId)
    | Holding(id: CartId)

  datatype Request = Request(user: UserId, progress: Progress, events: seq<Event>)

  /** The committed cart rows, the committed announcements, and the requests under way. */
  datatype State = State(carts: map<UserId, CartId>, outbox: seq<Event>, requests: map<RequestId, Request>)

  datatype Action =
    | Open(request: RequestId, user: UserId)
    | Read(request: RequestId, newId: CartId)
    | Insert(request: RequestId)
    | Commit(request: RequestId)
    | Abandon(request: RequestId)

  predicate InsertedBySomeone(s: State, user: UserId) {
    exists r :: r in s.requests && s.requests[r].user == user && s.requests[r].progress.Inserted?
  }

  /** An insert waits for the outcome of an open transaction that has inserted the same key. */
  predicate Enabled(s: State, a: Action) {
    match a
    case Open(r, _) => r !in s.requests
    case Read(r, newId) => r in s.requests && s.requests[r].progress.Reading? && newId !in s.carts.Values
    case Insert(r) => r in s.requests && s.requests[r].progress.Starting? && !InsertedBySomeone(s, s.requests[r].user)
    case Commit(r) => r in s.requests && (s.requests[r].progress.Inserted? || s.requests[r].progress.Holding?)
    case Abandon(r) => r in s.requests
  }

  function Next(s: State, a: Action): State
    requires Enabled(s, a)
  {
    match a
    case Open(r, user) => s.(requests := s.requests[r := Request(user, Reading, [])])
    case Read(r, newId) =>
      var q := s.requests[r];
      s.(requests := s.requests[r :=
           if q.user in s.carts then q.(progress := Holding(s.carts[q.user]))
           else Request(q.user, Starting(newId), q.events + [CartCreated(newId, q.user)])])
    case Insert(r) =>
      var q := s.requests[r];
      s.(requests := s.requests[r :=
           if q.user in s.carts then Request(q.user, Holding(s.carts[q.user]), Others(q.events, q.progress.id))
           else q.(progress := Inserted(q.progress.id))])
    case Commit(r) =>
      var q := s.requests[r];
      State(if q.progress.Inserted? then s.carts[q.user := q.progress.id] else s.carts,
            s.outbox + q.events, s.requests - {r})
    case Abandon(r) => s.(requests := s.requests - {r})
  }

  predicate Possible(s: State, run: seq<Action>)
    decreases |run|
  {
    run == [] || (Enabled(s, run[0]) && Possible(Next(s, run[0]), run[1..]))
  }

  function After(s: State, run: seq<Action>): State
    requires Possible(s, run)
    decreases |run|
  {
    if run == [] then s else After(Next(s, run[0]), run[1..])
  }

  lemma {:induction false} OthersLeaveAlone(s: State, r: RequestId, run: seq<Action>)
    requires Possible(s, run) && r in s.requests && forall a :: a in run ==> a.request != r
    ensures var t := After(s, run);
            r in t.requests && t.requests[r] == s.requests[r] && s.carts.Keys <= t.carts.Keys
    decreases |run|
  {
    if run != [] {
      assert run[0] in run;
      OthersLeaveAlone(Next(s, run[0]), r, run[1..]);
    }
  }

  /** One call and its commit, with any steps of others between its read and its insert, do to the rows and
      the announcements what the call is specified to do. */
  lemma CallIsARun(s: State, r: RequestId, user: UserId, newId: CartId, others: seq<Action>)
    requires r !in s.requests && newId !in s.carts.Values
    requires Possible(Next(Next(s, Open(r, user)), Read(r, newId)), others)
    requires forall a :: a in others ==> a.request != r
    ensures var now := After(Next(Next(s, Open(r, user)), Read(r, newId)), others);
            var known := user in now.carts;
            && r in now.requests
            && (now.requests[r].progress.Starting? && !InsertedBySomeone(now, user) ==> Enabled(now, Insert(r)))
            && (now.requests[r].progress.Holding? || Enabled(now, Insert(r)) ==>
                  var held := if now.requests[r].progress.Holding? then now else Next(now, Insert(r));
                  && Enabled(held, Commit(r))
                  && var after := Next(held, Commit(r));
                  && after.carts == (if known then now.carts else now.carts[user := newId])
                  && after.outbox == now.outbox + (if known then [] else [CartCreated(newId, user)]))
  {
    var read := Next(Next(s, Open(r, user)), Read(r, newId));
    OthersLeaveAlone(read, r, others);
    WithdrawnAlone(newId, user);
    assert [] + [CartCreated(newId, user)] == [CartCreated(newId, user)];
    assert user in s.carts ==> read.requests[r] == Request(user, Holding(s.carts[user]), []);
    assert user !in s.carts ==> read.requests[r] == Request(user, Starting(newId), [CartCreated(newId, user)]);
  }

  ghost predicate RequestIsSound(s: State, q: Request) {
    match q.progress
    case Reading => q.events == []
    case Starting(id) => q.events == [CartCreated(id, q.user)]
    case Inserted(id) => q.events == [CartCreated(id, q.user)] && q.user !in s.carts
    case Holding(id) => q.events == [] && q.user in s.carts && s.carts[q.user] == id
  }

  /** One announcement for every cart row and none besides. */
  ghost predicate AnnouncedOnce(s: State) {
    && (forall user :: user in s.carts ==> CartCreated(s.carts[user], user) in s.outbox)
    && (forall i :: 0 <= i < |s.outbox| ==>
                      s.outbox[i].CartCreated? && s.outbox[i].userId in s.carts
                      && s.carts[s.outbox[i].userId] == s.outbox[i].cartId)
    && (forall i, j :: 0 <= i < j < |s.outbox| ==> s.outbox[i] != s.outbox[j])
  }

  ghost predicate Inv(s: State) {
    && AnnouncedOnce(s)
    && (forall r :: r in s.requests ==> RequestIsSound(s, s.requests[r]))
    && (forall q, r :: (q in s.requests && r in s.requests && q != r
                        && s.requests[q].progress.Inserted? && s.requests[r].progress.Inserted?)
                       ==> s.requests[q].user != s.requests[r].user)
  }

  lemma CommitKeepsInv(s: State, r: RequestId)
    requires Inv(s) && Enabled(s, Commit(r))
    ensures Inv(Next(s, Commit(r)))
  {
    var t, q := Next(s, Commit(r)), s.requests[r];
    assert RequestIsSound(s, q);
    if q.progress.Inserted? {
      assert t.outbox == s.outbox + [CartCreated(q.progress.id, q.user)];
      assert t.outbox[|s.outbox|] == CartCreated(q.progress.id, q.user);
      forall user | user in t.carts ensures CartCreated(t.carts[user], user) in t.outbox {
        if user != q.user { assert CartCreated(s.carts[user], user) in s.outbox; }
      }
    } else {
      assert t.outbox == s.outbox;
    }
    forall p | p in t.requests ensures RequestIsSound(t, t.requests[p]) {
      assert RequestIsSound(s, s.requests[p]);
    }
  }

  lemma StepKeepsInv(s: State, a: Action)
    requires Inv(s) && Enabled(s, a)
    ensures Inv(Next(s, a))
  {
    if a.Commit? {
      CommitKeepsInv(s, a.request);
    } else {
      var t := Next(s, a);
      forall p | p in t.requests ensures RequestIsSound(t, t.requests[p]) {
        if p in s.requests { assert RequestIsSound(s, s.requests[p]); }
        if a.Insert? && p == a.request && t.requests[p].progress.Holding? {
          WithdrawnAlone(s.requests[p].progress.id, s.requests[p].user);
        }
      }
    }
  }

  lemma WithdrawnAlone(id: CartId, user: UserId)
    ensures Others([CartCreated(id, user)], id) == []
  {
    assert [CartCreated(id, user)][1..] == [];
  }

  lemma {:induction false} RunKeepsInv(s: State, run: seq<Action>)
    requires Inv(s) && Possible(s, run)
    ensures Inv(After(s, run))
    decreases |run|
  {
    if run != [] {
      StepKeepsInv(s, run[0]);
      RunKeepsInv(Next(s, run[0]), run[1..]);
    }
  }

  /** However requests race, commit or are abandoned: every person has at most one cart row, each row has
      exactly one announcement in the outbox, no announcement is about a cart that was not written, and
      whoever lost a race holds the winner's cart. */
  lemma OneCartOneAnnouncement(run: seq<Action>)
    requires Possible(State(map[], [], map[]), run)
    ensures var s := After(State(map[], [], map[]), run);
            && AnnouncedOnce(s)
            && forall r :: r in s.requests && s.requests[r].progress.Holding? ==>
                             s.requests[r].user in s.carts && s.requests[r].progress.id == s.carts[s.requests[r].user]
  {
    RunKeepsInv(State(map[], [], map[]), run);
    var s := After(State(map[], [], map[]), run);
    assert forall r :: r in s.requests ==> RequestIsSound(s, s.requests[r]);
  }
}
