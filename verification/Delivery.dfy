/** Order events from the committed outbox row to the committed notification, as a system of small steps.

    Commands, several relays, the broker and several consumers interleave freely, and any transaction may be
    abandoned between two steps. The broker loses nothing it accepted; it may be left holding a message whose
    acceptance was never reported, and it puts back whatever is not acknowledged. */
module Delivery {
  import opened Outcome

  type MessageId = nat
  type WorkerId = nat

  /** The routing key of an event: the three with a queue of their own, and everything else. */
  datatype Kind = OrderPlacedKind | OrderStatusChangedKind | OrderDeliveryAddressChangedKind | OtherKind

  predicate HasQueue(kind: Kind) {
    !kind.OtherKind?
  }

  datatype OutboxRow = OutboxRow(kind: Kind, processed: bool)

  /** A copy of an outbox row on its way: the header the publisher sets, if it is usable, and the identity
      the event carries in its body. */
  datatype Copy = Copy(header: Option<MessageId>, eventId: MessageId)

  /** The key a consumer claims: the header, or the event's own identity without one. */
  function KeyOf(copy: Copy): MessageId {
    if copy.header.Some? then copy.header.value else copy.eventId
  }

  /** One relay transaction: the rows it locked, those still to publish, the one published and not yet
      marked, and the marks waiting for the commit. */
  datatype Relay = Relay(locked: set<MessageId>, todo: seq<MessageId>, published: Option<MessageId>,
                         marked: set<MessageId>)

  datatype Phase = Received | Claimed | Worked | Duplicate | Committed

  datatype Handling = Handling(copy: Copy, phase: Phase)

  datatype State = State(
    outbox: map<MessageId, OutboxRow>,
    queued: multiset<Copy>,
    relays: map<WorkerId, Relay>,
    consumers: map<WorkerId, Handling>,
    inbox: set<MessageId>,
    // what has happened so far
    accepted: set<MessageId>,
    handled: multiset<MessageId>,
    discarded: set<MessageId>)

  const INITIAL: State := State(map[], multiset{}, map[], map[], {}, {}, multiset{}, {})

  datatype Action =
    | CommitCommand(events: map<MessageId, Kind>)
    | ReadPending(relay: WorkerId, batch: seq<MessageId>)
    | Publish(relay: WorkerId)
    | FailToPublish(relay: WorkerId, taken: bool)
    | MarkProcessed(relay: WorkerId)
    | CommitRelay(relay: WorkerId)
    | AbandonRelay(relay: WorkerId)
    | Deliver(consumer: WorkerId, copy: Copy)
    | Claim(consumer: WorkerId)
    | Work(consumer: WorkerId)
    | CommitConsumer(consumer: WorkerId)
    | Acknowledge(consumer: WorkerId)
    | PutBack(consumer: WorkerId)
    | Discard(consumer: WorkerId)
    | PublishByHand(id: MessageId)

  predicate LockedBySomeone(s: State, id: MessageId) {
    exists r :: r in s.relays && id in s.relays[r].locked
  }

  /** Whether a transaction that is still open has inserted this key into the inbox. */
  predicate ClaimedBySomeone(s: State, id: MessageId) {
    exists c :: c in s.consumers && HoldsClaim(s.consumers[c]) && KeyOf(s.consumers[c].copy) == id
  }

  predicate HoldsClaim(h: Handling) {
    h.phase.Claimed? || h.phase.Worked?
  }

  /** The broker takes a message: it lands in the queue of its kind, or nowhere when no queue is bound. */
  function Accept(s: State, copy: Copy): State
    requires copy.eventId in s.outbox
  {
    s.(queued := if HasQueue(s.outbox[copy.eventId].kind) then s.queued + multiset{copy} else s.queued,
       accepted := s.accepted + {copy.eventId})
  }

  function WithRelay(s: State, r: WorkerId, relay: Relay): State {
    s.(relays := s.relays[r := relay])
  }

  function WithConsumer(s: State, c: WorkerId, h: Handling): State {
    s.(consumers := s.consumers[c := h])
  }

  predicate Enabled(s: State, a: Action) {
    match a
    case CommitCommand(events) => events.Keys !! s.outbox.Keys
    case ReadPending(r, batch) =>
      && r !in s.relays
      && (forall i, j :: 0 <= i < j < |batch| ==> batch[i] != batch[j])
      && (forall id :: id in batch ==> id in s.outbox && !s.outbox[id].processed && !LockedBySomeone(s, id))
    case Publish(r) =>
      r in s.relays && s.relays[r].todo != [] && s.relays[r].published.None? && s.relays[r].todo[0] in s.outbox
    case FailToPublish(r, _) =>
      r in s.relays && s.relays[r].todo != [] && s.relays[r].published.None? && s.relays[r].todo[0] in s.outbox
    case MarkProcessed(r) => r in s.relays && s.relays[r].published.Some?
    case CommitRelay(r) => r in s.relays && s.relays[r].todo == [] && s.relays[r].published.None?
    case AbandonRelay(r) => r in s.relays
    case Deliver(c, copy) => c !in s.consumers && copy in s.queued
    case Claim(c) => c in s.consumers && s.consumers[c].phase.Received?
                     && !ClaimedBySomeone(s, KeyOf(s.consumers[c].copy))
    case Work(c) => c in s.consumers && s.consumers[c].phase.Claimed?
    case CommitConsumer(c) => c in s.consumers && (s.consumers[c].phase.Worked? || s.consumers[c].phase.Duplicate?)
    case Acknowledge(c) => c in s.consumers && s.consumers[c].phase.Committed?
    case PutBack(c) => c in s.consumers
    case Discard(c) => c in s.consumers && (s.consumers[c].phase.Received? || HoldsClaim(s.consumers[c]))
    case PublishByHand(id) => id in s.outbox && HasQueue(s.outbox[id].kind)
  }

  function Next(s: State, a: Action): State
    requires Enabled(s, a)
  {
    match a
    case CommitCommand(events) => s.(outbox := s.outbox + map id | id in events :: OutboxRow(events[id], false))
    case ReadPending(r, batch) => WithRelay(s, r, Relay((set id | id in batch), batch, None, {}))
    case Publish(r) =>
      var relay := s.relays[r];
      WithRelay(Accept(s, Copy(Some(relay.todo[0]), relay.todo[0])), r,
                relay.(todo := relay.todo[1..], published := Some(relay.todo[0])))
    case FailToPublish(r, taken) =>
      var relay := s.relays[r];
      var tried := if taken then Accept(s, Copy(Some(relay.todo[0]), relay.todo[0])) else s;
      WithRelay(tried, r, relay.(todo := relay.todo[1..]))
    case MarkProcessed(r) =>
      var relay := s.relays[r];
      WithRelay(s, r, relay.(published := None, marked := relay.marked + {relay.published.value}))
    case CommitRelay(r) =>
      s.(outbox := map id | id in s.outbox ::
                   if id in s.relays[r].marked then s.outbox[id].(processed := true) else s.outbox[id],
         relays := s.relays - {r})
    case AbandonRelay(r) => s.(relays := s.relays - {r})
    case Deliver(c, copy) => WithConsumer(s.(queued := s.queued - multiset{copy}), c, Handling(copy, Received))
    case Claim(c) =>
      var h := s.consumers[c];
      WithConsumer(s, c, h.(phase := if KeyOf(h.copy) in s.inbox then Duplicate else Claimed))
    case Work(c) => WithConsumer(s, c, s.consumers[c].(phase := Worked))
    case CommitConsumer(c) =>
      var h := s.consumers[c];
      var after := WithConsumer(s, c, h.(phase := Committed));
      if h.phase.Worked? then
        after.(inbox := s.inbox + {KeyOf(h.copy)}, handled := s.handled + multiset{KeyOf(h.copy)})
      else after
    case Acknowledge(c) => s.(consumers := s.consumers - {c})
    case PutBack(c) => s.(consumers := s.consumers - {c}, queued := s.queued + multiset{s.consumers[c].copy})
    case Discard(c) => s.(consumers := s.consumers - {c}, discarded := s.discarded + {KeyOf(s.consumers[c].copy)})
    case PublishByHand(id) => Accept(s, Copy(None, id))
  }

  // ---- Runs ---------------------------------------------------------------------------

  predicate Possible(s: State, run: seq<Action>)
    decreases |run|
  {
    run == [] || (Enabled(s, run[0]) && Possible(Next(s, run[0]), run[1..]))
  }

  function After(s: State, run: seq<Action>): State
    requires Possible(s, run)
    decreases |run|
  {
    if run == [] then s else After(Next(s, run[0]), run[1..])
  }

  // ---- What every step keeps -------------------------------------------------------------

  /** A copy of a row of ours: published under the row's own id, with that id or no usable header. */
  ghost predicate Genuine(s: State, copy: Copy) {
    && copy.eventId in s.outbox && HasQueue(s.outbox[copy.eventId].kind)
    && (copy.header.None? || copy.header.value == copy.eventId)
    && copy.eventId in s.accepted
  }

  ghost predicate CopiesAreGenuine(s: State) {
    && (forall copy :: copy in s.queued ==> Genuine(s, copy))
    && (forall c :: c in s.consumers ==> Genuine(s, s.consumers[c].copy))
  }

  ghost predicate RelayIsSound(s: State, relay: Relay) {
    && (forall id :: id in relay.locked ==> id in s.outbox && !s.outbox[id].processed)
    && (forall id :: id in relay.todo ==> id in relay.locked)
    && (forall id :: id in relay.marked ==> id in relay.locked && id in s.accepted)
    && (relay.published.Some? ==> relay.published.value in relay.locked && relay.published.value in s.accepted)
  }

  ghost predicate RelaysAreSound(s: State) {
    && (forall r :: r in s.relays ==> RelayIsSound(s, s.relays[r]))
    && (forall q, r :: q in s.relays && r in s.relays && q != r ==> s.relays[q].locked !! s.relays[r].locked)
  }

  /** A row is only ever marked after the broker took it. */
  ghost predicate MarksFollowAcceptance(s: State) {
    && (forall id :: id in s.outbox && s.outbox[id].processed ==> id in s.accepted)
    && (forall id :: id in s.accepted ==> id in s.outbox)
  }

  /** Claims are exclusive, and what is past its claim is in the inbox. */
  ghost predicate ClaimsAreExclusive(s: State) {
    && (forall c :: c in s.consumers && HoldsClaim(s.consumers[c]) ==> KeyOf(s.consumers[c].copy) !in s.inbox)
    && (forall b, c :: (b in s.consumers && c in s.consumers && b != c
                        && HoldsClaim(s.consumers[b]) && HoldsClaim(s.consumers[c]))
                       ==> KeyOf(s.consumers[b].copy) != KeyOf(s.consumers[c].copy))
    && (forall c :: c in s.consumers && (s.consumers[c].phase.Duplicate? || s.consumers[c].phase.Committed?)
                    ==> KeyOf(s.consumers[c].copy) in s.inbox)
  }

  /** The inbox lists exactly the messages whose work was committed, each once. */
  ghost predicate HandledOnce(s: State) {
    && (forall id :: s.handled[id] == if id in s.inbox then 1 else 0)
    && (forall id :: id in s.inbox ==> id in s.outbox && HasQueue(s.outbox[id].kind) && id in s.accepted)
  }

  /** Somewhere between the broker's acceptance and the acknowledgement. */
  ghost predicate Unacknowledged(s: State, id: MessageId) {
    || (exists copy :: copy in s.queued && KeyOf(copy) == id)
    || (exists c :: c in s.consumers && KeyOf(s.consumers[c].copy) == id)
  }

  ghost predicate AcceptedIsNotLost(s: State) {
    forall id :: id in s.accepted && id in s.outbox && HasQueue(s.outbox[id].kind) ==>
                   Unacknowledged(s, id) || id in s.inbox || id in s.discarded
  }

  /** What the publishing side keeps, and what the consuming side keeps. */
  ghost predicate PublishingInv(s: State) {
    RelaysAreSound(s) && MarksFollowAcceptance(s)
  }

  ghost predicate ConsumingInv(s: State) {
    CopiesAreGenuine(s) && ClaimsAreExclusive(s) && HandledOnce(s) && AcceptedIsNotLost(s)
  }

  ghost predicate Inv(s: State) {
    PublishingInv(s) && ConsumingInv(s)
  }

  /** Whatever was unacknowledged still is, unless it is the one key given. */
  lemma StillUnacknowledged(s: State, t: State, except: set<MessageId>)
    requires forall copy :: copy in s.queued && KeyOf(copy) !in except ==>
                              copy in t.queued || exists c :: c in t.consumers && t.consumers[c].copy == copy
    requires forall c :: c in s.consumers && KeyOf(s.consumers[c].copy) !in except ==>
                           || (c in t.consumers && t.consumers[c].copy == s.consumers[c].copy)
                           || s.consumers[c].copy in t.queued
    ensures forall id :: Unacknowledged(s, id) && id !in except ==> Unacknowledged(t, id)
  {
    forall id | Unacknowledged(s, id) && id !in except ensures Unacknowledged(t, id) {
      if copy :| copy in s.queued && KeyOf(copy) == id {
        if copy in t.queued {
        } else {
          var c :| c in t.consumers && t.consumers[c].copy == copy;
        }
      } else {
        var c :| c in s.consumers && KeyOf(s.consumers[c].copy) == id;
      }
    }
  }

  /** A step of a command or a relay that hands nothing to the broker leaves the consuming side alone. */
  lemma ConsumingSideUntouched(s: State, t: State)
    requires Inv(s)
    requires t.queued == s.queued && t.consumers == s.consumers && t.inbox == s.inbox
    requires t.accepted == s.accepted && t.handled == s.handled && t.discarded == s.discarded
    requires forall id :: id in s.outbox ==> id in t.outbox && t.outbox[id].kind == s.outbox[id].kind
    ensures ConsumingInv(t)
  {
    StillUnacknowledged(s, t, {});
    forall id | id in t.accepted && id in t.outbox && HasQueue(t.outbox[id].kind)
      ensures Unacknowledged(t, id) || id in t.inbox || id in t.discarded
    {
      assert id in s.outbox;
    }
  }

  lemma ReadKeepsInv(s: State, r: WorkerId, batch: seq<MessageId>)
    requires Inv(s) && Enabled(s, ReadPending(r, batch))
    ensures Inv(Next(s, ReadPending(r, batch)))
  {
    ConsumingSideUntouched(s, Next(s, ReadPending(r, batch)));
    ReadKeepsRelaysSound(s, r, batch);
  }

  lemma ReadKeepsRelaysSound(s: State, r: WorkerId, batch: seq<MessageId>)
    requires PublishingInv(s) && Enabled(s, ReadPending(r, batch))
    ensures PublishingInv(Next(s, ReadPending(r, batch)))
  {
    var t := Next(s, ReadPending(r, batch));
    BatchIsDisjoint(s, r, batch);
    forall q | q in t.relays ensures RelayIsSound(t, t.relays[q]) {
      if q != r { assert RelayIsSound(s, s.relays[q]); }
    }
  }

  lemma BatchIsDisjoint(s: State, r: WorkerId, batch: seq<MessageId>)
    requires Enabled(s, ReadPending(r, batch))
    ensures forall q :: q in s.relays ==> s.relays[q].locked !! Next(s, ReadPending(r, batch)).relays[r].locked
  {
    forall q | q in s.relays ensures s.relays[q].locked !! Next(s, ReadPending(r, batch)).relays[r].locked {
      assert forall id :: id in batch ==> id !in s.relays[q].locked;
    }
  }

  lemma RelayCommitKeepsInv(s: State, r: WorkerId)
    requires Inv(s) && Enabled(s, CommitRelay(r))
    ensures Inv(Next(s, CommitRelay(r)))
  {
    var t := Next(s, CommitRelay(r));
    ConsumingSideUntouched(s, t);
    forall q | q in t.relays ensures RelayIsSound(t, t.relays[q]) {
      assert RelayIsSound(s, s.relays[q]) && s.relays[q].locked !! s.relays[r].locked;
      forall id | id in t.relays[q].locked ensures id in t.outbox && !t.outbox[id].processed {
        assert id !in s.relays[r].locked;
      }
    }
  }

  lemma CommandKeepsInv(s: State, events: map<MessageId, Kind>)
    requires Inv(s) && Enabled(s, CommitCommand(events))
    ensures Inv(Next(s, CommitCommand(events)))
  {
    var t := Next(s, CommitCommand(events));
    ConsumingSideUntouched(s, t);
    forall r | r in t.relays ensures RelayIsSound(t, t.relays[r]) {
      assert RelayIsSound(s, s.relays[r]);
    }
  }

  lemma AbandonKeepsInv(s: State, r: WorkerId)
    requires Inv(s) && Enabled(s, AbandonRelay(r))
    ensures Inv(Next(s, AbandonRelay(r)))
  {
    var t := Next(s, AbandonRelay(r));
    ConsumingSideUntouched(s, t);
    forall q | q in t.relays ensures RelayIsSound(t, t.relays[q]) {
      assert RelayIsSound(s, s.relays[q]);
    }
  }

  lemma AcceptKeepsInv(s: State, copy: Copy)
    requires Inv(s) && copy.eventId in s.outbox && (copy.header.None? || copy.header.value == copy.eventId)
    ensures Inv(Accept(s, copy))
  {
    AcceptKeepsPublishing(s, copy);
    AcceptKeepsConsuming(s, copy);
  }

  lemma AcceptKeepsPublishing(s: State, copy: Copy)
    requires PublishingInv(s) && copy.eventId in s.outbox
    ensures PublishingInv(Accept(s, copy))
  {
    var t := Accept(s, copy);
    forall r | r in t.relays ensures RelayIsSound(t, t.relays[r]) {
      assert RelayIsSound(s, s.relays[r]);
    }
  }

  lemma AcceptKeepsConsuming(s: State, copy: Copy)
    requires Inv(s) && copy.eventId in s.outbox && (copy.header.None? || copy.header.value == copy.eventId)
    ensures ConsumingInv(Accept(s, copy))
  {
    hide RelaysAreSound;
    AcceptKeepsCopies(s, copy);
    AcceptLosesNothing(s, copy);
    hide CopiesAreGenuine, AcceptedIsNotLost;
  }

  lemma AcceptKeepsCopies(s: State, copy: Copy)
    requires CopiesAreGenuine(s)
    requires copy.eventId in s.outbox && (copy.header.None? || copy.header.value == copy.eventId)
    ensures CopiesAreGenuine(Accept(s, copy))
  {
    var t := Accept(s, copy);
    forall c | c in t.consumers ensures Genuine(t, t.consumers[c].copy) {
      assert Genuine(s, s.consumers[c].copy);
    }
    forall other | other in t.queued ensures Genuine(t, other) {
      if other != copy { assert Genuine(s, other); }
    }
  }

  lemma AcceptLosesNothing(s: State, copy: Copy)
    requires AcceptedIsNotLost(s)
    requires copy.eventId in s.outbox && (copy.header.None? || copy.header.value == copy.eventId)
    ensures AcceptedIsNotLost(Accept(s, copy))
  {
    var t := Accept(s, copy);
    StillUnacknowledged(s, t, {});
    if HasQueue(s.outbox[copy.eventId].kind) {
      assert copy in t.queued && KeyOf(copy) == copy.eventId;
    }
  }

  /** Moving on within a relay transaction only has to keep that one transaction sound. */
  lemma RelayMovesOn(s: State, r: WorkerId, relay: Relay)
    requires Inv(s) && r in s.relays && relay.locked == s.relays[r].locked && RelayIsSound(s, relay)
    ensures Inv(WithRelay(s, r, relay))
  {
    ConsumingSideUntouched(s, WithRelay(s, r, relay));
  }

  lemma PublishKeepsInv(s: State, a: Action)
    requires Inv(s) && Enabled(s, a) && (a.Publish? || a.FailToPublish?)
    ensures Inv(Next(s, a))
  {
    var relay := s.relays[a.relay];
    var id := relay.todo[0];
    assert RelayIsSound(s, relay);
    AcceptKeepsInv(s, Copy(Some(id), id));
    var t := if a.Publish? || a.taken then Accept(s, Copy(Some(id), id)) else s;
    var published := if a.Publish? then Some(id) else relay.published;
    RelayMovesOn(t, a.relay, relay.(todo := relay.todo[1..], published := published));
  }

  /** A consumer's step leaves the publishing side alone; what it must answer for is that every copy it moves
      is genuine and that nothing unacknowledged drops out of sight. */
  lemma PublishingSideUntouched(s: State, t: State)
    requires Inv(s) && t.outbox == s.outbox && t.relays == s.relays && t.accepted == s.accepted
    requires forall copy :: copy in t.queued ==> Genuine(s, copy)
    requires forall c :: c in t.consumers ==> Genuine(s, t.consumers[c].copy)
    requires forall id :: Unacknowledged(s, id) || id in s.inbox || id in s.discarded
                          ==> Unacknowledged(t, id) || id in t.inbox || id in t.discarded
    ensures PublishingInv(t) && CopiesAreGenuine(t) && AcceptedIsNotLost(t)
  {
    forall copy | copy in t.queued ensures Genuine(t, copy) {
      assert Genuine(s, copy);
    }
    forall c | c in t.consumers ensures Genuine(t, t.consumers[c].copy) {
      assert Genuine(s, t.consumers[c].copy);
    }
  }

  /** A consumer takes its message to another phase. */
  lemma ConsumerMovesOn(s: State, c: WorkerId, phase: Phase)
    requires Inv(s) && c in s.consumers
    requires phase.Claimed? || phase.Worked? ==>
               KeyOf(s.consumers[c].copy) !in s.inbox
               && (HoldsClaim(s.consumers[c]) || !ClaimedBySomeone(s, KeyOf(s.consumers[c].copy)))
    requires phase.Duplicate? || phase.Committed? ==> KeyOf(s.consumers[c].copy) in s.inbox
    ensures Inv(WithConsumer(s, c, s.consumers[c].(phase := phase)))
  {
    var t := WithConsumer(s, c, s.consumers[c].(phase := phase));
    StillUnacknowledged(s, t, {});
    PublishingSideUntouched(s, t);
    ClaimsStayExclusive(s, c, phase);
    assert HandledOnce(t);
  }

  lemma ClaimsStayExclusive(s: State, c: WorkerId, phase: Phase)
    requires ClaimsAreExclusive(s) && c in s.consumers
    requires phase.Claimed? || phase.Worked? ==>
               KeyOf(s.consumers[c].copy) !in s.inbox
               && (HoldsClaim(s.consumers[c]) || !ClaimedBySomeone(s, KeyOf(s.consumers[c].copy)))
    requires phase.Duplicate? || phase.Committed? ==> KeyOf(s.consumers[c].copy) in s.inbox
    ensures ClaimsAreExclusive(WithConsumer(s, c, s.consumers[c].(phase := phase)))
  {
  }

  /** The one step at which a message becomes handled. */
  lemma ConsumerCommitKeepsInv(s: State, c: WorkerId)
    requires Inv(s) && Enabled(s, CommitConsumer(c)) && s.consumers[c].phase.Worked?
    ensures Inv(Next(s, CommitConsumer(c)))
  {
    var t := Next(s, CommitConsumer(c));
    SameCopiesUnacknowledged(s, t);
    PublishingSideUntouched(s, t);
    CommitIsHandledOnce(s, c);
    CommitReleasesTheClaim(s, c);
  }

  lemma SameCopiesUnacknowledged(s: State, t: State)
    requires t.queued == s.queued && t.consumers.Keys == s.consumers.Keys
    requires forall c :: c in s.consumers ==> t.consumers[c].copy == s.consumers[c].copy
    ensures forall id :: Unacknowledged(s, id) ==> Unacknowledged(t, id)
  {
    StillUnacknowledged(s, t, {});
  }

  lemma CommitIsHandledOnce(s: State, c: WorkerId)
    requires Inv(s) && Enabled(s, CommitConsumer(c)) && s.consumers[c].phase.Worked?
    ensures HandledOnce(Next(s, CommitConsumer(c)))
  {
    assert Genuine(s, s.consumers[c].copy);
    assert KeyOf(s.consumers[c].copy) !in s.inbox;
  }

  lemma CommitReleasesTheClaim(s: State, c: WorkerId)
    requires ClaimsAreExclusive(s) && Enabled(s, CommitConsumer(c)) && s.consumers[c].phase.Worked?
    ensures ClaimsAreExclusive(Next(s, CommitConsumer(c)))
  {
  }

  lemma DeliverKeepsInv(s: State, c: WorkerId, copy: Copy)
    requires Inv(s) && Enabled(s, Deliver(c, copy))
    ensures Inv(Next(s, Deliver(c, copy)))
  {
    var t := Next(s, Deliver(c, copy));
    DeliveredIsUnacknowledged(s, c, copy);
    PublishingSideUntouched(s, t);
    DeliveredHoldsNoClaim(s, c, copy);
  }

  lemma DeliveredHoldsNoClaim(s: State, c: WorkerId, copy: Copy)
    requires ClaimsAreExclusive(s) && Enabled(s, Deliver(c, copy))
    ensures ClaimsAreExclusive(Next(s, Deliver(c, copy)))
  {
  }

  lemma DeliveredIsUnacknowledged(s: State, c: WorkerId, copy: Copy)
    requires Enabled(s, Deliver(c, copy))
    ensures forall id :: Unacknowledged(s, id) ==> Unacknowledged(Next(s, Deliver(c, copy)), id)
  {
    var t := Next(s, Deliver(c, copy));
    assert t.consumers[c].copy == copy;
    forall id | Unacknowledged(s, id) ensures Unacknowledged(t, id) {
      if other :| other in s.queued && KeyOf(other) == id {
        if other == copy { assert c in t.consumers; } else { assert other in t.queued; }
      } else {
        var b :| b in s.consumers && KeyOf(s.consumers[b].copy) == id;
        assert b in t.consumers && t.consumers[b] == s.consumers[b];
      }
    }
  }

  lemma PutBackKeepsInv(s: State, c: WorkerId)
    requires Inv(s) && Enabled(s, PutBack(c))
    ensures Inv(Next(s, PutBack(c)))
  {
    var t := Next(s, PutBack(c));
    StillUnacknowledged(s, t, {});
    PublishingSideUntouched(s, t);
    assert ClaimsAreExclusive(t);
  }

  lemma LastStepKeepsInv(s: State, a: Action)
    requires Inv(s) && Enabled(s, a)
    requires a.Acknowledge? || a.Discard?
    ensures Inv(Next(s, a))
  {
    var t := Next(s, a);
    StillUnacknowledged(s, t, {KeyOf(s.consumers[a.consumer].copy)});
    PublishingSideUntouched(s, t);
    assert ClaimsAreExclusive(t);
  }

  lemma ConsumerPhaseKeepsInv(s: State, a: Action)
    requires Inv(s) && Enabled(s, a) && (a.Claim? || a.Work? || a.CommitConsumer?)
    ensures Inv(Next(s, a))
  {
    var c := a.consumer;
    match a
    case Claim(_) =>
      ConsumerMovesOn(s, c, if KeyOf(s.consumers[c].copy) in s.inbox then Phase.Duplicate else Phase.Claimed);
    case Work(_) => ConsumerMovesOn(s, c, Worked);
    case CommitConsumer(_) =>
      if s.consumers[c].phase.Worked? { ConsumerCommitKeepsInv(s, c); } else { ConsumerMovesOn(s, c, Committed); }
  }

  lemma MarkKeepsInv(s: State, r: WorkerId)
    requires Inv(s) && Enabled(s, MarkProcessed(r))
    ensures Inv(Next(s, MarkProcessed(r)))
  {
    assert RelayIsSound(s, s.relays[r]);
    RelayMovesOn(s, r, Next(s, MarkProcessed(r)).relays[r]);
  }

  lemma PublishByHandKeepsInv(s: State, id: MessageId)
    requires Inv(s) && Enabled(s, PublishByHand(id))
    ensures Inv(Next(s, PublishByHand(id)))
  {
    AcceptKeepsInv(s, Copy(None, id));
  }

  lemma StepKeepsInv(s: State, a: Action)
    requires Inv(s) && Enabled(s, a)
    ensures Inv(Next(s, a))
  {
    hide *;
    match a
    case CommitCommand(events) => CommandKeepsInv(s, events);
    case ReadPending(r, batch) => ReadKeepsInv(s, r, batch);
    case Publish(_) => PublishKeepsInv(s, a);
    case FailToPublish(_, _) => PublishKeepsInv(s, a);
    case MarkProcessed(r) => MarkKeepsInv(s, r);
    case CommitRelay(r) => RelayCommitKeepsInv(s, r);
    case AbandonRelay(r) => AbandonKeepsInv(s, r);
    case Deliver(c, copy) => DeliverKeepsInv(s, c, copy);
    case Claim(_) => ConsumerPhaseKeepsInv(s, a);
    case Work(_) => ConsumerPhaseKeepsInv(s, a);
    case CommitConsumer(_) => ConsumerPhaseKeepsInv(s, a);
    case Acknowledge(_) => LastStepKeepsInv(s, a);
    case PutBack(c) => PutBackKeepsInv(s, c);
    case Discard(_) => LastStepKeepsInv(s, a);
    case PublishByHand(id) => PublishByHandKeepsInv(s, id);
  }

  lemma {:induction false} RunKeepsInv(s: State, run: seq<Action>)
    requires Inv(s) && Possible(s, run)
    ensures Inv(After(s, run))
    decreases |run|
  {
    if run != [] {
      StepKeepsInv(s, run[0]);
      RunKeepsInv(Next(s, run[0]), run[1..]);
    }
  }

  // ---- Every run ----------------------------------------------------------------------------

  predicate IsConsumedRow(s: State, id: MessageId) {
    id in s.outbox && HasQueue(s.outbox[id].kind)
  }

  /** The events that the commands of a run commit. */
  function CommittedDuring(run: seq<Action>): map<MessageId, Kind>
    decreases |run|
  {
    if run == [] then map[]
    else (if run[0].CommitCommand? then run[0].events else map[]) + CommittedDuring(run[1..])
  }

  /** Committing is never refused for fresh identifiers; it adds one unprocessed row for each event, and no
      other row changes. */
  lemma CommitWritesEveryEvent(s: State, events: map<MessageId, Kind>)
    requires events.Keys !! s.outbox.Keys
    ensures Enabled(s, CommitCommand(events))
    ensures var t := Next(s, CommitCommand(events));
            && (forall id :: id in events ==> id in t.outbox && t.outbox[id] == OutboxRow(events[id], false))
            && (forall id :: id in s.outbox ==> id in t.outbox && t.outbox[id] == s.outbox[id])
            && (forall id :: id in t.outbox ==> id in events || id in s.outbox)
            && t == s.(outbox := t.outbox)
  {
  }

  lemma MarkingOnlyMarks(s: State, r: WorkerId)
    requires Enabled(s, CommitRelay(r))
    ensures Next(s, CommitRelay(r)).outbox.Keys == s.outbox.Keys
    ensures var t := Next(s, CommitRelay(r));
            forall id :: id in s.outbox ==>
                           && t.outbox[id].kind == s.outbox[id].kind
                           && (t.outbox[id].processed <==> s.outbox[id].processed || id in s.relays[r].marked)
  {
  }

  predicate IsOfAConsumer(a: Action) {
    a.Deliver? || a.Claim? || a.Work? || a.CommitConsumer? || a.Acknowledge? || a.PutBack? || a.Discard?
  }

  lemma ConsumersLeaveTheOutbox(s: State, a: Action)
    requires Enabled(s, a) && IsOfAConsumer(a)
    ensures Next(s, a).outbox == s.outbox
  {
    hide KeyOf, HasQueue, HoldsClaim, ClaimedBySomeone, LockedBySomeone;
  }

  lemma RelaysLeaveTheOutbox(s: State, a: Action)
    requires Enabled(s, a) && !IsOfAConsumer(a) && !a.CommitCommand? && !a.CommitRelay?
    ensures Next(s, a).outbox == s.outbox
  {
    hide KeyOf, HasQueue, HoldsClaim, ClaimedBySomeone, LockedBySomeone;
  }

  /** Of all steps only a command adds rows, and only the commit of a relay marks them, those it published. */
  lemma OtherStepsLeaveTheOutbox(s: State, a: Action)
    requires Enabled(s, a) && !a.CommitCommand?
    ensures Next(s, a).outbox.Keys == s.outbox.Keys
    ensures forall id :: id in s.outbox ==> Next(s, a).outbox[id].kind == s.outbox[id].kind
    ensures !a.CommitRelay? ==> Next(s, a).outbox == s.outbox
  {
    hide Next, Enabled;
    if a.CommitRelay? {
      MarkingOnlyMarks(s, a.relay);
    } else if IsOfAConsumer(a) {
      ConsumersLeaveTheOutbox(s, a);
    } else {
      RelaysLeaveTheOutbox(s, a);
    }
  }

  lemma {:induction false} CommittedIsWritten(s: State, run: seq<Action>)
    requires Possible(s, run)
    ensures var t := After(s, run);
            && (forall id :: id in t.outbox <==> id in s.outbox || id in CommittedDuring(run))
            && (forall id :: id in s.outbox ==> id !in CommittedDuring(run) && t.outbox[id].kind == s.outbox[id].kind)
            && (forall id :: id in CommittedDuring(run) ==> t.outbox[id].kind == CommittedDuring(run)[id])
    decreases |run|
  {
    hide Enabled, Next;
    if run != [] {
      var next := Next(s, run[0]);
      if run[0].CommitCommand? {
        CommitIsFresh(s, run[0].events);
        CommitWritesEveryEvent(s, run[0].events);
      } else {
        OtherStepsLeaveTheOutbox(s, run[0]);
      }
      CommittedIsWritten(next, run[1..]);
    }
  }

  lemma CommitIsFresh(s: State, events: map<MessageId, Kind>)
    requires Enabled(s, CommitCommand(events))
    ensures events.Keys !! s.outbox.Keys
  {
  }

  /** In every run, each event a command has committed is a row of its kind, and one of the three consumed
      kinds is still pending, or on its way, or handled, or was discarded as unreadable. */
  lemma NoEventIsLost(run: seq<Action>)
    requires Possible(INITIAL, run)
    ensures var (s, committed) := (After(INITIAL, run), CommittedDuring(run));
            && s.outbox.Keys == committed.Keys
            && (forall id :: id in committed ==> s.outbox[id].kind == committed[id])
            && (forall id :: (id in committed
                              && (committed[id] == OrderPlacedKind || committed[id] == OrderStatusChangedKind
                                  || committed[id] == OrderDeliveryAddressChangedKind)) ==>
                               !s.outbox[id].processed || Unacknowledged(s, id) || id in s.inbox || id in s.discarded)
  {
    RunKeepsInv(INITIAL, run);
    CommittedIsWritten(INITIAL, run);
    var s := After(INITIAL, run);
    forall id | id in s.outbox && s.outbox[id].kind != OtherKind
      ensures !s.outbox[id].processed || Unacknowledged(s, id) || id in s.inbox || id in s.discarded
    {
      assert IsConsumedRow(s, id);
    }
  }

  /** What travels and what is handled is of the three consumed kinds, under the row's own identity. */
  lemma OnlyConsumedKindsTravel(run: seq<Action>)
    requires Possible(INITIAL, run)
    ensures var (s, committed) := (After(INITIAL, run), CommittedDuring(run));
            && (forall copy :: copy in s.queued ==>
                                 && copy.eventId in committed && committed[copy.eventId] != OtherKind
                                 && (copy.header.None? || copy.header == Some(copy.eventId)))
            && (forall id :: id in s.inbox ==> id in committed && committed[id] != OtherKind)
  {
    RunKeepsInv(INITIAL, run);
    CommittedIsWritten(INITIAL, run);
    hide Unacknowledged, AcceptedIsNotLost, ClaimsAreExclusive, PublishingInv;
  }

  predicate CommitsWork(s: State, a: Action, id: MessageId)
    requires Enabled(s, a)
  {
    a.CommitConsumer? && s.consumers[a.consumer].phase.Worked? && KeyOf(s.consumers[a.consumer].copy) == id
  }

  /** The consumer transactions of a run that commit having done the work for a message. */
  function Handlings(s: State, run: seq<Action>, id: MessageId): nat
    requires Possible(s, run)
    decreases |run|
  {
    if run == [] then 0
    else (if CommitsWork(s, run[0], id) then 1 else 0) + Handlings(Next(s, run[0]), run[1..], id)
  }

  function Publication(s: State, a: Action): set<MessageId>
    requires Enabled(s, a)
  {
    match a
    case Publish(r) => {s.relays[r].todo[0]}
    case FailToPublish(r, taken) => if taken then {s.relays[r].todo[0]} else {}
    case PublishByHand(id) => {id}
    case _ => {}
  }

  /** The messages the broker accepts during a run. */
  function Publications(s: State, run: seq<Action>): set<MessageId>
    requires Possible(s, run)
    decreases |run|
  {
    if run == [] then {} else Publication(s, run[0]) + Publications(Next(s, run[0]), run[1..])
  }

  lemma HandlingIsRecorded(s: State, a: Action, id: MessageId)
    requires Enabled(s, a)
    ensures Next(s, a).handled[id] == s.handled[id] + if CommitsWork(s, a, id) then 1 else 0
  {
    hide KeyOf, HasQueue;
  }

  lemma PublicationIsRecorded(s: State, a: Action)
    requires Enabled(s, a)
    ensures Next(s, a).accepted == s.accepted + Publication(s, a)
  {
    hide KeyOf, HasQueue;
  }

  lemma {:induction false} HistoryIsRecorded(s: State, run: seq<Action>, id: MessageId)
    requires Possible(s, run)
    ensures After(s, run).handled[id] == s.handled[id] + Handlings(s, run, id)
    ensures After(s, run).accepted == s.accepted + Publications(s, run)
    decreases |run|
  {
    hide Next;
    if run != [] {
      HandlingIsRecorded(s, run[0], id);
      PublicationIsRecorded(s, run[0]);
      HistoryIsRecorded(Next(s, run[0]), run[1..], id);
    }
  }

  /** In every run, under any redelivery, the work for a message is committed at most once, and exactly once
      when its key is in the inbox; only committed rows are published or handled, and a row marked processed
      was accepted by the broker. */
  lemma HandledEffectivelyOnce(run: seq<Action>, id: MessageId)
    requires Possible(INITIAL, run)
    ensures var s := After(INITIAL, run);
            && Handlings(INITIAL, run, id) == (if id in s.inbox then 1 else 0)
            && (id in Publications(INITIAL, run) ==> id in s.outbox)
            && (id in s.inbox ==> id in Publications(INITIAL, run))
            && (id in s.outbox && s.outbox[id].processed ==> id in Publications(INITIAL, run))
  {
    RunKeepsInv(INITIAL, run);
    HistoryIsRecorded(INITIAL, run, id);
  }

  ghost predicate Extends(s: State, t: State) {
    && s.inbox <= t.inbox
    && forall id :: id in s.outbox ==>
                      id in t.outbox && t.outbox[id].kind == s.outbox[id].kind
                      && (s.outbox[id].processed ==> t.outbox[id].processed)
  }

  lemma StepExtends(s: State, a: Action)
    requires Enabled(s, a)
    ensures Extends(s, Next(s, a))
  {
  }

  /** What happened stays happened: rows are never removed or unmarked, and the inbox only grows. */
  lemma {:induction false} NothingIsUndone(s: State, run: seq<Action>)
    requires Possible(s, run)
    ensures Extends(s, After(s, run))
    decreases |run|
  {
    if run != [] {
      StepExtends(s, run[0]);
      NothingIsUndone(Next(s, run[0]), run[1..]);
    }
  }

  // ---- A message is never stuck ----------------------------------------------------------------

  lemma FreshWorker(taken: set<WorkerId>) returns (unused: WorkerId)
    ensures unused !in taken
    ensures forall w :: w in taken ==> w < unused
  {
    if taken == {} {
      unused := 0;
    } else {
      var w :| w in taken;
      unused := FreshWorker(taken - {w});
      assert forall v :: v in taken ==> v == w || v in taken - {w};
      unused := if w < unused then unused else w + 1;
    }
  }

  /** Nobody has to publish anything by hand. */
  predicate Unaided(run: seq<Action>) {
    forall a :: a in run ==> !a.PublishByHand?
  }

  /** The relays and consumers can bring the message to the inbox by themselves. */
  ghost predicate CanBeHandled(s: State, id: MessageId) {
    exists run :: Possible(s, run) && Unaided(run) && id in After(s, run).inbox
  }

  lemma HandledFirst(s: State, a: Action, id: MessageId)
    requires Enabled(s, a) && !a.PublishByHand? && CanBeHandled(Next(s, a), id)
    ensures CanBeHandled(s, id)
  {
    var run :| Possible(Next(s, a), run) && Unaided(run) && id in After(Next(s, a), run).inbox;
    assert ([a] + run)[1..] == run;
    assert Possible(s, [a] + run) && Unaided([a] + run) && id in After(s, [a] + run).inbox;
  }

  lemma AlreadyHandled(s: State, id: MessageId)
    requires id in s.inbox
    ensures CanBeHandled(s, id)
  {
    assert Possible(s, []) && Unaided([]) && id in After(s, []).inbox;
  }

  /** One more phase of a handling that is under way. */
  lemma PhaseCanBeHandled(s: State, a: Action, c: WorkerId)
    requires Enabled(s, a) && !a.PublishByHand? && c in s.consumers && c in Next(s, a).consumers
    requires Next(s, a).consumers[c].copy == s.consumers[c].copy
    requires CanBeHandled(Next(s, a), KeyOf(s.consumers[c].copy))
    ensures CanBeHandled(s, KeyOf(s.consumers[c].copy))
  {
    hide Enabled, Next;
    HandledFirst(s, a, KeyOf(s.consumers[c].copy));
  }

  lemma WorkedCanBeHandled(s: State, c: WorkerId)
    requires c in s.consumers && s.consumers[c].phase.Worked?
    ensures CanBeHandled(s, KeyOf(s.consumers[c].copy))
  {
    AlreadyHandled(Next(s, CommitConsumer(c)), KeyOf(s.consumers[c].copy));
    PhaseCanBeHandled(s, CommitConsumer(c), c);
  }

  lemma ClaimedCanBeHandled(s: State, c: WorkerId)
    requires c in s.consumers && s.consumers[c].phase.Claimed?
    ensures CanBeHandled(s, KeyOf(s.consumers[c].copy))
  {
    WorkedCanBeHandled(Next(s, Work(c)), c);
    PhaseCanBeHandled(s, Work(c), c);
  }

  lemma ReceivedCanBeHandled(s: State, c: WorkerId)
    requires c in s.consumers && s.consumers[c].phase.Received?
    requires !ClaimedBySomeone(s, KeyOf(s.consumers[c].copy))
    ensures CanBeHandled(s, KeyOf(s.consumers[c].copy))
  {
    var id := KeyOf(s.consumers[c].copy);
    if id in s.inbox {
      AlreadyHandled(s, id);
    } else {
      ClaimedCanBeHandled(Next(s, Claim(c)), c);
      PhaseCanBeHandled(s, Claim(c), c);
    }
  }

  lemma HeldCanBeHandled(s: State, c: WorkerId)
    requires Inv(s) && c in s.consumers
    ensures CanBeHandled(s, KeyOf(s.consumers[c].copy))
  {
    hide CanBeHandled;
    var id := KeyOf(s.consumers[c].copy);
    assert ClaimsAreExclusive(s);
    if ClaimedBySomeone(s, id) {
      var b :| b in s.consumers && HoldsClaim(s.consumers[b]) && KeyOf(s.consumers[b].copy) == id;
      if s.consumers[b].phase.Claimed? { ClaimedCanBeHandled(s, b); } else { WorkedCanBeHandled(s, b); }
    } else if s.consumers[c].phase.Received? {
      ReceivedCanBeHandled(s, c);
    } else {
      AlreadyHandled(s, id);
    }
  }

  lemma QueuedCanBeHandled(s: State, copy: Copy)
    requires Inv(s) && copy in s.queued
    ensures CanBeHandled(s, KeyOf(copy))
  {
    var c := FreshWorker(s.consumers.Keys);
    StepKeepsInv(s, Deliver(c, copy));
    HeldCanBeHandled(Next(s, Deliver(c, copy)), c);
    HandledFirst(s, Deliver(c, copy), KeyOf(copy));
  }

  lemma NoOtherLock(s: State, q: WorkerId, id: MessageId)
    requires Inv(s) && q in s.relays && id in s.relays[q].locked
    ensures !LockedBySomeone(Next(s, AbandonRelay(q)), id)
  {
    var freed := Next(s, AbandonRelay(q));
    forall r | r in freed.relays ensures id !in freed.relays[r].locked {
      assert s.relays[r].locked !! s.relays[q].locked;
    }
  }

  lemma PendingCanBeHandled(s: State, id: MessageId)
    requires Inv(s) && IsConsumedRow(s, id) && !s.outbox[id].processed
    ensures CanBeHandled(s, id)
    decreases if LockedBySomeone(s, id) then 1 else 0
  {
    if LockedBySomeone(s, id) {
      var q :| q in s.relays && id in s.relays[q].locked;
      var freed := Next(s, AbandonRelay(q));
      StepKeepsInv(s, AbandonRelay(q));
      NoOtherLock(s, q, id);
      PendingCanBeHandled(freed, id);
      HandledFirst(s, AbandonRelay(q), id);
    } else {
      var r := FreshWorker(s.relays.Keys);
      var locked := Next(s, ReadPending(r, [id]));
      StepKeepsInv(s, ReadPending(r, [id]));
      var published := Next(locked, Publish(r));
      StepKeepsInv(locked, Publish(r));
      assert Copy(Some(id), id) in published.queued;
      QueuedCanBeHandled(published, Copy(Some(id), id));
      HandledFirst(locked, Publish(r), id);
      HandledFirst(s, ReadPending(r, [id]), id);
    }
  }

  /** Published, marked, in no queue, with no consumer and not in the inbox. */
  ghost predicate IsLost(s: State, id: MessageId) {
    IsConsumedRow(s, id) && s.outbox[id].processed && !Unacknowledged(s, id) && id !in s.inbox
  }

  /** No relay reads a marked row again, so nothing but a hand brings a lost message back. */
  lemma LostStaysLost(s: State, a: Action, id: MessageId)
    requires Inv(s) && Enabled(s, a) && !a.PublishByHand? && IsLost(s, id)
    ensures IsLost(Next(s, a), id)
  {
    StepExtends(s, a);
    if a.Publish? || a.FailToPublish? {
      MarkedIsNotPublished(s, a, id);
    } else {
      NoNewCopies(s, a, id);
    }
    hide Inv, Next, Enabled, Unacknowledged;
  }

  lemma MarkedIsNotPublished(s: State, a: Action, id: MessageId)
    requires PublishingInv(s) && Enabled(s, a) && (a.Publish? || a.FailToPublish?)
    requires id in s.outbox && s.outbox[id].processed && !Unacknowledged(s, id)
    ensures !Unacknowledged(Next(s, a), id) && Next(s, a).inbox == s.inbox
  {
    assert RelayIsSound(s, s.relays[a.relay]);
  }

  lemma NoNewCopies(s: State, a: Action, id: MessageId)
    requires Enabled(s, a) && !a.PublishByHand? && !a.Publish? && !a.FailToPublish? && !Unacknowledged(s, id)
    ensures !Unacknowledged(Next(s, a), id)
    ensures id in Next(s, a).inbox ==> id in s.inbox
  {
    NoneIsQueued(s, a, id);
    NoneIsHeld(s, a, id);
    hide Next, Enabled;
  }

  lemma NoneIsQueued(s: State, a: Action, id: MessageId)
    requires Enabled(s, a) && !a.PublishByHand? && !a.Publish? && !a.FailToPublish? && !Unacknowledged(s, id)
    ensures forall copy :: copy in Next(s, a).queued ==> KeyOf(copy) != id
  {
    hide HasQueue;
    var t := Next(s, a);
    forall copy | copy in t.queued ensures KeyOf(copy) != id {
      assert copy in s.queued || (a.PutBack? && copy == s.consumers[a.consumer].copy);
    }
  }

  /** A step of a consumer touches that one handling, which keeps its copy. */
  lemma OneHandling(s: State, a: Action)
    requires Enabled(s, a) && IsOfAConsumer(a)
    ensures Next(s, a).consumers - {a.consumer} == s.consumers - {a.consumer}
  {
    hide HasQueue, KeyOf, HoldsClaim, ClaimedBySomeone, LockedBySomeone;
  }

  lemma HandlingKeepsItsCopy(s: State, a: Action)
    requires Enabled(s, a) && IsOfAConsumer(a)
    ensures var (t, c) := (Next(s, a), a.consumer);
            c in t.consumers ==> t.consumers[c].copy == if a.Deliver? then a.copy else s.consumers[c].copy
  {
    hide HasQueue, KeyOf, HoldsClaim, ClaimedBySomeone, LockedBySomeone;
  }

  lemma OneKeyForTheInbox(s: State, a: Action)
    requires Enabled(s, a)
    ensures !a.CommitConsumer? ==> Next(s, a).inbox == s.inbox
    ensures a.CommitConsumer? ==> Next(s, a).inbox <= s.inbox + {KeyOf(s.consumers[a.consumer].copy)}
  {
    hide HasQueue, KeyOf, HoldsClaim, ClaimedBySomeone;
  }

  lemma NoneIsHeld(s: State, a: Action, id: MessageId)
    requires Enabled(s, a) && !a.PublishByHand? && !a.Publish? && !a.FailToPublish? && !Unacknowledged(s, id)
    ensures forall c :: c in Next(s, a).consumers ==> KeyOf(Next(s, a).consumers[c].copy) != id
    ensures id in Next(s, a).inbox ==> id in s.inbox
  {
    var t := Next(s, a);
    if IsOfAConsumer(a) {
      OneHandling(s, a);
      HandlingKeepsItsCopy(s, a);
      OneKeyForTheInbox(s, a);
      assert a.Deliver? ==> a.copy in s.queued;
      assert !a.Deliver? ==> a.consumer in s.consumers;
      hide Next, Enabled;
      forall c | c in t.consumers && c != a.consumer ensures KeyOf(t.consumers[c].copy) != id {
        assert c in t.consumers - {a.consumer};
      }
    } else {
      assert t.consumers == s.consumers && t.inbox == s.inbox;
    }
  }

  lemma {:induction false} LostForGood(s: State, run: seq<Action>, id: MessageId)
    requires Inv(s) && Possible(s, run) && Unaided(run) && IsLost(s, id)
    ensures IsLost(After(s, run), id)
    decreases |run|
  {
    hide Inv, IsLost, Next, Enabled;
    if run != [] {
      assert run[0] in run;
      StepKeepsInv(s, run[0]);
      LostStaysLost(s, run[0], id);
      LostForGood(Next(s, run[0]), run[1..], id);
    }
  }

  /** From any reachable state, the relays and consumers can still bring a committed row of a consumed kind to
      the inbox by themselves exactly when it is not lost: no lock, claim or abandoned transaction leaves it
      stuck, and a lost one stays lost whatever they do. */
  lemma NeverStuck(run: seq<Action>, id: MessageId)
    requires Possible(INITIAL, run) && IsConsumedRow(After(INITIAL, run), id)
    ensures CanBeHandled(After(INITIAL, run), id) <==> !IsLost(After(INITIAL, run), id)
  {
    var s := After(INITIAL, run);
    RunKeepsInv(INITIAL, run);
    if IsLost(s, id) {
      forall more | Possible(s, more) && Unaided(more) ensures id !in After(s, more).inbox {
        LostForGood(s, more, id);
      }
    } else {
      NotLostCanBeHandled(s, id);
    }
  }

  lemma NotLostCanBeHandled(s: State, id: MessageId)
    requires Inv(s) && IsConsumedRow(s, id) && !IsLost(s, id)
    ensures CanBeHandled(s, id)
  {
    hide CanBeHandled, Inv;
    if !s.outbox[id].processed {
      PendingCanBeHandled(s, id);
    } else if id in s.inbox {
      AlreadyHandled(s, id);
    } else if copy :| copy in s.queued && KeyOf(copy) == id {
      QueuedCanBeHandled(s, copy);
    } else {
      var c :| c in s.consumers && KeyOf(s.consumers[c].copy) == id;
      HeldCanBeHandled(s, c);
    }
  }

  /** A lost message can always be published by hand, and is then handled by itself. */
  lemma AHandBringsItBack(run: seq<Action>, id: MessageId)
    requires Possible(INITIAL, run) && IsLost(After(INITIAL, run), id)
    ensures var s := After(INITIAL, run);
            Enabled(s, PublishByHand(id)) && CanBeHandled(Next(s, PublishByHand(id)), id)
  {
    hide CanBeHandled, Inv;
    var s := After(INITIAL, run);
    RunKeepsInv(INITIAL, run);
    StepKeepsInv(s, PublishByHand(id));
    QueuedCanBeHandled(Next(s, PublishByHand(id)), Copy(None, id));
  }

  // ---- The one way to lose an event --------------------------------------------------------------

  ghost predicate CanBeLost(s: State, id: MessageId) {
    exists run :: Possible(s, run) && IsLost(After(s, run), id)
  }

  lemma LostFirst(s: State, a: Action, id: MessageId)
    requires Enabled(s, a) && CanBeLost(Next(s, a), id)
    ensures CanBeLost(s, id)
  {
    var run :| Possible(Next(s, a), run) && IsLost(After(Next(s, a), run), id);
    assert ([a] + run)[1..] == run;
    assert Possible(s, [a] + run);
  }

  lemma UnhandledCanBeDiscarded(s: State, c: WorkerId)
    requires Inv(s) && c in s.consumers && KeyOf(s.consumers[c].copy) !in s.inbox
    ensures Enabled(s, Discard(c))
    ensures var t := Next(s, Discard(c));
            && Inv(t) && t.outbox == s.outbox && t.inbox == s.inbox && t.queued == s.queued
            && t.consumers == s.consumers - {c} && |t.consumers| < |s.consumers|
  {
    assert ClaimsAreExclusive(s);
    StepKeepsInv(s, Discard(c));
    assert (s.consumers - {c}).Keys == s.consumers.Keys - {c};
  }

  lemma QueuedCanBeDiscarded(s: State, copy: Copy) returns (c: WorkerId)
    requires Inv(s) && copy in s.queued && KeyOf(copy) !in s.inbox
    ensures Enabled(s, Deliver(c, copy))
    ensures var held := Next(s, Deliver(c, copy));
            && Enabled(held, Discard(c))
            && var t := Next(held, Discard(c));
               Inv(t) && t.outbox == s.outbox && t.inbox == s.inbox && |t.queued| < |s.queued|
  {
    hide Inv;
    c := FreshWorker(s.consumers.Keys);
    StepKeepsInv(s, Deliver(c, copy));
    UnhandledCanBeDiscarded(Next(s, Deliver(c, copy)), c);
  }

  /** Every copy of a marked row can meet a `ValueError`. */
  lemma MarkedCanBeLost(s: State, id: MessageId)
    requires Inv(s) && IsConsumedRow(s, id) && s.outbox[id].processed && id !in s.inbox
    ensures CanBeLost(s, id)
    decreases |s.queued|, |s.consumers|
  {
    hide Inv, Next, Enabled, CanBeLost, Possible;
    if c :| c in s.consumers && KeyOf(s.consumers[c].copy) == id {
      UnhandledCanBeDiscarded(s, c);
      MarkedCanBeLost(Next(s, Discard(c)), id);
      LostFirst(s, Discard(c), id);
    } else if copy :| copy in s.queued && KeyOf(copy) == id {
      var c := QueuedCanBeDiscarded(s, copy);
      var held := Next(s, Deliver(c, copy));
      MarkedCanBeLost(Next(held, Discard(c)), id);
      LostFirst(held, Discard(c), id);
      LostFirst(s, Deliver(c, copy), id);
    } else {
      AlreadyLost(s, id);
    }
  }

  lemma AlreadyLost(s: State, id: MessageId)
    requires IsLost(s, id)
    ensures CanBeLost(s, id)
  {
    assert Possible(s, []) && IsLost(After(s, []), id);
  }

  lemma FreeCanBeLost(s: State, id: MessageId)
    requires Inv(s) && IsConsumedRow(s, id) && !s.outbox[id].processed && id !in s.inbox
    requires !LockedBySomeone(s, id)
    ensures CanBeLost(s, id)
  {
    hide Inv, IsLost, CanBeLost;
    var r := FreshWorker(s.relays.Keys);
    var locked := Next(s, ReadPending(r, [id]));
    var published := Next(locked, Publish(r));
    var marked := Next(published, MarkProcessed(r));
    StepKeepsInv(s, ReadPending(r, [id]));
    StepKeepsInv(locked, Publish(r));
    StepKeepsInv(published, MarkProcessed(r));
    StepKeepsInv(marked, CommitRelay(r));
    MarkedCanBeLost(Next(marked, CommitRelay(r)), id);
    LostFirst(marked, CommitRelay(r), id);
    LostFirst(published, MarkProcessed(r), id);
    LostFirst(locked, Publish(r), id);
    LostFirst(s, ReadPending(r, [id]), id);
  }

  lemma UnhandledCanBeLost(s: State, id: MessageId)
    requires Inv(s) && IsConsumedRow(s, id) && id !in s.inbox
    ensures CanBeLost(s, id)
  {
    hide CanBeLost;
    if s.outbox[id].processed {
      MarkedCanBeLost(s, id);
    } else if q :| q in s.relays && id in s.relays[q].locked {
      StepKeepsInv(s, AbandonRelay(q));
      NoOtherLock(s, q, id);
      FreeCanBeLost(Next(s, AbandonRelay(q)), id);
      LostFirst(s, AbandonRelay(q), id);
    } else {
      FreeCanBeLost(s, id);
    }
  }

  /** Some step of the run acknowledges a message of this key because its handling raised a `ValueError`. */
  predicate DiscardedDuring(s: State, run: seq<Action>, id: MessageId)
    requires Possible(s, run)
    decreases |run|
  {
    run != [] &&
    ((run[0].Discard? && KeyOf(s.consumers[run[0].consumer].copy) == id)
     || DiscardedDuring(Next(s, run[0]), run[1..], id))
  }

  lemma {:induction false} DiscardsAreRecorded(s: State, run: seq<Action>, id: MessageId)
    requires Possible(s, run)
    ensures id in After(s, run).discarded <==> id in s.discarded || DiscardedDuring(s, run, id)
    decreases |run|
  {
    if run != [] {
      DiscardsAreRecorded(Next(s, run[0]), run[1..], id);
    }
  }

  /** A committed event can still be lost exactly as long as it is not in the inbox, and every run that loses
      it has acknowledged it after a `ValueError`: the middleware does that wherever in the handling the
      error is raised, and nothing else loses an event. */
  lemma OnlyADiscardLosesAnEvent(run: seq<Action>, id: MessageId)
    requires Possible(INITIAL, run) && IsConsumedRow(After(INITIAL, run), id)
    ensures CanBeLost(After(INITIAL, run), id) <==> id !in After(INITIAL, run).inbox
    ensures IsLost(After(INITIAL, run), id) ==> DiscardedDuring(INITIAL, run, id)
  {
    var s := After(INITIAL, run);
    RunKeepsInv(INITIAL, run);
    DiscardsAreRecorded(INITIAL, run, id);
    if id !in s.inbox {
      UnhandledCanBeLost(s, id);
    } else {
      forall more | Possible(s, more) ensures !IsLost(After(s, more), id) {
        NothingIsUndone(s, more);
      }
    }
  }
}
