/** One tick of the relay: publish a batch of pending rows, mark those the transport accepted. */
module Relaying {
  import opened Outcome
  import opened Delivery

  datatype Record = Record(createdAt: int, processed: bool)

  type Rows = map<MessageId, Record>

  /** How one publish ends; the last is a failure reported for a message the broker has in fact taken. */
  datatype Transport = Accepted | Refused | TakenButFailed

  predicate IsPending(rows: Rows, id: MessageId) {
    id in rows && !rows[id].processed
  }

  /** What a read of pending rows may return: the oldest rows nobody else holds, up to the limit; rows of
      one age in any order. */
  ghost predicate IsBatch(rows: Rows, held: set<MessageId>, limit: nat, batch: seq<MessageId>) {
    && |batch| <= limit
    && (forall i, j :: 0 <= i < j < |batch| ==> batch[i] != batch[j])
    && (forall i :: 0 <= i < |batch| ==> IsPending(rows, batch[i]) && batch[i] !in held)
    && (forall i, j :: 0 <= i < j < |batch| ==> rows[batch[i]].createdAt <= rows[batch[j]].createdAt)
    && (forall id :: IsPending(rows, id) && id !in held && id !in batch ==>
                       |batch| == limit && forall i :: 0 <= i < |batch| ==>
                           rows[batch[i]].createdAt <= rows[id].createdAt)
  }

  function Marked(rows: Rows, ids: set<MessageId>): Rows {
    map id | id in rows :: if id in ids then rows[id].(processed := true) else rows[id]
  }

  /** The messages of a batch whose publish ended one of the given ways, in order. */
  function Select(batch: seq<MessageId>, transport: MessageId -> Transport, ends: set<Transport>): seq<MessageId> {
    if batch == [] then []
    else
      Select(batch[..|batch| - 1], transport, ends)
      + (if transport(batch[|batch| - 1]) in ends then [batch[|batch| - 1]] else [])
  }

  lemma {:induction false} SelectContains(batch: seq<MessageId>, transport: MessageId -> Transport,
                                          ends: set<Transport>)
    ensures forall id :: id in Select(batch, transport, ends) <==> id in batch && transport(id) in ends
  {
    if batch != [] {
      SelectContains(batch[..|batch| - 1], transport, ends);
      assert batch == batch[..|batch| - 1] + [batch[|batch| - 1]];
    }
  }

  /** The order of the batch is kept. */
  lemma {:induction false} SelectKeepsOrder(id: MessageId, rest: seq<MessageId>, transport: MessageId -> Transport,
                                            ends: set<Transport>)
    ensures Select([id] + rest, transport, ends)
         == (if transport(id) in ends then [id] else []) + Select(rest, transport, ends)
    decreases |rest|
  {
    var batch := [id] + rest;
    if rest == [] {
      assert batch[..0] == [] && batch[0] == id;
    } else {
      SelectKeepsOrder(id, rest[..|rest| - 1], transport, ends);
      assert batch[..|batch| - 1] == [id] + rest[..|rest| - 1];
    }
  }

  ghost function Ending(batch: seq<MessageId>, transport: MessageId -> Transport,
                        ends: set<Transport>): set<MessageId> {
    set id | id in batch && transport(id) in ends
  }

  lemma OneMoreMessage(rows: Rows, batch: seq<MessageId>, i: nat, transport: MessageId -> Transport)
    requires i < |batch| && batch[i] in rows
    ensures batch[..i + 1][..i] == batch[..i]
    ensures var (before, id) := (Marked(rows, Ending(batch[..i], transport, {Accepted})), batch[i]);
            var after := if transport(id) == Accepted then before[id := before[id].(processed := true)] else before;
            Marked(rows, Ending(batch[..i + 1], transport, {Accepted})) == after
  {
    assert batch[..i + 1] == batch[..i] + [batch[i]];
  }

  class OutboxTable {
    var rows: Rows

    constructor (stored: Rows)
      ensures rows == stored
    {
      rows := stored;
    }

    method MarkProcessed(id: MessageId)
      requires id in rows
      modifies this
      ensures rows == old(rows)[id := old(rows)[id].(processed := true)]
    {
      rows := rows[id := rows[id].(processed := true)];
    }
  }

  class Publisher {
    var taken: seq<MessageId>

    constructor ()
      ensures taken == []
    {
      taken := [];
    }

    /** Any failure of the transport comes back as one error, whether or not the broker took the message. */
    method Publish(id: MessageId, transport: Transport) returns (r: Result<()>)
      modifies this
      ensures r.Ok? <==> transport.Accepted?
      ensures taken == old(taken) + if transport.Refused? then [] else [id]
    {
      if !transport.Refused? {
        taken := taken + [id];
      }
      r := if transport.Accepted? then Ok(()) else Err(RepoFailure);
    }
  }

  /** Publishes every message of the batch, skipping over the ones that fail, and marks exactly the ones
      whose publish returned. */
  method RelayOutbox(table: OutboxTable, publisher: Publisher, batch: seq<MessageId>, transport: MessageId -> Transport)
    returns (published: nat, total: nat)
    requires forall id :: id in batch ==> id in table.rows
    modifies table, publisher
    ensures table.rows == Marked(old(table.rows), Ending(batch, transport, {Accepted}))
    ensures publisher.taken == old(publisher.taken) + Select(batch, transport, {Accepted, TakenButFailed})
    ensures published == |Select(batch, transport, {Accepted})| && total == |batch|
  {
    published, total := 0, |batch|;
    var i := 0;
    assert batch[..0] == [];
    while i < |batch|
      invariant 0 <= i <= |batch|
      invariant table.rows == Marked(old(table.rows), Ending(batch[..i], transport, {Accepted}))
      invariant publisher.taken == old(publisher.taken) + Select(batch[..i], transport, {Accepted, TakenButFailed})
      invariant published == |Select(batch[..i], transport, {Accepted})|
    {
      var id := batch[i];
      OneMoreMessage(old(table.rows), batch, i, transport);
      var r := publisher.Publish(id, transport(id));
      i := i + 1;
      if r.Err? {
        continue;
      }
      table.MarkProcessed(id);
      published := published + 1;
    }
    assert batch[..|batch|] == batch;
  }

  // ---- A tick is a run of the delivery system ------------------------------------------------

  function Drain(r: WorkerId, todo: seq<MessageId>, transport: MessageId -> Transport): seq<Action> {
    if todo == [] then [CommitRelay(r)]
    else Handover(r, transport(todo[0])) + Drain(r, todo[1..], transport)
  }

  ghost function Processed(outbox: map<MessageId, OutboxRow>, ids: set<MessageId>): map<MessageId, OutboxRow> {
    map id | id in outbox :: if id in ids then outbox[id].(processed := true) else outbox[id]
  }

  ghost predicate DrainedTo(s: State, t: State, r: WorkerId, marked: set<MessageId>) {
    && t.outbox == Processed(s.outbox, marked)
    && t.relays == s.relays - {r}
    && t.consumers == s.consumers && t.inbox == s.inbox && t.handled == s.handled && t.discarded == s.discarded
  }

  /** The actions of one message. */
  function Handover(r: WorkerId, transport: Transport): seq<Action> {
    if transport == Accepted then [Publish(r), MarkProcessed(r)] else [FailToPublish(r, transport == TakenButFailed)]
  }

  lemma OneMessage(s: State, r: WorkerId, transport: Transport, rest: seq<Action>) returns (t: State)
    requires r in s.relays && s.relays[r].published.None? && s.relays[r].todo != [] && s.relays[r].todo[0] in s.outbox
    ensures Possible(t, rest) ==> Possible(s, Handover(r, transport) + rest)
                                  && After(s, Handover(r, transport) + rest) == After(t, rest)
    ensures t.outbox == s.outbox && t.consumers == s.consumers && t.inbox == s.inbox
    ensures t.handled == s.handled && t.discarded == s.discarded
    ensures t.relays.Keys == s.relays.Keys && forall q :: q in s.relays && q != r ==> t.relays[q] == s.relays[q]
    ensures var relay := s.relays[r];
            var id := relay.todo[0];
            && t.relays[r] == relay.(todo := relay.todo[1..],
                                     marked := relay.marked + if transport == Accepted then {id} else {})
            && t.accepted == s.accepted + if transport == Refused then {} else {id}
  {
    var run := Handover(r, transport) + rest;
    if transport == Accepted {
      var published := Next(s, Publish(r));
      t := Next(published, MarkProcessed(r));
      assert run[1..] == [MarkProcessed(r)] + rest && run[1..][1..] == rest;
    } else {
      t := Next(s, FailToPublish(r, transport == TakenButFailed));
      assert run[1..] == rest;
    }
  }

  lemma {:induction false} DrainIsPossible(s: State, r: WorkerId, transport: MessageId -> Transport)
    requires r in s.relays && s.relays[r].published.None?
    requires forall id :: id in s.relays[r].todo ==> id in s.outbox
    ensures var relay := s.relays[r];
            var run := Drain(r, relay.todo, transport);
            && Possible(s, run)
            && DrainedTo(s, After(s, run), r, relay.marked + Ending(relay.todo, transport, {Accepted}))
            && After(s, run).accepted == s.accepted + Ending(relay.todo, transport, {Accepted, TakenButFailed})
    decreases |s.relays[r].todo|
  {
    hide Next, Enabled, Processed;
    var relay := s.relays[r];
    var run := Drain(r, relay.todo, transport);
    if relay.todo == [] {
      LastCommit(s, r);
      assert relay.marked + Ending([], transport, {Accepted}) == relay.marked;
    } else {
      var t := OneMessage(s, r, transport(relay.todo[0]), Drain(r, relay.todo[1..], transport));
      DrainIsPossible(t, r, transport);
      OneMoreEnding(relay.todo, transport, {Accepted});
      OneMoreEnding(relay.todo, transport, {Accepted, TakenButFailed});
      assert t.relays - {r} == s.relays - {r};
      assert t.relays[r].marked + Ending(relay.todo[1..], transport, {Accepted})
          == relay.marked + Ending(relay.todo, transport, {Accepted});
    }
  }

  lemma LastCommit(s: State, r: WorkerId)
    requires r in s.relays && s.relays[r].published.None? && s.relays[r].todo == []
    ensures Possible(s, [CommitRelay(r)]) && DrainedTo(s, After(s, [CommitRelay(r)]), r, s.relays[r].marked)
    ensures After(s, [CommitRelay(r)]).accepted == s.accepted
  {
    assert [CommitRelay(r)][1..] == [] && After(s, [CommitRelay(r)]) == Next(s, CommitRelay(r));
  }

  lemma OneMoreEnding(batch: seq<MessageId>, transport: MessageId -> Transport, ends: set<Transport>)
    requires batch != []
    ensures Ending(batch, transport, ends)
         == (if transport(batch[0]) in ends then {batch[0]} else {}) + Ending(batch[1..], transport, ends)
  {
    assert batch == [batch[0]] + batch[1..];
  }

  /** Whatever a relay may lock, the whole tick is a run of the delivery system, and it marks exactly what
      the handler marks and hands over exactly what the handler hands over. */
  lemma TickIsARun(s: State, r: WorkerId, batch: seq<MessageId>, transport: MessageId -> Transport)
    requires Enabled(s, ReadPending(r, batch))
    ensures var run := [ReadPending(r, batch)] + Drain(r, batch, transport);
            && Possible(s, run)
            && DrainedTo(s, After(s, run), r, Ending(batch, transport, {Accepted}))
            && After(s, run).accepted == s.accepted + Ending(batch, transport, {Accepted, TakenButFailed})
  {
    var locked := Next(s, ReadPending(r, batch));
    DrainIsPossible(locked, r, transport);
    var run := [ReadPending(r, batch)] + Drain(r, batch, transport);
    assert run[1..] == Drain(r, batch, transport);
  }

  /** The table the gateway reads and the outbox of the delivery system are one. */
  ghost predicate IsTableOf(rows: Rows, outbox: map<MessageId, OutboxRow>) {
    rows.Keys == outbox.Keys && forall id :: id in rows ==> rows[id].processed == outbox[id].processed
  }

  ghost function Held(s: State): set<MessageId> {
    set r, id | r in s.relays && id in s.relays[r].locked :: id
  }

  /** What the gateway may return, a relay of the system may read; the tick over it leaves the table and the
      broker as the handler leaves them. */
  lemma HandlerTickIsARun(s: State, rows: Rows, r: WorkerId, limit: nat, batch: seq<MessageId>,
                          transport: MessageId -> Transport)
    requires IsTableOf(rows, s.outbox) && r !in s.relays && IsBatch(rows, Held(s), limit, batch)
    ensures var run := [ReadPending(r, batch)] + Drain(r, batch, transport);
            && Possible(s, run)
            && IsTableOf(Marked(rows, Ending(batch, transport, {Accepted})), After(s, run).outbox)
            && After(s, run).accepted == s.accepted + SetOf(Select(batch, transport, {Accepted, TakenButFailed}))
  {
    forall id | id in batch ensures id in s.outbox && !s.outbox[id].processed && !LockedBySomeone(s, id) {
      var i :| 0 <= i < |batch| && batch[i] == id;
      assert IsPending(rows, batch[i]) && batch[i] !in Held(s);
    }
    TickIsARun(s, r, batch, transport);
    SelectContains(batch, transport, {Accepted, TakenButFailed});
    assert SetOf(Select(batch, transport, {Accepted, TakenButFailed}))
        == Ending(batch, transport, {Accepted, TakenButFailed});
  }

  // ---- Progress ---------------------------------------------------------------------------------

  /** One completed tick over a batch with nobody else draining, the rows in `failing` refused every time,
      and only rows younger than `x` arriving. */
  ghost predicate TickOver(rows: Rows, after: Rows, failing: set<MessageId>, limit: nat, x: MessageId,
                           batch: seq<MessageId>)
    requires x in rows
  {
    && IsBatch(rows, {}, limit, batch)
    && (forall id :: id in rows ==>
                       && id in after
                       && after[id]
                       == if id in batch && id !in failing then rows[id].(processed := true) else rows[id])
    && (forall id :: id in after && id !in rows ==> after[id].createdAt > rows[x].createdAt)
  }

  ghost predicate Tick(rows: Rows, after: Rows, failing: set<MessageId>, limit: nat, x: MessageId)
    requires x in rows
  {
    exists batch :: TickOver(rows, after, failing, limit, x, batch)
  }

  /** The healthy pending rows that may be read before `x`. */
  ghost function Ahead(rows: Rows, failing: set<MessageId>, x: MessageId): set<MessageId>
    requires x in rows
  {
    set id | id in rows && !rows[id].processed && id !in failing && id != x && rows[id].createdAt <= rows[x].createdAt
  }

  ghost function SetOf(batch: seq<MessageId>): set<MessageId> {
    set id | id in batch
  }

  lemma {:induction false} DistinctSize(s: seq<MessageId>)
    requires forall i, j :: 0 <= i < j < |s| ==> s[i] != s[j]
    ensures |SetOf(s)| == |s|
  {
    if s != [] {
      DistinctSize(s[1..]);
      assert s == [s[0]] + s[1..];
      assert SetOf(s) == {s[0]} + SetOf(s[1..]);
      forall id | id in SetOf(s[1..]) ensures id != s[0] {
        var k :| 0 <= k < |s[1..]| && s[1..][k] == id;
        assert s[k + 1] == id;
      }
    }
  }

  lemma SubsetSize(a: set<MessageId>, b: set<MessageId>)
    requires a <= b
    ensures |a| <= |b|
  {
    assert b == a + (b - a);
  }

  /** The failing rows that may be read before `x`. */
  ghost function Obstacles(rows: Rows, failing: set<MessageId>, x: MessageId): set<MessageId>
    requires x in rows
  {
    set id | id in rows && !rows[id].processed && id in failing && rows[id].createdAt <= rows[x].createdAt
  }

  lemma ObstaclesStay(rows: Rows, after: Rows, failing: set<MessageId>, limit: nat, x: MessageId)
    requires IsPending(rows, x) && Tick(rows, after, failing, limit, x)
    ensures x in after && after[x].createdAt == rows[x].createdAt
    ensures Obstacles(after, failing, x) == Obstacles(rows, failing, x)
  {
    var batch :| TickOver(rows, after, failing, limit, x, batch);
  }

  /** Either the tick processes `x`, or it clears at least `limit - k` of the rows ahead of it, k being the
      number of failing rows that may be read before `x`. */
  lemma TickGetsCloser(rows: Rows, after: Rows, failing: set<MessageId>, limit: nat, x: MessageId)
    requires IsPending(rows, x) && x !in failing && |Obstacles(rows, failing, x)| < limit
    requires Tick(rows, after, failing, limit, x)
    ensures x in after && after[x].createdAt == rows[x].createdAt
    ensures after[x].processed
         || |Ahead(after, failing, x)| + limit - |Obstacles(rows, failing, x)| <= |Ahead(rows, failing, x)|
  {
    var batch :| TickOver(rows, after, failing, limit, x, batch);
    if x !in batch {
      ClearedFromAhead(rows, after, failing, limit, x, batch);
      DistinctSize(batch);
      FewerLeft(SetOf(batch), Obstacles(rows, failing, x), Ahead(rows, failing, x), Ahead(after, failing, x));
    }
  }

  lemma FewerLeft(read: set<MessageId>, failing: set<MessageId>, ahead: set<MessageId>, left: set<MessageId>)
    requires read - failing <= ahead && left <= ahead - (read - failing)
    ensures |left| + |read| - |failing| <= |ahead|
  {
    SubsetSize(left, ahead - (read - failing));
    AllButFailing(read, failing);
    assert ahead == (read - failing) + (ahead - (read - failing));
  }

  lemma ClearedFromAhead(rows: Rows, after: Rows, failing: set<MessageId>, limit: nat, x: MessageId,
                         batch: seq<MessageId>)
    requires IsPending(rows, x) && x !in failing && TickOver(rows, after, failing, limit, x, batch) && x !in batch
    ensures |batch| == limit
    ensures var cleared := SetOf(batch) - Obstacles(rows, failing, x);
            && cleared <= Ahead(rows, failing, x)
            && Ahead(after, failing, x) <= Ahead(rows, failing, x) - cleared
  {
    forall id | id in batch ensures IsPending(rows, id) && rows[id].createdAt <= rows[x].createdAt {
      var i :| 0 <= i < |batch| && batch[i] == id;
    }
  }

  lemma AllButFailing(read: set<MessageId>, failing: set<MessageId>)
    ensures |read - failing| >= |read| - |failing|
  {
    SubsetSize(read * failing, failing);
    assert read == (read - failing) + read * failing;
  }

  ghost predicate AreTicks(ticks: seq<Rows>, failing: set<MessageId>, limit: nat, x: MessageId) {
    && |ticks| >= 1 && x in ticks[0]
    && forall i :: 0 <= i < |ticks| - 1 ==> x in ticks[i] && Tick(ticks[i], ticks[i + 1], failing, limit, x)
  }

  ghost predicate EndsProcessed(ticks: seq<Rows>, x: MessageId) {
    |ticks| >= 1 && var last := ticks[|ticks| - 1]; x in last && last[x].processed
  }

  /** With h healthy rows ahead and k failing rows no younger, fewer than the batch holds, a healthy row is
      processed within any t ticks with t * (limit - k) >= h + 1, that is within ceil((h + 1) / (limit - k)). */
  lemma {:induction false} HealthyRowsGetThrough(ticks: seq<Rows>, failing: set<MessageId>, limit: nat, x: MessageId)
    requires AreTicks(ticks, failing, limit, x) && x !in failing
    requires |Obstacles(ticks[0], failing, x)| < limit
    requires (|ticks| - 1) * (limit - |Obstacles(ticks[0], failing, x)|) >= |Ahead(ticks[0], failing, x)| + 1
    ensures EndsProcessed(ticks, x)
    decreases |ticks|
  {
    hide Tick, Obstacles, Ahead;
    if ticks[0][x].processed {
      StaysProcessed(ticks, failing, limit, x);
    } else {
      assert |ticks| >= 2;
      assert Tick(ticks[0], ticks[1], failing, limit, x);
      TickGetsCloser(ticks[0], ticks[1], failing, limit, x);
      ObstaclesStay(ticks[0], ticks[1], failing, limit, x);
      TailTicks(ticks, failing, limit, x);
      if ticks[1][x].processed {
        StaysProcessed(ticks[1..], failing, limit, x);
      } else {
        var room := limit - |Obstacles(ticks[0], failing, x)|;
        assert (|ticks| - 2) * room == (|ticks| - 1) * room - room;
        HealthyRowsGetThrough(ticks[1..], failing, limit, x);
      }
    }
  }

  lemma TailTicks(ticks: seq<Rows>, failing: set<MessageId>, limit: nat, x: MessageId)
    requires AreTicks(ticks, failing, limit, x) && |ticks| >= 2
    ensures AreTicks(ticks[1..], failing, limit, x)
  {
    hide TickOver;
    assert Tick(ticks[0], ticks[1], failing, limit, x);
    assert x in ticks[1] by {
      var batch :| TickOver(ticks[0], ticks[1], failing, limit, x, batch);
      KeepsRow(ticks[0], ticks[1], failing, limit, x, batch);
    }
    forall i | 0 <= i < |ticks[1..]| - 1
      ensures x in ticks[1..][i] && Tick(ticks[1..][i], ticks[1..][i + 1], failing, limit, x)
    {
      assert Tick(ticks[i + 1], ticks[i + 2], failing, limit, x);
    }
  }

  lemma KeepsRow(rows: Rows, after: Rows, failing: set<MessageId>, limit: nat, x: MessageId, batch: seq<MessageId>)
    requires x in rows && TickOver(rows, after, failing, limit, x, batch)
    ensures x in after && (rows[x].processed ==> after[x].processed)
  {
  }

  lemma {:induction false} StaysProcessed(ticks: seq<Rows>, failing: set<MessageId>, limit: nat, x: MessageId)
    requires AreTicks(ticks, failing, limit, x) && ticks[0][x].processed
    ensures EndsProcessed(ticks, x)
    decreases |ticks|
  {
    if |ticks| >= 2 {
      assert Tick(ticks[0], ticks[1], failing, limit, x);
      TailTicks(ticks, failing, limit, x);
      StaysProcessed(ticks[1..], failing, limit, x);
    }
  }

  // ---- When a row always gets through ---------------------------------------------------------------

  /** However ties are broken and whatever younger rows arrive, long enough is enough. */
  ghost predicate AlwaysGetsThrough(rows: Rows, failing: set<MessageId>, limit: nat, x: MessageId) {
    exists n: nat :: WithinTicks(n, rows, failing, limit, x)
  }

  ghost predicate WithinTicks(n: nat, rows: Rows, failing: set<MessageId>, limit: nat, x: MessageId) {
    forall ticks :: AreTicks(ticks, failing, limit, x) && ticks[0] == rows && |ticks| == n + 1 ==>
        EndsProcessed(ticks, x)
  }

  /** The oldest of some rows, `x` only when it is older than all the others. */
  lemma Oldest(rows: Rows, some: set<MessageId>, x: MessageId) returns (oldest: MessageId)
    requires some != {} && some <= rows.Keys
    ensures oldest in some && forall id :: id in some ==> rows[oldest].createdAt <= rows[id].createdAt
    ensures oldest == x ==> forall id :: id in some && id != x ==> rows[x].createdAt < rows[id].createdAt
    decreases |some|
  {
    oldest :| oldest in some;
    var rest := some - {oldest};
    assert forall id :: id in some ==> id == oldest || id in rest;
    if rest != {} {
      var other := Oldest(rows, rest, x);
      if rows[other].createdAt < rows[oldest].createdAt
         || (rows[other].createdAt == rows[oldest].createdAt && oldest == x)
      {
        oldest := other;
      }
    }
  }

  ghost predicate ReadsLast(rows: Rows, held: set<MessageId>, batch: seq<MessageId>, x: MessageId)
    requires x in rows
  {
    x in batch ==> forall id :: IsPending(rows, id) && id !in held && rows[id].createdAt <= rows[x].createdAt ==>
        id in batch
  }

  /** There always is a batch to read, and one that leaves `x` to the end of its age. */
  lemma {:induction false} BatchReadingLast(rows: Rows, held: set<MessageId>, limit: nat, x: MessageId)
    returns (batch: seq<MessageId>)
    requires x in rows
    ensures IsBatch(rows, held, limit, batch) && ReadsLast(rows, held, batch, x)
  {
    if limit == 0 {
      batch := [];
    } else {
      batch := BatchReadingLast(rows, held, limit - 1, x);
      var left := set id | id in rows && IsPending(rows, id) && id !in held && id !in batch;
      assert forall id :: IsPending(rows, id) && id !in held && id !in batch ==> id in left;
      if |batch| == limit - 1 && left != {} {
        var next := Oldest(rows, left, x);
        batch := OneLonger(rows, held, limit, batch, left, next, x);
      }
    }
  }

  lemma OneLonger(rows: Rows, held: set<MessageId>, limit: nat, batch: seq<MessageId>, left: set<MessageId>,
                  next: MessageId, x: MessageId) returns (longer: seq<MessageId>)
    requires x in rows && limit >= 1 && |batch| == limit - 1
    requires IsBatch(rows, held, limit - 1, batch) && ReadsLast(rows, held, batch, x)
    requires forall id :: id in left <==> IsPending(rows, id) && id !in held && id !in batch
    requires next in left && forall id :: id in left ==> rows[next].createdAt <= rows[id].createdAt
    requires next == x ==> forall id :: id in left && id != x ==> rows[x].createdAt < rows[id].createdAt
    ensures IsBatch(rows, held, limit, longer) && ReadsLast(rows, held, longer, x)
  {
    longer := batch + [next];
    assert forall id :: id in longer <==> id in batch || id == next;
  }

  /** Who is refused stays, who is accepted is marked, nothing arrives. */
  ghost function Ticked(rows: Rows, batch: seq<MessageId>, failing: set<MessageId>): Rows {
    map id | id in rows :: if id in batch && id !in failing then rows[id].(processed := true) else rows[id]
  }

  lemma OneStuckTick(rows: Rows, failing: set<MessageId>, limit: nat, x: MessageId) returns (after: Rows)
    requires IsPending(rows, x) && x !in failing && |Obstacles(rows, failing, x)| >= limit
    ensures Tick(rows, after, failing, limit, x) && IsPending(after, x)
  {
    var batch := BatchReadingLast(rows, {}, limit, x);
    if x in batch {
      var obstacles := Obstacles(rows, failing, x);
      assert obstacles + {x} <= SetOf(batch);
      assert |obstacles + {x}| == |obstacles| + 1;
      DistinctSize(batch);
      SubsetSize(obstacles + {x}, SetOf(batch));
    }
    after := Ticked(rows, batch, failing);
    assert TickOver(rows, after, failing, limit, x, batch);
  }

  lemma {:induction false} StuckTicks(rows: Rows, failing: set<MessageId>, limit: nat, x: MessageId, n: nat)
    returns (ticks: seq<Rows>)
    requires IsPending(rows, x) && x !in failing && |Obstacles(rows, failing, x)| >= limit
    ensures AreTicks(ticks, failing, limit, x) && ticks[0] == rows && |ticks| == n + 1 && !EndsProcessed(ticks, x)
    decreases n
  {
    hide Tick, Obstacles;
    if n == 0 {
      ticks := [rows];
    } else {
      var after := OneStuckTick(rows, failing, limit, x);
      ObstaclesStay(rows, after, failing, limit, x);
      var rest := StuckTicks(after, failing, limit, x, n - 1);
      ticks := [rows] + rest;
    }
  }

  /** A healthy row always gets through exactly when fewer failing rows than a batch holds are no younger. */
  lemma GetsThroughExactly(rows: Rows, failing: set<MessageId>, limit: nat, x: MessageId)
    requires IsPending(rows, x) && x !in failing
    ensures AlwaysGetsThrough(rows, failing, limit, x) <==> |Obstacles(rows, failing, x)| < limit
  {
    hide Obstacles, Ahead, EndsProcessed, Tick;
    if |Obstacles(rows, failing, x)| < limit {
      var n := |Ahead(rows, failing, x)| + 1;
      forall ticks | AreTicks(ticks, failing, limit, x) && ticks[0] == rows && |ticks| == n + 1
        ensures EndsProcessed(ticks, x)
      {
        AtLeastItself(n, limit - |Obstacles(rows, failing, x)|);
        HealthyRowsGetThrough(ticks, failing, limit, x);
      }
      assert WithinTicks(n, rows, failing, limit, x);
    } else {
      forall n: nat ensures !WithinTicks(n, rows, failing, limit, x) {
        var ticks := StuckTicks(rows, failing, limit, x, n);
      }
    }
  }

  lemma AtLeastItself(n: nat, room: int)
    requires room >= 1
    ensures n * room >= n
  {
    assert n * (room - 1) >= 0;
  }

  /** The pending failing rows that are strictly older than `x`. */
  ghost function OlderFailing(rows: Rows, failing: set<MessageId>, x: MessageId): set<MessageId>
    requires x in rows
  {
    set id | id in rows && !rows[id].processed && id in failing && rows[id].createdAt < rows[x].createdAt
  }

  /** However ties are broken: once a whole batch of strictly older rows fails, no tick ever reaches `x`. */
  lemma AFullBatchOfFailuresBlocks(rows: Rows, after: Rows, failing: set<MessageId>, limit: nat, x: MessageId)
    requires IsPending(rows, x) && x !in failing && Tick(rows, after, failing, limit, x)
    requires |OlderFailing(rows, failing, x)| >= limit
    ensures IsPending(after, x) && |OlderFailing(after, failing, x)| >= limit
  {
    var batch :| TickOver(rows, after, failing, limit, x, batch);
    NotInAFullBatch(rows, failing, limit, x, batch);
    SubsetSize(OlderFailing(rows, failing, x), OlderFailing(after, failing, x));
  }

  lemma NotInAFullBatch(rows: Rows, failing: set<MessageId>, limit: nat, x: MessageId, batch: seq<MessageId>)
    requires IsPending(rows, x) && x !in failing && IsBatch(rows, {}, limit, batch)
    requires |OlderFailing(rows, failing, x)| >= limit
    ensures x !in batch
  {
    if x in batch {
      var at :| 0 <= at < |batch| && batch[at] == x;
      var older := OlderFailing(rows, failing, x);
      forall id | id in older ensures id in SetOf(batch) {
        assert IsPending(rows, id);
      }
      DistinctSize(batch);
      assert |older + {x}| == |older| + 1;
      SubsetSize(older + {x}, SetOf(batch));
    }
  }
}
