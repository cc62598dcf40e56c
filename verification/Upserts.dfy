/** Conditional upserts and scoped sweeps over one projection table. */
module Upserts {
  import opened Outcome

  /** A row as the table holds it. A table whose rows are never hidden simply keeps `active` true. */
  datatype Stored<V> = Stored(payload: V, active: bool, batch: string, changedAt: Option<int>)

  type Table<K, V> = map<K, Stored<V>>

  datatype Incoming<K, V> = Incoming(key: K, payload: V, changedAt: Option<int>)

  /** A row that carries no timestamp, on either side, is taken as the newer one; an equal one overwrites. */
  predicate Wins(incoming: Option<int>, stored: Option<int>) {
    incoming.None? || stored.None? || incoming.value >= stored.value
  }

  predicate Lands<K(==), V>(table: Table<K, V>, row: Incoming<K, V>) {
    row.key !in table || Wins(row.changedAt, table[row.key].changedAt)
  }

  /** A statement under way: the table so far and the keys it has written. */
  datatype Written<K, V> = Written(table: Table<K, V>, keys: set<K>)

  function Write<K, V>(w: Written<K, V>, row: Incoming<K, V>, batch: string): Written<K, V> {
    if Lands(w.table, row) then
      Written(w.table[row.key := Stored(row.payload, true, batch, row.changedAt)], w.keys + {row.key})
    else w
  }

  /** Writes the rows of one statement; the database refuses a statement that would write a row twice. */
  function UpsertFrom<K, V>(w: Written<K, V>, rows: seq<Incoming<K, V>>, batch: string): Result<Written<K, V>>
    decreases |rows|
  {
    if rows == [] then Ok(w)
    else if rows[0].key in w.keys then Err(RepoFailure)
    else UpsertFrom(Write(w, rows[0], batch), rows[1..], batch)
  }

  function Upsert<K, V>(table: Table<K, V>, rows: seq<Incoming<K, V>>, batch: string): Result<Written<K, V>> {
    UpsertFrom(Written(table, {}), rows, batch)
  }

  /** Hides what the batch did not mention, keeping every row. */
  function Deactivate<K, V>(table: Table<K, V>, batch: string): Table<K, V> {
    map k | k in table :: if table[k].batch != batch && table[k].active then table[k].(active := false) else table[k]
  }

  /** The scope of a table that is always exported whole. */
  function Everywhere<K>(): K -> bool {
    _ => true
  }

  /** Deletes what the batch did not mention among the rows the scope reaches. */
  function Sweep<K, V>(table: Table<K, V>, batch: string, inScope: K -> bool): Table<K, V> {
    map k | k in table && !(table[k].batch != batch && inScope(k)) :: table[k]
  }

  // ---- One statement --------------------------------------------------------------------

  ghost predicate Mentioned<K, V>(rows: seq<Incoming<K, V>>, k: K) {
    exists i :: 0 <= i < |rows| && rows[i].key == k
  }

  ghost predicate Carries<K, V>(rows: seq<Incoming<K, V>>, k: K, payload: V, changedAt: Option<int>) {
    exists i :: 0 <= i < |rows| && rows[i] == Incoming(k, payload, changedAt)
  }

  /** Some row of the statement has this key and wins against what the table held before the statement. */
  ghost predicate LandsAmong<K, V>(before: Table<K, V>, rows: seq<Incoming<K, V>>, k: K) {
    exists i :: 0 <= i < |rows| && rows[i].key == k && Lands(before, rows[i])
  }

  ghost predicate AllLand<K, V>(before: Table<K, V>, rows: seq<Incoming<K, V>>) {
    forall i :: 0 <= i < |rows| ==> Lands(before, rows[i])
  }

  /** A row that won stands in the table as it was sent, under the stamp of its batch. */
  ghost predicate IsWritten<K, V>(w: Written<K, V>, row: Incoming<K, V>, batch: string) {
    && row.key in w.keys && row.key in w.table
    && w.table[row.key] == Stored(row.payload, true, batch, row.changedAt)
  }

  /** What a statement does to the table it starts from: each row that wins against that table is written as
      sent, every other key is left alone, and as many keys are counted as rows exactly when every row wins. */
  ghost predicate Effect<K(!new), V(!new)>(before: Table<K, V>, w: Written<K, V>, rows: seq<Incoming<K, V>>,
                                            batch: string) {
    && (forall i :: 0 <= i < |rows| && Lands(before, rows[i]) ==> IsWritten(w, rows[i], batch))
    && (forall k :: k in w.keys ==> LandsAmong(before, rows, k))
    && SameElsewhere(before, w)
    && |w.keys| <= |rows|
    && (|w.keys| == |rows| <==> AllLand(before, rows))
  }

  ghost predicate SameElsewhere<K(!new), V(!new)>(before: Table<K, V>, w: Written<K, V>) {
    forall k :: k !in w.keys ==> (k in w.table <==> k in before) && (k in before ==> w.table[k] == before[k])
  }

  lemma LandsAmongMore<K, V>(before: Table<K, V>, done: seq<Incoming<K, V>>, row: Incoming<K, V>, k: K)
    ensures LandsAmong(before, done + [row], k) <==> LandsAmong(before, done, k) || (row.key == k && Lands(before, row))
  {
    var rows := done + [row];
    assert rows[|done|] == row;
    assert forall i :: 0 <= i < |done| ==> rows[i] == done[i];
  }

  lemma AllLandMore<K, V>(before: Table<K, V>, done: seq<Incoming<K, V>>, row: Incoming<K, V>)
    ensures AllLand(before, done + [row]) <==> AllLand(before, done) && Lands(before, row)
  {
    var rows := done + [row];
    assert rows[|done|] == row;
    assert forall i :: 0 <= i < |done| ==> rows[i] == done[i];
  }

  lemma OneMoreRow<K(!new), V(!new)>(before: Table<K, V>, w: Written<K, V>, done: seq<Incoming<K, V>>,
                                     row: Incoming<K, V>, batch: string)
    requires Effect(before, w, done, batch) && row.key !in w.keys
    ensures Effect(before, Write(w, row, batch), done + [row], batch)
  {
    hide LandsAmong, AllLand;
    var rows, next := done + [row], Write(w, row, batch);
    assert Lands(w.table, row) <==> Lands(before, row);
    AllLandMore(before, done, row);
    forall k | k in next.keys ensures LandsAmong(before, rows, k) {
      LandsAmongMore(before, done, row, k);
    }
    forall i | 0 <= i < |rows| && Lands(before, rows[i]) ensures IsWritten(next, rows[i], batch) {
      if i < |done| {
        assert rows[i] == done[i];
        assert IsWritten(w, done[i], batch);
      }
    }
  }

  lemma {:induction false} EffectFrom<K(!new), V(!new)>(before: Table<K, V>, w: Written<K, V>,
                                                        done: seq<Incoming<K, V>>, rows: seq<Incoming<K, V>>,
                                                        batch: string)
    requires Effect(before, w, done, batch) && UpsertFrom(w, rows, batch).Ok?
    ensures Effect(before, UpsertFrom(w, rows, batch).value, done + rows, batch)
    decreases |rows|
  {
    hide Effect, Write;
    if rows == [] {
      assert done + rows == done;
    } else {
      OneMoreRow(before, w, done, rows[0], batch);
      assert done + rows == done + [rows[0]] + rows[1..];
      EffectFrom(before, Write(w, rows[0], batch), done + [rows[0]], rows[1..], batch);
    }
  }

  /** Which rows a statement writes is settled by the table it starts from. */
  lemma UpsertEffect<K(!new), V(!new)>(table: Table<K, V>, rows: seq<Incoming<K, V>>, batch: string)
    requires Upsert(table, rows, batch).Ok?
    ensures Effect(table, Upsert(table, rows, batch).value, rows, batch)
  {
    assert [] + rows == rows;
    EffectFrom(table, Written(table, {}), [], rows, batch);
  }

  /** Two rows of one key of which the earlier wins: the database would have to write the row twice. */
  ghost predicate WritesTwice<K, V>(before: Table<K, V>, rows: seq<Incoming<K, V>>) {
    exists i, j :: 0 <= i < j < |rows| && rows[i].key == rows[j].key && Lands(before, rows[i])
  }

  lemma {:induction false} RefusedFrom<K(!new), V(!new)>(before: Table<K, V>, w: Written<K, V>,
                                                         done: seq<Incoming<K, V>>, rows: seq<Incoming<K, V>>,
                                                         batch: string)
    requires Effect(before, w, done, batch) && !WritesTwice(before, done)
    ensures UpsertFrom(w, rows, batch).Err? <==> WritesTwice(before, done + rows)
    ensures UpsertFrom(w, rows, batch).Err? ==> UpsertFrom(w, rows, batch).error == RepoFailure
    decreases |rows|
  {
    hide Write;
    if rows == [] {
      assert done + rows == done;
    } else {
      var row, next := rows[0], done + [rows[0]];
      assert done + rows == next + rows[1..];
      WrittenMeansLanded(before, w, done, batch, row.key);
      hide Effect;
      TwiceWithOneMore(before, done, row);
      if row.key in w.keys {
        TwiceStaysTwice(before, next, rows[1..]);
      } else {
        OneMoreRow(before, w, done, row, batch);
        RefusedFrom(before, Write(w, row, batch), next, rows[1..], batch);
      }
    }
  }

  lemma TwiceWithOneMore<K, V>(before: Table<K, V>, done: seq<Incoming<K, V>>, row: Incoming<K, V>)
    requires !WritesTwice(before, done)
    ensures WritesTwice(before, done + [row]) <==> LandsAmong(before, done, row.key)
  {
    var rows := done + [row];
    assert rows[|done|] == row && forall i :: 0 <= i < |done| ==> rows[i] == done[i];
    if WritesTwice(before, rows) {
      var i, j :| 0 <= i < j < |rows| && rows[i].key == rows[j].key && Lands(before, rows[i]);
      assert j == |done| by {
        if j < |done| { assert WritesTwice(before, done); }
      }
    }
    if LandsAmong(before, done, row.key) {
      var i :| 0 <= i < |done| && done[i].key == row.key && Lands(before, done[i]);
      assert rows[i].key == rows[|done|].key;
    }
  }

  lemma TwiceStaysTwice<K, V>(before: Table<K, V>, rows: seq<Incoming<K, V>>, more: seq<Incoming<K, V>>)
    requires WritesTwice(before, rows)
    ensures WritesTwice(before, rows + more)
  {
    var i, j :| 0 <= i < j < |rows| && rows[i].key == rows[j].key && Lands(before, rows[i]);
    assert (rows + more)[i] == rows[i] && (rows + more)[j] == rows[j];
  }

  /** A statement is refused exactly when it would write a row twice. */
  lemma RefusedExactly<K(!new), V(!new)>(table: Table<K, V>, rows: seq<Incoming<K, V>>, batch: string)
    ensures Upsert(table, rows, batch).Err? <==> WritesTwice(table, rows)
    ensures Upsert(table, rows, batch).Err? ==> Upsert(table, rows, batch).error == RepoFailure
  {
    assert [] + rows == rows;
    RefusedFrom(table, Written(table, {}), [], rows, batch);
  }

  lemma {:induction false} DistinctKeysFrom<K, V>(w: Written<K, V>, rows: seq<Incoming<K, V>>, batch: string)
    requires forall i, j :: 0 <= i < j < |rows| ==> rows[i].key != rows[j].key
    requires forall i :: 0 <= i < |rows| ==> rows[i].key !in w.keys
    ensures UpsertFrom(w, rows, batch).Ok?
    decreases |rows|
  {
    if rows != [] {
      DistinctKeysFrom(Write(w, rows[0], batch), rows[1..], batch);
    }
  }

  // ---- Convergence --------------------------------------------------------------------------

  /** What a delivery says, apart from the batch it came in. */
  datatype Version<V> = Version(payload: V, changedAt: Option<int>)

  function Cell<K, V>(table: Table<K, V>, k: K): Option<Version<V>> {
    if k in table then Some(Version(table[k].payload, table[k].changedAt)) else None
  }

  /** Deliveries to one key, one after another. */
  function Deliver<V>(cell: Option<Version<V>>, deliveries: seq<Version<V>>): Option<Version<V>>
    decreases |deliveries|
  {
    if deliveries == [] then cell
    else
      var d := deliveries[0];
      Deliver(if cell.None? || Wins(d.changedAt, cell.value.changedAt) then Some(d) else cell, deliveries[1..])
  }

  function DeliveriesTo<K(==), V>(rows: seq<Incoming<K, V>>, k: K): seq<Version<V>> {
    if rows == [] then []
    else (if rows[0].key == k then [Version(rows[0].payload, rows[0].changedAt)] else []) + DeliveriesTo(rows[1..], k)
  }

  lemma {:induction false} StatementDelivers<K, V>(w: Written<K, V>, rows: seq<Incoming<K, V>>, batch: string, k: K)
    requires UpsertFrom(w, rows, batch).Ok?
    ensures Cell(UpsertFrom(w, rows, batch).value.table, k) == Deliver(Cell(w.table, k), DeliveriesTo(rows, k))
    decreases |rows|
  {
    if rows != [] {
      StatementDelivers(Write(w, rows[0], batch), rows[1..], batch, k);
      if rows[0].key == k {
        assert DeliveriesTo(rows, k)[1..] == DeliveriesTo(rows[1..], k);
      } else {
        assert DeliveriesTo(rows, k) == DeliveriesTo(rows[1..], k);
      }
    }
  }

  /** Statements that reached a table, each whole or not at all. */
  datatype Statement<K, V> = Statement(rows: seq<Incoming<K, V>>, batch: string)

  function Replay<K, V>(table: Table<K, V>, history: seq<Statement<K, V>>): Table<K, V>
    decreases |history|
  {
    if history == [] then table
    else
      var w := Upsert(table, history[0].rows, history[0].batch);
      Replay(if w.Ok? then w.value.table else table, history[1..])
  }

  /** Every delivery to a key in the statements that went through. */
  function AllDeliveriesTo<K, V>(table: Table<K, V>, history: seq<Statement<K, V>>, k: K): seq<Version<V>>
    decreases |history|
  {
    if history == [] then []
    else
      var w := Upsert(table, history[0].rows, history[0].batch);
      if w.Ok? then DeliveriesTo(history[0].rows, k) + AllDeliveriesTo(w.value.table, history[1..], k)
      else AllDeliveriesTo(table, history[1..], k)
  }

  lemma {:induction false} DeliverConcat<V>(cell: Option<Version<V>>, a: seq<Version<V>>, b: seq<Version<V>>)
    ensures Deliver(cell, a + b) == Deliver(Deliver(cell, a), b)
    decreases |a|
  {
    if a == [] {
      assert a + b == b;
    } else {
      var d := a[0];
      assert (a + b)[1..] == a[1..] + b;
      DeliverConcat(if cell.None? || Wins(d.changedAt, cell.value.changedAt) then Some(d) else cell, a[1..], b);
    }
  }

  lemma {:induction false} HistoryDelivers<K, V>(table: Table<K, V>, history: seq<Statement<K, V>>, k: K)
    ensures Cell(Replay(table, history), k) == Deliver(Cell(table, k), AllDeliveriesTo(table, history, k))
    decreases |history|
  {
    if history != [] {
      var w := Upsert(table, history[0].rows, history[0].batch);
      if w.Ok? {
        StatementDelivers(Written(table, {}), history[0].rows, history[0].batch, k);
        HistoryDelivers(w.value.table, history[1..], k);
        DeliverConcat(Cell(table, k), DeliveriesTo(history[0].rows, k),
                      AllDeliveriesTo(w.value.table, history[1..], k));
      } else {
        HistoryDelivers(table, history[1..], k);
      }
    }
  }

  ghost predicate IsGreatest<V>(best: Version<V>, deliveries: seq<Version<V>>) {
    && best in deliveries && best.changedAt.Some?
    && forall d :: d in deliveries && d.changedAt.Some? ==> d.changedAt.value <= best.changedAt.value
  }

  /** With a timestamp on every delivery the greatest one stays, and the stored timestamp never decreases. */
  lemma {:induction false} GreatestStays<V>(cell: Option<Version<V>>, deliveries: seq<Version<V>>)
    requires forall d :: d in deliveries ==> d.changedAt.Some?
    requires cell.Some? ==> cell.value.changedAt.Some?
    requires cell.Some? || deliveries != []
    ensures var before := if cell.Some? then [cell.value] else [];
            Deliver(cell, deliveries).Some? && IsGreatest(Deliver(cell, deliveries).value, before + deliveries)
    decreases |deliveries|
  {
    var before := if cell.Some? then [cell.value] else [];
    if deliveries == [] {
      assert before + deliveries == [cell.value];
    } else {
      var d := deliveries[0];
      var next := if cell.None? || Wins(d.changedAt, cell.value.changedAt) then Some(d) else cell;
      GreatestStays(next, deliveries[1..]);
      var best := Deliver(cell, deliveries).value;
      assert best in [next.value] + deliveries[1..];
      assert deliveries == [d] + deliveries[1..];
      forall e | e in before + deliveries ensures e.changedAt.value <= best.changedAt.value {
        if e == d || (cell.Some? && e == cell.value) {
          assert next.value in [next.value] + deliveries[1..];
        } else {
          assert e in [next.value] + deliveries[1..];
        }
      }
    }
  }

  ghost function Versions<V>(deliveries: seq<Version<V>>): set<Version<V>> {
    set d | d in deliveries
  }

  ghost predicate IsTop<V>(top: Version<V>, versions: set<Version<V>>) {
    && top in versions && top.changedAt.Some?
    && forall d :: d in versions && d.changedAt.Some? ==> d.changedAt.value <= top.changedAt.value
  }

  /** Nothing is left for the order to decide: there is one version at most, or every version carries a
      timestamp and there is one payload at the greatest. */
  ghost predicate IsSettled<V(!new)>(versions: set<Version<V>>) {
    || (forall d, e :: d in versions && e in versions ==> d == e)
    || ((forall d :: d in versions ==> d.changedAt.Some?)
        && (forall d, e :: IsTop(d, versions) && IsTop(e, versions) ==> d == e))
  }

  lemma {:induction false} SomethingStays<V>(cell: Option<Version<V>>, deliveries: seq<Version<V>>)
    requires cell.Some? || deliveries != []
    ensures Deliver(cell, deliveries).Some?
    ensures Deliver(cell, deliveries) == cell || Deliver(cell, deliveries).value in deliveries
    decreases |deliveries|
  {
    if deliveries != [] {
      var d := deliveries[0];
      SomethingStays(if cell.None? || Wins(d.changedAt, cell.value.changedAt) then Some(d) else cell, deliveries[1..]);
    }
  }

  lemma NoVersions<V>(deliveries: seq<Version<V>>)
    ensures Versions(deliveries) == {} <==> deliveries == []
  {
    if deliveries != [] { assert deliveries[0] in Versions(deliveries); }
  }

  lemma SettledStays<V(!new)>(first: seq<Version<V>>, second: seq<Version<V>>)
    requires Versions(first) == Versions(second) && IsSettled(Versions(first))
    ensures Deliver(None, first) == Deliver(None, second)
  {
    var versions := Versions(first);
    assert forall d :: d in first <==> d in versions;
    assert forall d :: d in second <==> d in Versions(second);
    if first == [] {
      NoVersions(first);
      NoVersions(second);
    } else {
      assert first[0] in second;
      SomethingStays(None, first);
      SomethingStays(None, second);
      if forall d :: d in versions ==> d.changedAt.Some? {
        GreatestStays(None, first);
        GreatestStays(None, second);
        assert [] + first == first && [] + second == second;
        assert IsTop(Deliver(None, first).value, versions) && IsTop(Deliver(None, second).value, versions);
      }
    }
  }

  lemma LastOneStays<V>(deliveries: seq<Version<V>>, last: Version<V>)
    requires forall d :: d in deliveries ==> Wins(last.changedAt, d.changedAt)
    ensures Deliver(None, deliveries + [last]) == Some(last)
  {
    DeliverConcat(None, deliveries, [last]);
    if deliveries != [] { SomethingStays(None, deliveries); }
    assert Deliver(Some(last), []) == Some(last);
  }

  /** Two versions of which the first beats everything and the second beats the first: the order decides. */
  lemma TheLastTwo<V>(all: seq<Version<V>>, a: Version<V>, b: Version<V>)
    requires a in all && b in all && a != b
    requires forall d :: d in all ==> Wins(a.changedAt, d.changedAt)
    requires Wins(b.changedAt, a.changedAt)
    ensures Versions(all + [b, a]) == Versions(all) == Versions(all + [a, b])
    ensures Deliver(None, all + [b, a]) != Deliver(None, all + [a, b])
  {
    assert all + [b, a] == (all + [b]) + [a] && all + [a, b] == (all + [a]) + [b];
    LastOneStays(all + [b], a);
    LastOneStays(all, a);
    DeliverConcat(None, all + [a], [b]);
    assert Deliver(Some(b), []) == Some(b);
  }

  lemma {:induction false} Enumeration<V>(versions: set<Version<V>>) returns (all: seq<Version<V>>)
    ensures Versions(all) == versions
    decreases |versions|
  {
    if versions == {} {
      all := [];
    } else {
      var d :| d in versions;
      var rest := Enumeration(versions - {d});
      all := rest + [d];
      assert Versions(all) == Versions(rest) + {d};
    }
  }

  /** What is not settled, the order decides. */
  lemma UnsettledVaries<V(!new)>(versions: set<Version<V>>) returns (first: seq<Version<V>>, second: seq<Version<V>>)
    requires !IsSettled(versions)
    ensures Versions(first) == versions == Versions(second)
    ensures Deliver(None, first) != Deliver(None, second)
  {
    var all := Enumeration(versions);
    assert forall d :: d in all <==> d in Versions(all);
    var a, b;
    if undated :| undated in versions && undated.changedAt.None? {
      var d, e :| d in versions && e in versions && d != e;
      a, b := undated, if d == undated then e else d;
    } else {
      a, b :| IsTop(a, versions) && IsTop(b, versions) && a != b;
    }
    TheLastTwo(all, a, b);
    first, second := all + [b, a], all + [a, b];
  }

  /** Two histories that delivered the same settled versions of a key, in any order, any number of times and
      cut into any statements, leave the same version of it, the one of the greatest timestamp. */
  lemma HistoriesConverge<K, V(!new)>(first: seq<Statement<K, V>>, second: seq<Statement<K, V>>, k: K)
    requires Versions(AllDeliveriesTo(map[], first, k)) == Versions(AllDeliveriesTo(map[], second, k))
    requires IsSettled(Versions(AllDeliveriesTo(map[], first, k)))
    ensures Cell(Replay(map[], first), k) == Cell(Replay(map[], second), k)
    ensures var deliveries := AllDeliveriesTo(map[], first, k);
            deliveries != [] && (forall d :: d in deliveries ==> d.changedAt.Some?) ==>
              var cell := Cell(Replay(map[], first), k);
              cell.Some? && IsGreatest(cell.value, deliveries)
  {
    var a, b := AllDeliveriesTo(map[], first, k), AllDeliveriesTo(map[], second, k);
    HistoryDelivers(map[], first, k);
    HistoryDelivers(map[], second, k);
    SettledStays(a, b);
    if a != [] && forall d :: d in a ==> d.changedAt.Some? {
      GreatestStays(None, a);
      assert [] + a == a;
    }
  }

  /** Each delivery in a statement of its own. */
  function OneByOne<K, V>(k: K, deliveries: seq<Version<V>>): seq<Statement<K, V>> {
    seq(|deliveries|, i requires 0 <= i < |deliveries| =>
          Statement([Incoming(k, deliveries[i].payload, deliveries[i].changedAt)], ""))
  }

  lemma {:induction false} OneByOneDelivers<K, V>(table: Table<K, V>, k: K, deliveries: seq<Version<V>>)
    ensures AllDeliveriesTo(table, OneByOne(k, deliveries), k) == deliveries
    decreases |deliveries|
  {
    if deliveries != [] {
      var d := deliveries[0];
      var row := Incoming(k, d.payload, d.changedAt);
      UpsertOne(table, row, "");
      assert DeliveriesTo([row], k) == [d] by { assert [row][1..] == []; }
      assert OneByOne(k, deliveries)[1..] == OneByOne(k, deliveries[1..]);
      OneByOneDelivers(Upsert(table, [row], "").value.table, k, deliveries[1..]);
    }
  }

  /** All histories that deliver these versions of a key leave the same version of it. */
  ghost predicate AllHistoriesAgree<K(!new), V(!new)>(k: K, versions: set<Version<V>>) {
    forall first: seq<Statement<K, V>>, second: seq<Statement<K, V>> ::
      Versions(AllDeliveriesTo(map[], first, k)) == versions == Versions(AllDeliveriesTo(map[], second, k)) ==>
        Cell(Replay(map[], first), k) == Cell(Replay(map[], second), k)
  }

  /** Order, repetition and cutting are harmless for a set of versions exactly when it is settled. */
  lemma OrderIsHarmlessExactly<K(!new), V(!new)>(k: K, versions: set<Version<V>>)
    ensures AllHistoriesAgree(k, versions) <==> IsSettled(versions)
  {
    if IsSettled(versions) {
      forall first: seq<Statement<K, V>>, second: seq<Statement<K, V>>
        | Versions(AllDeliveriesTo(map[], first, k)) == versions == Versions(AllDeliveriesTo(map[], second, k))
        ensures Cell(Replay(map[], first), k) == Cell(Replay(map[], second), k)
      {
        HistoriesConverge(first, second, k);
      }
    } else {
      var a, b := UnsettledVaries(versions);
      OneByOneDelivers(map[], k, a);
      OneByOneDelivers(map[], k, b);
      HistoryDelivers(map[], OneByOne(k, a), k);
      HistoryDelivers(map[], OneByOne(k, b), k);
    }
  }

  /** The two ways to be unsettled, at their smallest: no timestamp, or two payloads at one. */
  lemma OrderMattersOtherwise<V>(a: Version<V>, b: Version<V>)
    requires a != b
    ensures Deliver(None, [a, b]) != Deliver(None, [b, a])
       <==> a.changedAt.None? || b.changedAt.None? || a.changedAt == b.changedAt
  {
    DeliverTwo(a, b);
    DeliverTwo(b, a);
  }

  lemma DeliverTwo<V>(a: Version<V>, b: Version<V>)
    ensures Deliver(None, [a, b]) == Some(if Wins(b.changedAt, a.changedAt) then b else a)
  {
    assert [a, b][1..] == [b] && [b][1..] == [];
    assert Deliver(None, [a, b]) == Deliver(Some(a), [b]);
  }

  // ---- Import, then finalise ------------------------------------------------------------------

  /** The chunks of one batch, one statement each; any refusal refuses the batch. */
  function ImportChunks<K, V>(w: Written<K, V>, chunks: seq<seq<Incoming<K, V>>>, batch: string): Result<Written<K, V>>
    decreases |chunks|
  {
    if chunks == [] then Ok(w)
    else
      var next :- Upsert(w.table, chunks[0], batch);
      ImportChunks(Written(next.table, w.keys + next.keys), chunks[1..], batch)
  }

  ghost predicate MentionedIn<K, V>(chunks: seq<seq<Incoming<K, V>>>, k: K) {
    exists c :: 0 <= c < |chunks| && Mentioned(chunks[c], k)
  }

  ghost predicate CarriedIn<K, V>(chunks: seq<seq<Incoming<K, V>>>, k: K, payload: V, changedAt: Option<int>) {
    exists c :: 0 <= c < |chunks| && Carries(chunks[c], k, payload, changedAt)
  }

  /** Some row of the batch has this key and wins against what the table held before the batch. */
  ghost predicate LandsIn<K, V>(before: Table<K, V>, chunks: seq<seq<Incoming<K, V>>>, k: K) {
    exists c :: 0 <= c < |chunks| && LandsAmong(before, chunks[c], k)
  }

  /** What the chunks of a batch do to the table they start from. */
  ghost predicate BatchEffect<K(!new), V(!new)>(before: Table<K, V>, w: Written<K, V>,
                                                chunks: seq<seq<Incoming<K, V>>>, batch: string) {
    && (forall k :: k in w.keys <==> LandsIn(before, chunks, k))
    && (forall k :: k in w.keys ==> IsStamped(w.table, chunks, batch, k))
    && SameElsewhere(before, w)
  }

  /** The row of this key is one the batch carried, under its stamp. */
  ghost predicate IsStamped<K, V>(table: Table<K, V>, chunks: seq<seq<Incoming<K, V>>>, batch: string, k: K) {
    && k in table && table[k].batch == batch && table[k].active
    && CarriedIn(chunks, k, table[k].payload, table[k].changedAt)
  }

  lemma StatementInBatch<K(!new), V(!new)>(before: Table<K, V>, w: Written<K, V>, done: seq<seq<Incoming<K, V>>>,
                                           rows: seq<Incoming<K, V>>, batch: string)
    requires BatchEffect(before, w, done, batch) && Upsert(w.table, rows, batch).Ok?
    ensures var next := Upsert(w.table, rows, batch).value;
            BatchEffect(before, Written(next.table, w.keys + next.keys), done + [rows], batch)
  {
    hide Upsert, Effect, LandsIn, IsStamped, SameElsewhere;
    UpsertEffect(w.table, rows, batch);
    var next := Upsert(w.table, rows, batch).value;
    var end, chunks := Written(next.table, w.keys + next.keys), done + [rows];
    forall k ensures k in end.keys <==> LandsIn(before, chunks, k) {
      KeysInBatch(before, w, done, next, rows, batch, k);
    }
    forall k | k in end.keys ensures IsStamped(end.table, chunks, batch, k) {
      StampedInBatch(before, w, done, next, rows, batch, k);
    }
    SameAfterBatch(before, w, done, next, rows, batch);
  }

  lemma StampedInBatch<K(!new), V(!new)>(before: Table<K, V>, w: Written<K, V>, done: seq<seq<Incoming<K, V>>>,
                                         next: Written<K, V>, rows: seq<Incoming<K, V>>, batch: string, k: K)
    requires BatchEffect(before, w, done, batch) && Effect(w.table, next, rows, batch)
    requires k in w.keys || k in next.keys
    ensures IsStamped(next.table, done + [rows], batch, k)
  {
    hide LandsAmong, LandsIn, CarriedIn, Carries;
    if k in next.keys {
      WrittenAsCarried(w.table, next, rows, batch, k);
    } else {
      assert IsStamped(w.table, done, batch, k);
    }
    CarriedInMore(done, rows, k, next.table[k].payload, next.table[k].changedAt);
  }

  lemma SameAfterBatch<K(!new), V(!new)>(before: Table<K, V>, w: Written<K, V>, done: seq<seq<Incoming<K, V>>>,
                                         next: Written<K, V>, rows: seq<Incoming<K, V>>, batch: string)
    requires BatchEffect(before, w, done, batch) && Effect(w.table, next, rows, batch)
    ensures SameElsewhere(before, Written(next.table, w.keys + next.keys))
  {
    hide LandsAmong, LandsIn, IsStamped, IsWritten, AllLand;
  }

  lemma KeysInBatch<K(!new), V(!new)>(before: Table<K, V>, w: Written<K, V>, done: seq<seq<Incoming<K, V>>>,
                                      next: Written<K, V>, rows: seq<Incoming<K, V>>, batch: string, k: K)
    requires BatchEffect(before, w, done, batch) && Effect(w.table, next, rows, batch)
    ensures k in w.keys || k in next.keys <==> LandsIn(before, done + [rows], k)
  {
    hide LandsAmong, LandsIn, CarriedIn, Effect;
    LandsInMore(before, done, rows, k);
    WrittenMeansLanded(w.table, next, rows, batch, k);
    if k !in w.keys { SameCellSameWinners(before, w.table, rows, k); }
  }

  lemma LandsInMore<K, V>(before: Table<K, V>, done: seq<seq<Incoming<K, V>>>, rows: seq<Incoming<K, V>>, k: K)
    ensures LandsIn(before, done + [rows], k) <==> LandsIn(before, done, k) || LandsAmong(before, rows, k)
  {
    var chunks := done + [rows];
    assert chunks[|done|] == rows;
    assert forall c :: 0 <= c < |done| ==> chunks[c] == done[c];
  }

  lemma CarriedInMore<K, V>(done: seq<seq<Incoming<K, V>>>, rows: seq<Incoming<K, V>>, k: K, payload: V,
                            changedAt: Option<int>)
    requires CarriedIn(done, k, payload, changedAt) || Carries(rows, k, payload, changedAt)
    ensures CarriedIn(done + [rows], k, payload, changedAt)
  {
    var chunks := done + [rows];
    assert chunks[|done|] == rows;
    assert forall c :: 0 <= c < |done| ==> chunks[c] == done[c];
  }

  lemma WrittenMeansLanded<K(!new), V(!new)>(before: Table<K, V>, w: Written<K, V>, rows: seq<Incoming<K, V>>,
                                             batch: string, k: K)
    requires Effect(before, w, rows, batch)
    ensures k in w.keys <==> LandsAmong(before, rows, k)
  {
  }

  lemma WrittenAsCarried<K(!new), V(!new)>(before: Table<K, V>, w: Written<K, V>, rows: seq<Incoming<K, V>>,
                                           batch: string, k: K)
    requires Effect(before, w, rows, batch) && k in w.keys
    ensures k in w.table && w.table[k].batch == batch && w.table[k].active
    ensures Carries(rows, k, w.table[k].payload, w.table[k].changedAt)
  {
    var i :| 0 <= i < |rows| && rows[i].key == k && Lands(before, rows[i]);
    assert IsWritten(w, rows[i], batch);
  }

  lemma SameCellSameWinners<K, V>(before: Table<K, V>, now: Table<K, V>, rows: seq<Incoming<K, V>>, k: K)
    requires (k in now <==> k in before) && (k in before ==> now[k] == before[k])
    ensures LandsAmong(now, rows, k) <==> LandsAmong(before, rows, k)
  {
    if LandsAmong(now, rows, k) {
      var i :| 0 <= i < |rows| && rows[i].key == k && Lands(now, rows[i]);
      assert Lands(before, rows[i]);
    }
    if LandsAmong(before, rows, k) {
      var i :| 0 <= i < |rows| && rows[i].key == k && Lands(before, rows[i]);
      assert Lands(now, rows[i]);
    }
  }

  lemma {:induction false} ChunksFrom<K(!new), V(!new)>(before: Table<K, V>, w: Written<K, V>,
                                                        done: seq<seq<Incoming<K, V>>>,
                                                        chunks: seq<seq<Incoming<K, V>>>, batch: string)
    requires BatchEffect(before, w, done, batch) && ImportChunks(w, chunks, batch).Ok?
    ensures BatchEffect(before, ImportChunks(w, chunks, batch).value, done + chunks, batch)
    decreases |chunks|
  {
    hide BatchEffect, Upsert;
    if chunks == [] {
      assert done + chunks == done;
    } else {
      StatementInBatch(before, w, done, chunks[0], batch);
      var next := Upsert(w.table, chunks[0], batch).value;
      assert done + chunks == done + [chunks[0]] + chunks[1..];
      ChunksFrom(before, Written(next.table, w.keys + next.keys), done + [chunks[0]], chunks[1..], batch);
    }
  }

  /** Whichever way a batch is cut into chunks, the keys it writes are those with a row that wins against the
      table as it was before the batch. */
  lemma ChunksEffect<K(!new), V(!new)>(table: Table<K, V>, chunks: seq<seq<Incoming<K, V>>>, batch: string)
    requires ImportChunks(Written(table, {}), chunks, batch).Ok?
    ensures BatchEffect(table, ImportChunks(Written(table, {}), chunks, batch).value, chunks, batch)
  {
    assert [] + chunks == chunks;
    ChunksFrom(table, Written(table, {}), [], chunks, batch);
  }

  ghost predicate IsFreshBatch<K, V>(table: Table<K, V>, batch: string) {
    forall k :: k in table ==> table[k].batch != batch
  }

  /** The whole effect of a batch and the sweep after it. */
  ghost predicate Replaces<K(!new), V(!new)>(before: Table<K, V>, chunks: seq<seq<Incoming<K, V>>>,
                                             inScope: K -> bool, after: Table<K, V>) {
    && (forall k :: LandsIn(before, chunks, k) ==>
                      k in after && after[k].active && CarriedIn(chunks, k, after[k].payload, after[k].changedAt))
    && (forall k :: !LandsIn(before, chunks, k) ==> (k in after <==> k in before && !inScope(k)))
    && (forall k :: !LandsIn(before, chunks, k) && k in after ==> after[k] == before[k])
  }

  /** The whole effect of a batch and the deactivation after it. */
  ghost predicate Hides<K(!new), V(!new)>(before: Table<K, V>, chunks: seq<seq<Incoming<K, V>>>, after: Table<K, V>) {
    && (forall k :: LandsIn(before, chunks, k) ==>
                      k in after && after[k].active && CarriedIn(chunks, k, after[k].payload, after[k].changedAt))
    && (forall k :: !LandsIn(before, chunks, k) ==> (k in after <==> k in before))
    && (forall k :: !LandsIn(before, chunks, k) && k in after ==> after[k] == before[k].(active := false))
  }

  /** No key of the batch in scope is held by the table at a newer timestamp than every row it has here. */
  ghost predicate NothingIsOutdated<K(!new), V>(before: Table<K, V>, chunks: seq<seq<Incoming<K, V>>>,
                                                inScope: K -> bool) {
    forall k :: inScope(k) && MentionedIn(chunks, k) ==> LandsIn(before, chunks, k)
  }

  /** In scope, exactly what the batch mentions is present. */
  ghost predicate HoldsTheBatch<K(!new), V>(after: Table<K, V>, chunks: seq<seq<Incoming<K, V>>>, inScope: K -> bool) {
    forall k :: inScope(k) ==> (k in after <==> MentionedIn(chunks, k))
  }

  /** Exactly what the batch mentions is active. */
  ghost predicate ShowsTheBatch<K(!new), V>(after: Table<K, V>, chunks: seq<seq<Incoming<K, V>>>) {
    forall k :: k in after && after[k].active <==> MentionedIn(chunks, k)
  }

  /** Chunks of one new batch, then a sweep or a deactivation: what stays is settled by the table before the
      batch, and it is exactly the batch if and only if no key of the batch in scope is outdated. */
  lemma ImportThenFinalise<K(!new), V(!new)>(table: Table<K, V>, chunks: seq<seq<Incoming<K, V>>>, batch: string,
                                             inScope: K -> bool)
    requires ImportChunks(Written(table, {}), chunks, batch).Ok? && IsFreshBatch(table, batch)
    ensures var swept := Sweep(ImportChunks(Written(table, {}), chunks, batch).value.table, batch, inScope);
            && Replaces(table, chunks, inScope, swept)
            && (HoldsTheBatch(swept, chunks, inScope) <==> NothingIsOutdated(table, chunks, inScope))
    ensures var hidden := Deactivate(ImportChunks(Written(table, {}), chunks, batch).value.table, batch);
            && Hides(table, chunks, hidden)
            && (ShowsTheBatch(hidden, chunks) <==> NothingIsOutdated(table, chunks, Everywhere()))
  {
    ChunksEffect(table, chunks, batch);
    forall k | LandsIn(table, chunks, k) ensures MentionedIn(chunks, k) {
      var c :| 0 <= c < |chunks| && LandsAmong(table, chunks[c], k);
      assert Mentioned(chunks[c], k);
    }
  }

  /** How many keys were counted before a batch changes nothing about its table. */
  lemma {:induction false} CountingIsOnlyCounting<K, V>(table: Table<K, V>, a: set<K>, b: set<K>,
                                                        chunks: seq<seq<Incoming<K, V>>>, batch: string)
    requires ImportChunks(Written(table, a), chunks, batch).Ok?
    ensures ImportChunks(Written(table, b), chunks, batch).Ok?
    ensures ImportChunks(Written(table, b), chunks, batch).value.table
         == ImportChunks(Written(table, a), chunks, batch).value.table
    decreases |chunks|
  {
    if chunks != [] {
      var next := Upsert(table, chunks[0], batch).value;
      CountingIsOnlyCounting(next.table, a + next.keys, b + next.keys, chunks[1..], batch);
    }
  }

  lemma UpsertOne<K, V>(table: Table<K, V>, row: Incoming<K, V>, batch: string)
    ensures Upsert(table, [row], batch) == Ok(Write(Written(table, {}), row, batch))
  {
    assert [row][1..] == [];
    assert UpsertFrom(Write(Written(table, {}), row, batch), [], batch) == Ok(Write(Written(table, {}), row, batch));
  }

  /** A key the batch does mention is swept with its scope exactly when the table held it at a newer timestamp
      than each of its rows: none of them is stamped, so the row counts as one the batch left out. */
  lemma StaleRowsAreSwept<K(!new), V(!new)>(table: Table<K, V>, chunks: seq<seq<Incoming<K, V>>>, batch: string,
                                            inScope: K -> bool, k: K)
    requires ImportChunks(Written(table, {}), chunks, batch).Ok? && IsFreshBatch(table, batch)
    requires MentionedIn(chunks, k) && inScope(k)
    ensures k !in Sweep(ImportChunks(Written(table, {}), chunks, batch).value.table, batch, inScope)
       <==> k in table && forall c, i :: 0 <= c < |chunks| && 0 <= i < |chunks[c]| && chunks[c][i].key == k ==>
                                           !Wins(chunks[c][i].changedAt, table[k].changedAt)
  {
    ImportThenFinalise(table, chunks, batch, inScope);
    if LandsIn(table, chunks, k) {
      var c :| 0 <= c < |chunks| && LandsAmong(table, chunks[c], k);
      var i :| 0 <= i < |chunks[c]| && chunks[c][i].key == k && Lands(table, chunks[c][i]);
    } else {
      forall c, i | 0 <= c < |chunks| && 0 <= i < |chunks[c]| && chunks[c][i].key == k
        ensures !Lands(table, chunks[c][i])
      {
        assert !LandsAmong(table, chunks[c], k);
      }
      var c :| 0 <= c < |chunks| && Mentioned(chunks[c], k);
      var i :| 0 <= i < |chunks[c]| && chunks[c][i].key == k;
    }
  }

  /** A sweep leaves no tombstone: the oldest delivery of a swept row, replayed, brings it back. */
  lemma SweptRowsComeBack<K(!new), V(!new)>(table: Table<K, V>, row: Incoming<K, V>, batch: string, later: string,
                                            inScope: K -> bool)
    requires row.key in table && table[row.key].batch != batch && inScope(row.key)
    ensures Upsert(Sweep(table, batch, inScope), [row], later).Ok?
    ensures Cell(Upsert(Sweep(table, batch, inScope), [row], later).value.table, row.key)
         == Some(Version(row.payload, row.changedAt))
  {
    UpsertOne(Sweep(table, batch, inScope), row, later);
  }

  // ---- A batch finalised again -----------------------------------------------------------------------

  /** What other batches do to a table: a statement, or a sweep. */
  datatype Change<!K, V> = Writes(statement: Statement<K, V>) | Sweeps(batch: string, inScope: K -> bool)

  ghost predicate IsOfAnother<K, V>(change: Change<K, V>, batch: string) {
    match change
    case Writes(statement) => statement.batch != batch
    case Sweeps(other, _) => other != batch
  }

  function Changed<K, V>(table: Table<K, V>, change: Change<K, V>): Table<K, V> {
    match change
    case Writes(statement) =>
      (var w := Upsert(table, statement.rows, statement.batch); if w.Ok? then w.value.table else table)
    case Sweeps(batch, inScope) => Sweep(table, batch, inScope)
  }

  function ChangedBy<K, V>(table: Table<K, V>, changes: seq<Change<K, V>>): Table<K, V>
    decreases |changes|
  {
    if changes == [] then table else ChangedBy(Changed(table, changes[0]), changes[1..])
  }

  /** The keys whose upsert somebody has won in the meantime. */
  function KeysWon<K, V>(table: Table<K, V>, changes: seq<Change<K, V>>): set<K>
    decreases |changes|
  {
    if changes == [] then {}
    else
      var won :=
        if changes[0].Sweeps? then {}
        else
          var w := Upsert(table, changes[0].statement.rows, changes[0].statement.batch);
          if w.Ok? then w.value.keys else {};
      won + KeysWon(Changed(table, changes[0]), changes[1..])
  }

  /** A row under another stamp was there before under it, or has been won since. */
  lemma {:induction false} WonSince<K(!new), V(!new)>(table: Table<K, V>, changes: seq<Change<K, V>>, batch: string)
    requires forall change :: change in changes ==> IsOfAnother(change, batch)
    ensures var after := ChangedBy(table, changes);
            && (forall k :: k in after && k !in KeysWon(table, changes) ==> k in table && after[k] == table[k])
            && (forall k :: k in after && k in KeysWon(table, changes) ==> after[k].batch != batch && after[k].active)
    decreases |changes|
  {
    if changes != [] {
      var change := changes[0];
      assert change in changes;
      if change.Writes? {
        var w := Upsert(table, change.statement.rows, change.statement.batch);
        if w.Ok? { WrittenKeys(table, change.statement.rows, change.statement.batch); }
      }
      hide Upsert, Sweep;
      WonSince(Changed(table, change), changes[1..], batch);
    }
  }

  lemma WrittenKeys<K(!new), V(!new)>(table: Table<K, V>, rows: seq<Incoming<K, V>>, batch: string)
    requires Upsert(table, rows, batch).Ok?
    ensures var w := Upsert(table, rows, batch).value;
            && SameElsewhere(table, w)
            && forall k :: k in w.keys ==> k in w.table && w.table[k].batch == batch && w.table[k].active
  {
    hide Upsert;
    UpsertEffect(table, rows, batch);
    var w := Upsert(table, rows, batch).value;
    forall k | k in w.keys ensures k in w.table && w.table[k].batch == batch && w.table[k].active {
      WrittenAsCarried(table, w, rows, batch, k);
    }
  }

  /** A batch is finalised, other batches write and sweep, and it is finalised again: the second sweep takes
      exactly what the others have won in its scope, so it is harmless if and only if nothing of that is left;
      the second deactivation hides exactly what they have won, wherever. */
  lemma FinalisedAgain<K(!new), V(!new)>(table: Table<K, V>, changes: seq<Change<K, V>>, batch: string,
                                         inScope: K -> bool)
    requires forall change :: change in changes ==> IsOfAnother(change, batch)
    ensures var swept := Sweep(table, batch, inScope);
            var (now, won) := (ChangedBy(swept, changes), KeysWon(swept, changes));
            && (forall k :: k in Sweep(now, batch, inScope) <==> k in now && !(inScope(k) && k in won))
            && (Sweep(now, batch, inScope) == now <==> forall k :: k in now && inScope(k) ==> k !in won)
    ensures var hidden := Deactivate(table, batch);
            var (now, won) := (ChangedBy(hidden, changes), KeysWon(hidden, changes));
            && (forall k :: k in now ==> Deactivate(now, batch)[k].active == (now[k].active && k !in won))
            && (Deactivate(now, batch) == now <==> forall k :: k in now ==> k !in won)
  {
    SweptAgain(Sweep(table, batch, inScope), changes, batch, inScope);
    HiddenAgain(Deactivate(table, batch), changes, batch);
  }

  lemma SweptAgain<K(!new), V(!new)>(swept: Table<K, V>, changes: seq<Change<K, V>>, batch: string, inScope: K -> bool)
    requires forall k :: k in swept && inScope(k) ==> swept[k].batch == batch
    requires forall change :: change in changes ==> IsOfAnother(change, batch)
    ensures var (now, won) := (ChangedBy(swept, changes), KeysWon(swept, changes));
            && (forall k :: k in Sweep(now, batch, inScope) <==> k in now && !(inScope(k) && k in won))
            && (Sweep(now, batch, inScope) == now <==> forall k :: k in now && inScope(k) ==> k !in won)
  {
    WonSince(swept, changes, batch);
    hide ChangedBy, KeysWon;
    var (now, won) := (ChangedBy(swept, changes), KeysWon(swept, changes));
    forall k ensures k in Sweep(now, batch, inScope) <==> k in now && !(inScope(k) && k in won) {
    }
    if forall k :: k in now && inScope(k) ==> k !in won {
      assert Sweep(now, batch, inScope) == now;
    }
  }

  lemma HiddenAgain<K(!new), V(!new)>(hidden: Table<K, V>, changes: seq<Change<K, V>>, batch: string)
    requires forall k :: k in hidden && hidden[k].active ==> hidden[k].batch == batch
    requires forall change :: change in changes ==> IsOfAnother(change, batch)
    ensures var (now, won) := (ChangedBy(hidden, changes), KeysWon(hidden, changes));
            && (forall k :: k in now ==> Deactivate(now, batch)[k].active == (now[k].active && k !in won))
            && (Deactivate(now, batch) == now <==> forall k :: k in now ==> k !in won)
  {
    WonSince(hidden, changes, batch);
    hide ChangedBy, KeysWon;
    var (now, won) := (ChangedBy(hidden, changes), KeysWon(hidden, changes));
    forall k | k in now ensures Deactivate(now, batch)[k].active == (now[k].active && k !in won) {
    }
    if forall k :: k in now ==> k !in won {
      assert Deactivate(now, batch) == now;
    }
  }
}
