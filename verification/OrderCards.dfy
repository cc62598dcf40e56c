/** Fitting the lines of an order into the room its card has left. */
module OrderCards {

  const LINE_SEPARATOR: char := '\n'
  const MESSAGE_LIMIT: int := 4096
  const TRAILING_RESERVE: int := 800
  const MAX_PLACEABLE_LENGTH: int := 2500

  function Split(s: string): (rows: seq<string>)
    ensures |rows| >= 1
  {
    if s == "" then [""]
    else
      var rest := Split(s[1..]);
      if s[0] == LINE_SEPARATOR then [""] + rest else [[s[0]] + rest[0]] + rest[1..]
  }

  function Join(rows: seq<string>): string {
    if rows == [] then "" else if |rows| == 1 then rows[0] else rows[0] + [LINE_SEPARATOR] + Join(rows[1..])
  }

  /** What rows take up, each with the separator after it. */
  function Used(rows: seq<string>): nat {
    if rows == [] then 0 else Used(rows[..|rows| - 1]) + |rows[|rows| - 1]| + 1
  }

  function LinesBudget(skeleton: string): int {
    var room := MESSAGE_LIMIT - TRAILING_RESERVE - |skeleton|;
    if room < MAX_PLACEABLE_LENGTH then room else MAX_PLACEABLE_LENGTH
  }

  /** How many rows are kept when `room` is what they may use: the loop's answer, counted from `kept`. */
  function KeptFrom(rows: seq<string>, kept: nat, used: nat, room: int): (k: nat)
    requires kept <= |rows|
    ensures kept <= k <= |rows|
    decreases |rows| - kept
  {
    if kept == |rows| || used + |rows[kept]| + 1 > room then kept
    else KeptFrom(rows, kept + 1, used + |rows[kept]| + 1, room)
  }

  function Kept(rows: seq<string>, room: int): (k: nat)
    ensures k <= |rows|
  {
    KeptFrom(rows, 0, 0, room)
  }

  /** The notice is any text that depends on a count. */
  function Fitted(lines: string, budget: int, notice: nat -> string): string {
    if |lines| <= budget then lines
    else
      var rows := Split(lines);
      var kept := Kept(rows, budget - |notice(|rows|)|);
      Join(rows[..kept] + [notice(|rows| - kept)])
  }

  method FitLines(lines: string, budget: int, notice: nat -> string) returns (text: string)
    ensures text == Fitted(lines, budget, notice)
    ensures |lines| <= budget ==> text == lines
  {
    if |lines| <= budget {
      return lines;
    }
    var rows := Split(lines);
    var room := budget - |notice(|rows|)|;
    var kept: seq<string> := [];
    var used: nat := 0;
    var i := 0;
    while i < |rows|
      invariant 0 <= i <= |rows| && kept == rows[..i]
      invariant KeptFrom(rows, i, used, room) == Kept(rows, room)
    {
      var needed := |rows[i]| + 1;
      if used + needed > room {
        break;
      }
      kept, used, i := kept + [rows[i]], used + needed, i + 1;
    }
    text := Join(kept + [notice(|rows| - |kept|)]);
  }

  // ---- Text ---------------------------------------------------------------------------

  lemma {:induction false} JoinUndoesSplit(s: string)
    ensures Join(Split(s)) == s
  {
    if s != "" {
      JoinUndoesSplit(s[1..]);
      var rest := Split(s[1..]);
      if s[0] == LINE_SEPARATOR {
        assert Split(s)[1..] == rest;
      } else {
        assert Split(s)[1..] == rest[1..];
      }
    }
  }

  lemma {:induction false} RowsHaveNoSeparator(s: string)
    ensures forall i :: 0 <= i < |Split(s)| ==> LINE_SEPARATOR !in Split(s)[i]
  {
    if s != "" {
      RowsHaveNoSeparator(s[1..]);
    }
  }

  lemma {:induction false} UsedConcat(a: seq<string>, b: seq<string>)
    ensures Used(a + b) == Used(a) + Used(b)
  {
    if b == [] {
      assert a + b == a;
    } else {
      UsedConcat(a, b[..|b| - 1]);
      assert (a + b)[..|a + b| - 1] == a + b[..|b| - 1];
    }
  }

  lemma UsedOne(row: string)
    ensures Used([row]) == |row| + 1
  {
    assert [row][..0] == [];
  }

  lemma {:induction false} JoinedLength(rows: seq<string>)
    requires rows != []
    ensures |Join(rows)| + 1 == Used(rows)
  {
    UsedOne(rows[0]);
    if |rows| == 1 {
      assert rows == [rows[0]];
    } else {
      JoinedLength(rows[1..]);
      UsedConcat([rows[0]], rows[1..]);
      assert rows == [rows[0]] + rows[1..];
    }
  }

  lemma {:induction false} KeptIsLongest(rows: seq<string>, kept: nat, room: int)
    requires kept <= |rows| && (kept == 0 || Used(rows[..kept]) <= room)
    ensures var k := KeptFrom(rows, kept, Used(rows[..kept]), room);
            && (k == 0 || Used(rows[..k]) <= room)
            && (k < |rows| ==> Used(rows[..k + 1]) > room)
    decreases |rows| - kept
  {
    if kept < |rows| {
      assert rows[..kept + 1][..kept] == rows[..kept];
      if Used(rows[..kept]) + |rows[kept]| + 1 <= room {
        KeptIsLongest(rows, kept + 1, room);
      }
    }
  }

  lemma {:induction false} UsedGrows(rows: seq<string>, m: nat, n: nat)
    requires m <= n <= |rows|
    ensures Used(rows[..m]) <= Used(rows[..n])
  {
    if m < n {
      UsedGrows(rows, m, n - 1);
      assert rows[..n][..n - 1] == rows[..n - 1];
    }
  }

  ghost predicate NoticeGrows(notice: nat -> string) {
    forall m: nat, n: nat :: m <= n ==> |notice(m)| <= |notice(n)|
  }

  /** A text that does not fit is cut to whole rows: as many as fit beside the notice for all of them, and
      never all of them; the notice counts the rest, at least one. */
  lemma CutToWholeRows(lines: string, budget: int, notice: nat -> string)
    requires |lines| > budget
    ensures var rows := Split(lines);
            var room := budget - |notice(|rows|)|;
            var kept := Kept(rows, room);
            && Join(rows) == lines && (forall i :: 0 <= i < |rows| ==> LINE_SEPARATOR !in rows[i])
            && kept < |rows|
            && Fitted(lines, budget, notice) == Join(rows[..kept] + [notice(|rows| - kept)])
            && (kept == 0 || Used(rows[..kept]) <= room)
            && forall n :: kept < n <= |rows| ==> Used(rows[..n]) > room
  {
    hide Split, Join, Used, KeptFrom;
    var rows := Split(lines);
    JoinUndoesSplit(lines);
    RowsHaveNoSeparator(lines);
    JoinedLength(rows);
    KeptIsLongestPrefix(rows, budget - |notice(|rows|)|);
  }

  lemma KeptFits(rows: seq<string>, room: int)
    ensures var kept := Kept(rows, room);
            && (kept == 0 || Used(rows[..kept]) <= room)
            && (kept < |rows| ==> Used(rows[..kept + 1]) > room)
  {
    assert rows[..0] == [];
    KeptIsLongest(rows, 0, room);
  }

  /** The rows kept are the longest prefix that fits the room. */
  lemma KeptIsLongestPrefix(rows: seq<string>, room: int)
    ensures var kept := Kept(rows, room);
            && (kept == 0 || Used(rows[..kept]) <= room)
            && (kept == |rows| ==> Used(rows) <= room || rows == [])
            && forall n :: kept < n <= |rows| ==> Used(rows[..n]) > room
  {
    hide Kept, Used;
    KeptFits(rows, room);
    assert rows[..|rows|] == rows;
    var kept := Kept(rows, room);
    forall n | kept < n <= |rows| ensures Used(rows[..n]) > room {
      UsedGrows(rows, kept + 1, n);
    }
  }

  /** With a notice that never shrinks as its count grows, the text fits its budget exactly when it needed no
      cutting or the notice for all the rows fits. */
  lemma FittedIsWithinBudget(lines: string, budget: int, notice: nat -> string)
    requires NoticeGrows(notice)
    ensures |Fitted(lines, budget, notice)| <= budget
        <==> |lines| <= budget || |notice(|Split(lines)|)| <= budget
  {
    hide Split, Join, KeptFrom, Kept;
    if |lines| > budget {
      var rows := Split(lines);
      var room := budget - |notice(|rows|)|;
      var kept := Kept(rows, room);
      CutToWholeRows(lines, budget, notice);
      var last := notice(|rows| - kept);
      JoinedLength(rows[..kept] + [last]);
      UsedConcat(rows[..kept], [last]);
      UsedOne(last);
      if kept == 0 {
        assert rows[..0] == [];
      }
    }
  }

  /** The budget is the most that leaves the message its 4096 characters less 800 in reserve, and the
      template its 2500. */
  lemma BudgetIsTheMost(skeleton: string, budget: int)
    ensures budget <= LinesBudget(skeleton) <==> |skeleton| + budget + 800 <= 4096 && budget <= 2500
  {
  }

  /** A card whose lines are fitted to its own budget leaves the reserve free and never passes a value the
      message template would refuse. */
  lemma CardFits(skeleton: string, lines: string, notice: nat -> string)
    requires NoticeGrows(notice) && |notice(|Split(lines)|)| <= LinesBudget(skeleton)
    ensures var text := Fitted(lines, LinesBudget(skeleton), notice);
            |skeleton| + |text| + 800 <= 4096 && |text| <= 2500 && (|lines| <= LinesBudget(skeleton) ==> text == lines)
  {
    FittedIsWithinBudget(lines, LinesBudget(skeleton), notice);
  }
}
