/** Category paths and the subtree they select: a walk up to the root that survives broken snapshots, and a
    text index over it that has to mean descent. */
module CategoryTree {
  import opened Outcome
  import opened Like

  const PATH_SEPARATOR: char := '/'

  datatype Category = Category(id: string, parent: Option<string>)
  datatype Placement = Placement(path: string, depth: nat)

  type Parents = map<string, Option<string>>

  /** The dictionary of a batch: a later row of the same id replaces an earlier one. */
  function ParentsOf(rows: seq<Category>): Parents {
    if rows == [] then map[] else ParentsOf(rows[..|rows| - 1])[rows[|rows| - 1].id := rows[|rows| - 1].parent]
  }

  lemma OneMoreParent(rows: seq<Category>, row: Category)
    ensures ParentsOf(rows + [row]) == ParentsOf(rows)[row.id := row.parent]
  {
    assert (rows + [row])[..|rows|] == rows;
  }

  /** Of the rows with one id the last one counts, and nothing but the rows has an entry. */
  lemma {:induction false} LastRowCounts(rows: seq<Category>, i: nat)
    requires i < |rows| && forall j :: i < j < |rows| ==> rows[j].id != rows[i].id
    ensures rows[i].id in ParentsOf(rows) && ParentsOf(rows)[rows[i].id] == rows[i].parent
  {
    var last := |rows| - 1;
    if i < last {
      assert rows[last].id != rows[i].id;
      LastRowCounts(rows[..last], i);
    }
  }

  function Join(parts: seq<string>): string
    requires parts != []
  {
    if |parts| == 1 then parts[0] else parts[0] + [PATH_SEPARATOR] + Join(parts[1..])
  }

  function Reverse(s: seq<string>): (r: seq<string>)
    ensures |r| == |s| && forall i :: 0 <= i < |s| ==> r[i] == s[|s| - 1 - i]
  {
    if s == [] then [] else Reverse(s[1..]) + [s[0]]
  }

  /** The rest of a walk upwards: it ends at a root, at a parent the batch does not hold, or where it has
      been before. */
  function Walk(parents: Parents, parent: Option<string>, seen: set<string>): seq<string>
    decreases parents.Keys - seen
  {
    if parent.None? || parent.value !in parents || parent.value in seen then []
    else [parent.value] + Walk(parents, parents[parent.value], seen + {parent.value})
  }

  /** A category and the ancestors its walk meets, nearest first. */
  function Chain(parents: Parents, id: string, parent: Option<string>): seq<string> {
    [id] + Walk(parents, parent, {id})
  }

  function Place(chain: seq<string>): Placement
    requires chain != []
  {
    Placement(Join(Reverse(chain)), |chain| - 1)
  }

  function PlacementsOf(parents: Parents, rows: seq<Category>): map<string, Placement> {
    if rows == [] then map[]
    else
      var last := rows[|rows| - 1];
      PlacementsOf(parents, rows[..|rows| - 1])[last.id := Place(Chain(parents, last.id, last.parent))]
  }

  /** Walks one category up, remembering where it has been. */
  method Climb(parents: Parents, row: Category) returns (ancestry: seq<string>)
    ensures ancestry == Chain(parents, row.id, row.parent)
  {
    ancestry := [row.id];
    var seen, parent := {row.id}, row.parent;
    while parent.Some? && parent.value in parents && parent.value !in seen
      invariant ancestry + Walk(parents, parent, seen) == Chain(parents, row.id, row.parent)
      decreases parents.Keys - seen
    {
      ancestry, seen := ancestry + [parent.value], seen + {parent.value};
      parent := parents[parent.value];
    }
    assert ancestry == ancestry + Walk(parents, parent, seen);
  }

  method Placements(rows: seq<Category>) returns (placements: map<string, Placement>)
    ensures placements == PlacementsOf(ParentsOf(rows), rows)
  {
    var parents := ParentsOf(rows);
    placements := map[];
    var i := 0;
    while i < |rows|
      invariant 0 <= i <= |rows|
      invariant placements == PlacementsOf(parents, rows[..i])
    {
      var ancestry := Climb(parents, rows[i]);
      placements := placements[rows[i].id := Placement(Join(Reverse(ancestry)), |ancestry| - 1)];
      assert rows[..i + 1][..i] == rows[..i];
      i := i + 1;
    }
    assert rows[..|rows|] == rows;
  }

  // ---- Ancestors --------------------------------------------------------------------

  /** The parent of a category, if the batch holds both. */
  function Up(parents: Parents, id: string): Option<string> {
    if id in parents && parents[id].Some? && parents[id].value in parents then parents[id] else None
  }

  function Ancestor(parents: Parents, id: string, steps: nat): Option<string> {
    if steps == 0 then Some(id)
    else
      var below := Ancestor(parents, id, steps - 1);
      if below.None? then None else Up(parents, below.value)
  }

  ghost predicate IsSelfOrAncestor(parents: Parents, ancestor: string, id: string) {
    exists steps: nat :: Ancestor(parents, id, steps) == Some(ancestor)
  }

  /** No two different categories are ancestors of each other. */
  ghost predicate NoCycle(parents: Parents) {
    forall x, y ::
      x in parents && y in parents && IsSelfOrAncestor(parents, x, y) && IsSelfOrAncestor(parents, y, x) ==>
        x == y
  }

  /** The chain of a category of the batch. */
  function ChainOf(parents: Parents, id: string): seq<string>
    requires id in parents
  {
    Chain(parents, id, parents[id])
  }

  function PathOf(parents: Parents, id: string): string
    requires id in parents
  {
    Place(ChainOf(parents, id)).path
  }

  /** Every category of a batch is placed by its own chain, whatever the graph looks like. */
  lemma {:induction false} EveryCategoryIsPlaced(rows: seq<Category>, parents: Parents)
    ensures PlacementsOf(parents, rows).Keys == ParentsOf(rows).Keys
    ensures forall id :: id in ParentsOf(rows) ==>
                           PlacementsOf(parents, rows)[id] == Place(Chain(parents, id, ParentsOf(rows)[id]))
  {
    if rows != [] {
      EveryCategoryIsPlaced(rows[..|rows| - 1], parents);
    }
  }

  lemma {:induction false} WalkClimbs(parents: Parents, parent: Option<string>, seen: set<string>)
    ensures var walk := Walk(parents, parent, seen);
            && (forall i :: 0 <= i < |walk| ==> walk[i] in parents && walk[i] !in seen)
            && (forall i, j :: 0 <= i < j < |walk| ==> walk[i] != walk[j])
            && (walk != [] ==> parent == Some(walk[0]))
            && (forall i :: 0 <= i < |walk| - 1 ==> parents[walk[i]] == Some(walk[i + 1]))
            && (var end := if walk == [] then parent else parents[walk[|walk| - 1]];
                end.None? || end.value !in parents || end.value in seen || end.value in walk)
    decreases parents.Keys - seen
  {
    if parent.Some? && parent.value in parents && parent.value !in seen {
      WalkClimbs(parents, parents[parent.value], seen + {parent.value});
    }
  }

  /** A chain is made of distinct categories, each the parent of the one before, and is as long as it can be. */
  lemma ChainClimbs(parents: Parents, id: string)
    requires id in parents
    ensures var chain := ChainOf(parents, id);
            && chain != [] && chain[0] == id
            && (forall i :: 0 <= i < |chain| ==> chain[i] in parents)
            && (forall i, j :: 0 <= i < j < |chain| ==> chain[i] != chain[j])
            && (forall i :: 0 <= i < |chain| - 1 ==> Up(parents, chain[i]) == Some(chain[i + 1]))
            && (var end := Up(parents, chain[|chain| - 1]); end.None? || end.value in chain)
  {
    var walk, chain := Walk(parents, parents[id], {id}), ChainOf(parents, id);
    WalkClimbs(parents, parents[id], {id});
    assert forall i :: 0 < i < |chain| ==> chain[i] == walk[i - 1];
    if |walk| > 0 { assert chain[|chain| - 1] == walk[|walk| - 1]; }
  }

  /** On any graph, cycles and missing parents included: the path ends in the category's own id, and it has
      one component more than the depth, all of them different. */
  lemma PathOfAnyGraph(parents: Parents, id: string)
    requires id in parents
    ensures var parts := Reverse(ChainOf(parents, id));
            && PathOf(parents, id) == Join(parts)
            && parts[|parts| - 1] == id
            && Place(ChainOf(parents, id)).depth == |parts| - 1
            && (forall i, j :: 0 <= i < j < |parts| ==> parts[i] != parts[j])
  {
    ChainClimbs(parents, id);
  }

  lemma {:induction false} ChainIsAncestors(parents: Parents, id: string, i: nat)
    requires id in parents && i < |ChainOf(parents, id)|
    ensures Ancestor(parents, id, i) == Some(ChainOf(parents, id)[i])
  {
    ChainClimbs(parents, id);
    if i > 0 {
      ChainIsAncestors(parents, id, i - 1);
    }
  }

  lemma OneAboveTheOther(parents: Parents, id: string, i: nat, j: nat)
    requires id in parents && i <= j < |ChainOf(parents, id)|
    ensures IsSelfOrAncestor(parents, ChainOf(parents, id)[j], ChainOf(parents, id)[i])
    decreases j - i
  {
    var chain := ChainOf(parents, id);
    ChainClimbs(parents, id);
    if i == j {
      assert Ancestor(parents, chain[i], 0) == Some(chain[i]);
    } else {
      OneAboveTheOther(parents, id, i, j - 1);
      var n: nat :| Ancestor(parents, chain[i], n) == Some(chain[j - 1]);
      assert Ancestor(parents, chain[i], n + 1) == Some(chain[j]);
    }
  }

  /** On any graph the chain holds every ancestor. */
  lemma {:induction false} ChainHoldsEveryAncestor(parents: Parents, id: string, steps: nat)
    requires id in parents && Ancestor(parents, id, steps).Some?
    ensures Ancestor(parents, id, steps).value in ChainOf(parents, id)
  {
    var chain := ChainOf(parents, id);
    ChainClimbs(parents, id);
    if steps > 0 {
      ChainHoldsEveryAncestor(parents, id, steps - 1);
      var below := Ancestor(parents, id, steps - 1).value;
      var i :| 0 <= i < |chain| && chain[i] == below;
      if i < |chain| - 1 {
        assert Up(parents, chain[i]) == Some(chain[i + 1]);
      }
    }
  }

  lemma ChainIsSelfAndAncestors(parents: Parents, ancestor: string, id: string)
    requires id in parents
    ensures ancestor in ChainOf(parents, id) <==> IsSelfOrAncestor(parents, ancestor, id)
  {
    var chain := ChainOf(parents, id);
    if ancestor in chain {
      var i :| 0 <= i < |chain| && chain[i] == ancestor;
      ChainIsAncestors(parents, id, i);
    }
    if steps: nat :| Ancestor(parents, id, steps) == Some(ancestor) {
      ChainHoldsEveryAncestor(parents, id, steps);
    }
  }

  // ---- Chains that end in chains -----------------------------------------------------

  /** A climb that cannot be continued without repeating itself. */
  ghost predicate IsFullClimb(parents: Parents, s: seq<string>) {
    && s != []
    && (forall i, j :: 0 <= i < j < |s| ==> s[i] != s[j])
    && (forall i :: 0 <= i < |s| - 1 ==> Up(parents, s[i]) == Some(s[i + 1]))
    && (var end := Up(parents, s[|s| - 1]); end.None? || end.value in s)
  }

  lemma {:induction false} SameClimb(parents: Parents, s: seq<string>, t: seq<string>, i: nat)
    requires IsFullClimb(parents, s) && IsFullClimb(parents, t) && s[0] == t[0]
    requires i < |s| && i < |t|
    ensures s[i] == t[i]
  {
    if i > 0 {
      SameClimb(parents, s, t, i - 1);
    }
  }

  lemma NotLonger(parents: Parents, s: seq<string>, t: seq<string>)
    requires IsFullClimb(parents, s) && IsFullClimb(parents, t) && s[0] == t[0]
    ensures |t| <= |s|
  {
    if |s| < |t| {
      var n := |s|;
      SameClimb(parents, s, t, n - 1);
      assert Up(parents, s[n - 1]) == Some(t[n]);
      var k :| 0 <= k < n && s[k] == t[n];
      SameClimb(parents, s, t, k);
    }
  }

  lemma FullClimbIsUnique(parents: Parents, s: seq<string>, t: seq<string>)
    requires IsFullClimb(parents, s) && IsFullClimb(parents, t) && s[0] == t[0]
    ensures s == t
  {
    NotLonger(parents, s, t);
    NotLonger(parents, t, s);
    forall i | 0 <= i < |s| ensures s[i] == t[i] {
      SameClimb(parents, s, t, i);
    }
  }

  /** Without a cycle, the chain of an ancestor is the end of the chain below it. */
  lemma ChainEndsInAncestorsChain(parents: Parents, id: string, i: nat)
    requires id in parents && NoCycle(parents) && i < |ChainOf(parents, id)|
    ensures ChainOf(parents, id)[i] in parents
    ensures ChainOf(parents, id)[i..] == ChainOf(parents, ChainOf(parents, id)[i])
  {
    var chain := ChainOf(parents, id);
    ChainClimbs(parents, id);
    ChainClimbs(parents, chain[i]);
    AboveTheLast(parents, id);
    EndOfAClimb(parents, chain, i);
    FullClimbIsUnique(parents, chain[i..], ChainOf(parents, chain[i]));
  }

  lemma EndOfAClimb(parents: Parents, s: seq<string>, i: nat)
    requires IsFullClimb(parents, s) && i < |s|
    requires var end := Up(parents, s[|s| - 1]); end.Some? ==> end.value == s[|s| - 1]
    ensures IsFullClimb(parents, s[i..])
  {
    hide Up;
    var rest := s[i..];
    assert rest[|rest| - 1] == s[|s| - 1];
  }

  /** Without a cycle, a chain that meets itself is one whose last category is its own parent. */
  lemma AboveTheLast(parents: Parents, id: string)
    requires id in parents && NoCycle(parents)
    ensures var chain := ChainOf(parents, id);
            chain != [] && var end := Up(parents, chain[|chain| - 1]); end.Some? ==> end.value == chain[|chain| - 1]
  {
    var chain := ChainOf(parents, id);
    ChainClimbs(parents, id);
    var last := |chain| - 1;
    var end := Up(parents, chain[last]);
    if end.Some? {
      var k :| 0 <= k <= last && chain[k] == end.value;
      OneAboveTheOther(parents, id, k, last);
      assert Ancestor(parents, chain[last], 0) == Some(chain[last]) && Ancestor(parents, chain[last], 1) == end;
      assert chain[k] == chain[last];
    }
  }

  ghost predicate IsEnd(short: seq<string>, long: seq<string>) {
    |short| <= |long| && long[|long| - |short|..] == short
  }

  /** The chain of one category ends in the chain of another only if the other is itself or an ancestor; and,
      without a cycle, whenever it is. */
  lemma EndsMeanAncestors(parents: Parents, g: string, c: string)
    requires g in parents && c in parents
    ensures IsEnd(ChainOf(parents, g), ChainOf(parents, c)) ==> IsSelfOrAncestor(parents, g, c)
    ensures NoCycle(parents) && IsSelfOrAncestor(parents, g, c) ==> IsEnd(ChainOf(parents, g), ChainOf(parents, c))
  {
    var above, below := ChainOf(parents, g), ChainOf(parents, c);
    ChainClimbs(parents, g);
    ChainIsSelfAndAncestors(parents, g, c);
    if IsEnd(above, below) {
      assert below[|below| - |above|] == g;
    }
    if NoCycle(parents) && g in below {
      var i :| 0 <= i < |below| && below[i] == g;
      ChainEndsInAncestorsChain(parents, c, i);
    }
  }

  // ---- Paths as text -------------------------------------------------------------------

  /** No identifier, closed by a separator, begins another. */
  ghost predicate PrefixFree(ids: set<string>) {
    forall x, y :: x in ids && y in ids && x != y ==> !(x + [PATH_SEPARATOR] <= y)
  }

  lemma ClosedHoldsSeparator(x: string, y: string)
    ensures x + [PATH_SEPARATOR] <= y ==> PATH_SEPARATOR in y
  {
    if x + [PATH_SEPARATOR] <= y { assert y[|x|] == PATH_SEPARATOR; }
  }

  /** Identifiers without a separator are prefix-free. */
  lemma SeparatorFreeIsPrefixFree(ids: set<string>)
    requires forall id :: id in ids ==> PATH_SEPARATOR !in id
    ensures PrefixFree(ids)
  {
    forall x, y | x in ids && y in ids ensures !(x + [PATH_SEPARATOR] <= y) {
      ClosedHoldsSeparator(x, y);
    }
  }

  /** The path itself, or the path followed by a separator. */
  ghost predicate Under(path: string, other: string) {
    other == path || path + [PATH_SEPARATOR] <= other
  }

  /** Components, each closed by a separator. */
  function Closed(parts: seq<string>): string {
    if parts == [] then "" else parts[0] + [PATH_SEPARATOR] + Closed(parts[1..])
  }

  lemma {:induction false} JoinClosed(parts: seq<string>)
    requires parts != []
    ensures Join(parts) + [PATH_SEPARATOR] == Closed(parts)
  {
    if |parts| > 1 {
      JoinClosed(parts[1..]);
      assert Join(parts) + [PATH_SEPARATOR] == parts[0] + [PATH_SEPARATOR] + (Join(parts[1..]) + [PATH_SEPARATOR]);
    }
  }

  lemma UnderIsClosedPrefix(p: string, q: string)
    ensures Under(p, q) <==> p + [PATH_SEPARATOR] <= q + [PATH_SEPARATOR]
  {
    var r, s := p + [PATH_SEPARATOR], q + [PATH_SEPARATOR];
    if r <= s {
      if |p| == |q| {
        assert p == r[..|p|] == s[..|p|] == q;
      } else {
        assert r == s[..|r|] == q[..|r|];
      }
    }
    if r <= q { assert r == q[..|r|] == s[..|r|]; }
  }

  lemma ShorterBegins(x: string, y: string, whole: string)
    requires x + [PATH_SEPARATOR] <= whole && y + [PATH_SEPARATOR] <= whole && |x| < |y|
    ensures x + [PATH_SEPARATOR] <= y
  {
    var p, q := x + [PATH_SEPARATOR], y + [PATH_SEPARATOR];
    assert p == whole[..|p|] == whole[..|q|][..|p|] == q[..|p|] == y[..|p|];
  }

  /** Of two identifiers that begin one text, each closed, the shorter would begin the longer. */
  lemma NotShorter(ids: set<string>, x: string, y: string, whole: string)
    requires PrefixFree(ids) && x in ids && y in ids
    requires x + [PATH_SEPARATOR] <= whole && y + [PATH_SEPARATOR] <= whole
    ensures |x| >= |y|
  {
    if |x| < |y| { ShorterBegins(x, y, whole); }
  }

  lemma SameHead(ids: set<string>, x: string, s: string, y: string, t: string)
    requires PrefixFree(ids) && x in ids && y in ids
    requires x + [PATH_SEPARATOR] + s <= y + [PATH_SEPARATOR] + t
    ensures x == y && s <= t
  {
    var whole := y + [PATH_SEPARATOR] + t;
    var p, q := x + [PATH_SEPARATOR], y + [PATH_SEPARATOR];
    assert p == (p + s)[..|p|] == whole[..|p|] && q == whole[..|q|];
    NotShorter(ids, x, y, whole);
    NotShorter(ids, y, x, whole);
    assert x == p[..|x|] && y == q[..|y|];
    assert s == (p + s)[|p|..] && t == whole[|q|..];
  }

  lemma {:induction false} ClosedPrefix(ids: set<string>, a: seq<string>, b: seq<string>)
    requires PrefixFree(ids) && (forall x :: x in a ==> x in ids) && (forall x :: x in b ==> x in ids)
    ensures Closed(a) <= Closed(b) <==> a <= b
    decreases |a|
  {
    if a != [] && b != [] {
      var x, y := a[0], b[0];
      assert x in ids && y in ids && a == [x] + a[1..] && b == [y] + b[1..];
      ClosedPrefix(ids, a[1..], b[1..]);
      if Closed(a) <= Closed(b) { SameHead(ids, x, Closed(a[1..]), y, Closed(b[1..])); }
      if a <= b { HeadAndRest(x, Closed(a[1..]), Closed(b[1..])); }
    }
  }

  lemma HeadAndRest(x: string, s: string, t: string)
    requires s <= t
    ensures x + [PATH_SEPARATOR] + s <= x + [PATH_SEPARATOR] + t
  {
    assert x + [PATH_SEPARATOR] + t == x + [PATH_SEPARATOR] + s + t[|s|..];
  }

  lemma UnderMeansPrefix(ids: set<string>, a: seq<string>, b: seq<string>)
    requires PrefixFree(ids) && (forall x :: x in a ==> x in ids) && (forall x :: x in b ==> x in ids)
    requires a != [] && b != []
    ensures Under(Join(a), Join(b)) <==> a <= b
  {
    JoinClosed(a);
    JoinClosed(b);
    UnderIsClosedPrefix(Join(a), Join(b));
    ClosedPrefix(ids, a, b);
  }

  lemma ReversedPrefixIsEnd(s: seq<string>, t: seq<string>)
    ensures Reverse(s) <= Reverse(t) <==> IsEnd(s, t)
  {
    var r, u := Reverse(s), Reverse(t);
    if r <= u {
      forall i | 0 <= i < |s| ensures t[|t| - |s| + i] == s[i] {
        assert r[|s| - 1 - i] == u[|s| - 1 - i];
      }
    }
    if IsEnd(s, t) {
      forall i | 0 <= i < |s| ensures r[i] == u[i] {
        assert t[|t| - |s|..][|s| - 1 - i] == s[|s| - 1 - i];
      }
    }
  }

  // ---- The subtree filter ---------------------------------------------------------------

  /** The condition a listing selects the categories of a subtree by. */
  predicate InSubtreeOf(path: string, candidate: string) {
    candidate == path || Matches(candidate, EscapeLike(path) + [PATH_SEPARATOR, '%'])
  }

  /** Whatever the identifiers contain, the pattern is a legal one and stands for its path and nothing else. */
  lemma SubtreeIsUnder(path: string, candidate: string)
    ensures InSubtreeOf(path, candidate) <==> Under(path, candidate)
    ensures IsPattern(EscapeLike(path) + [PATH_SEPARATOR, '%'])
  {
    var rest := [PATH_SEPARATOR, '%'];
    EscapedIsLiteral(candidate, path, rest);
    assert rest[1..] == "%" && rest[1..][1..] == "";
    assert IsPattern("") && IsPattern("%") && IsPattern(rest);
    if path <= candidate {
      var tail := candidate[|path|..];
      if tail != "" { AnythingMatchesPercent(tail[1..]); }
      assert candidate == path + tail;
      assert path + [PATH_SEPARATOR] <= candidate <==> tail != "" && tail[0] == PATH_SEPARATOR;
    }
  }

  lemma SubtreeMeansEnd(parents: Parents, g: string, c: string)
    requires PrefixFree(parents.Keys) && g in parents && c in parents
    ensures InSubtreeOf(PathOf(parents, g), PathOf(parents, c)) <==> IsEnd(ChainOf(parents, g), ChainOf(parents, c))
  {
    var above, below := ChainOf(parents, g), ChainOf(parents, c);
    ChainClimbs(parents, g);
    ChainClimbs(parents, c);
    SubtreeIsUnder(PathOf(parents, g), PathOf(parents, c));
    UnderMeansPrefix(parents.Keys, Reverse(above), Reverse(below));
    ReversedPrefixIsEnd(above, below);
  }

  /** Whatever the filter for a category selects descends from it. */
  ghost predicate SelectsOnlyDescendants(parents: Parents) {
    forall g, c :: g in parents && c in parents && InSubtreeOf(PathOf(parents, g), PathOf(parents, c)) ==>
                     IsSelfOrAncestor(parents, g, c)
  }

  /** The filter for a category selects exactly what descends from it. */
  ghost predicate SelectsDescendants(parents: Parents) {
    forall g, c :: g in parents && c in parents ==>
                     (InSubtreeOf(PathOf(parents, g), PathOf(parents, c)) <==> IsSelfOrAncestor(parents, g, c))
  }

  /** Within one snapshot with prefix-free identifiers the filter never selects anything but descendants, and
      it selects all of them for every category exactly when no two are each other's ancestors. */
  lemma SubtreeMeansDescent(parents: Parents)
    requires PrefixFree(parents.Keys)
    ensures SelectsOnlyDescendants(parents)
    ensures NoCycle(parents) <==> SelectsDescendants(parents)
  {
    forall g, c | g in parents && c in parents
      ensures InSubtreeOf(PathOf(parents, g), PathOf(parents, c)) ==> IsSelfOrAncestor(parents, g, c)
      ensures NoCycle(parents) && IsSelfOrAncestor(parents, g, c) ==>
              InSubtreeOf(PathOf(parents, g), PathOf(parents, c))
    {
      SubtreeMeansEnd(parents, g, c);
      EndsMeanAncestors(parents, g, c);
    }
    if SelectsDescendants(parents) {
      forall x, y | x in parents && y in parents && IsSelfOrAncestor(parents, x, y) && IsSelfOrAncestor(parents, y, x)
        ensures x == y
      {
        SubtreeMeansEnd(parents, x, y);
        SubtreeMeansEnd(parents, y, x);
        ChainClimbs(parents, x);
        ChainClimbs(parents, y);
        assert ChainOf(parents, x) == ChainOf(parents, y)[0..];
      }
    }
  }

  /** A path made of identifiers, whichever snapshot they come from, that ends in its own. */
  ghost predicate IsPathOf(ids: set<string>, id: string, path: string) {
    exists parts: seq<string> :: IsSpelled(ids, id, path, parts)
  }

  ghost predicate IsSpelled(ids: set<string>, id: string, path: string, parts: seq<string>) {
    && parts != [] && parts[|parts| - 1] == id && Join(parts) == path
    && forall x :: x in parts ==> x in ids
  }

  lemma PathsAreSpelled(parents: Parents, ids: set<string>, id: string)
    requires id in parents && parents.Keys <= ids
    ensures IsPathOf(ids, id, PathOf(parents, id))
  {
    Components(parents, id);
    assert IsSpelled(ids, id, PathOf(parents, id), Reverse(ChainOf(parents, id)));
  }

  /** A category that stands where the snapshot puts it is listed under a path exactly when that path is the
      snapshot's own path of one of its ancestors. */
  lemma ListedUnder(parents: Parents, ids: set<string>, g: string, path: string, c: string)
    requires NoCycle(parents) && PrefixFree(ids) && parents.Keys <= ids && g in parents && c in parents
    requires IsPathOf(ids, g, path)
    ensures InSubtreeOf(path, PathOf(parents, c)) <==> IsSelfOrAncestor(parents, g, c) && path == PathOf(parents, g)
  {
    hide IsSelfOrAncestor, NoCycle, InSubtreeOf, PrefixFree, Under;
    var parts :| IsSpelled(ids, g, path, parts);
    Components(parents, c);
    SubtreeIsUnder(path, PathOf(parents, c));
    Components(parents, g);
    UnderMeansPrefix(ids, parts, Reverse(ChainOf(parents, c)));
    UnderMeansPrefix(ids, Reverse(ChainOf(parents, g)), Reverse(ChainOf(parents, c)));
    BeginsAPath(parents, g, parts, c);
  }

  /** What a path is joined from. */
  lemma Components(parents: Parents, id: string)
    requires id in parents
    ensures var parts := Reverse(ChainOf(parents, id));
            && parts != [] && parts[|parts| - 1] == id && PathOf(parents, id) == Join(parts)
            && (forall x :: x in parts ==> x in parents)
            && (forall i, j :: 0 <= i < j < |parts| ==> parts[i] != parts[j])
  {
    ChainClimbs(parents, id);
  }

  /** What begins a path and ends in a category is that category's own path, and it is an ancestor. */
  lemma BeginsAPath(parents: Parents, g: string, parts: seq<string>, c: string)
    requires NoCycle(parents) && g in parents && c in parents && parts != [] && parts[|parts| - 1] == g
    ensures parts <= Reverse(ChainOf(parents, c)) ==>
              IsSelfOrAncestor(parents, g, c) && Join(parts) == PathOf(parents, g)
    ensures IsSelfOrAncestor(parents, g, c) ==> Reverse(ChainOf(parents, g)) <= Reverse(ChainOf(parents, c))
  {
    hide NoCycle, IsSelfOrAncestor, ChainOf, Join;
    var above, below := Reverse(ChainOf(parents, g)), Reverse(ChainOf(parents, c));
    Components(parents, g);
    Components(parents, c);
    ReversedPrefixIsEnd(ChainOf(parents, g), ChainOf(parents, c));
    EndsMeanAncestors(parents, g, c);
    ChainIsSelfAndAncestors(parents, g, c);
    if parts <= below {
      var chain := ChainOf(parents, c);
      assert below[|parts| - 1] == g && chain[|chain| - |parts|] == g;
      SameEnd(above, parts, below);
    }
  }

  lemma SameEnd(a: seq<string>, b: seq<string>, whole: seq<string>)
    requires a != [] && b != [] && a <= whole && b <= whole && a[|a| - 1] == b[|b| - 1]
    requires forall i, j :: 0 <= i < j < |whole| ==> whole[i] != whole[j]
    ensures a == b
  {
    assert whole[|a| - 1] == whole[|b| - 1];
    assert a == whole[..|a|] && b == whole[..|b|];
  }

  lemma {:induction false} JoinAppended(parts: seq<string>, last: string)
    requires parts != []
    ensures Join(parts + [last]) == Join(parts) + [PATH_SEPARATOR] + last
  {
    if |parts| == 1 {
      assert (parts + [last])[1..] == [last];
    } else {
      JoinAppended(parts[1..], last);
      assert (parts + [last])[1..] == parts[1..] + [last];
    }
  }

  /** Without a cycle a path is its parent's path with one more component, and a root's path is its id. */
  lemma PathsAreRecursive(parents: Parents, id: string)
    requires id in parents && NoCycle(parents)
    ensures var up := Up(parents, id);
            PathOf(parents, id) == if up.None? || up.value == id then id
            else PathOf(parents, up.value) + [PATH_SEPARATOR] + id
  {
    var chain := ChainOf(parents, id);
    var up := Up(parents, id);
    ChainClimbs(parents, id);
    if |chain| == 1 {
      assert Reverse(chain) == [id];
    } else {
      ChainEndsInAncestorsChain(parents, id, 1);
      assert chain == [id] + chain[1..] && Reverse(chain) == Reverse(chain[1..]) + [id];
      JoinAppended(Reverse(chain[1..]), id);
      assert chain[0] != chain[1];
    }
  }

  /** Going up lowers the rank, by one step at least. */
  lemma {:induction false} RankFalls(parents: Parents, rank: string -> nat, id: string, steps: nat)
    requires forall x :: x in parents && Up(parents, x).Some? ==> rank(Up(parents, x).value) < rank(x)
    requires Ancestor(parents, id, steps).Some?
    ensures rank(Ancestor(parents, id, steps).value) + steps <= rank(id)
  {
    if steps > 0 {
      RankFalls(parents, rank, id, steps - 1);
    }
  }

  /** A snapshot whose categories can be ranked has no cycle. */
  lemma RankedHasNoCycle(parents: Parents, rank: string -> nat)
    requires forall x :: x in parents && Up(parents, x).Some? ==> rank(Up(parents, x).value) < rank(x)
    ensures NoCycle(parents)
  {
    forall x, y | x in parents && y in parents && IsSelfOrAncestor(parents, x, y) && IsSelfOrAncestor(parents, y, x)
      ensures x == y
    {
      var m: nat :| Ancestor(parents, y, m) == Some(x);
      var n: nat :| Ancestor(parents, x, n) == Some(y);
      RankFalls(parents, rank, y, m);
      RankFalls(parents, rank, x, n);
    }
  }

  lemma ParentIsAncestor(parents: Parents, id: string)
    requires Up(parents, id).Some?
    ensures IsSelfOrAncestor(parents, Up(parents, id).value, id)
  {
    assert Ancestor(parents, id, 0) == Some(id) && Ancestor(parents, id, 1) == Up(parents, id);
  }

  /** Two roots of which the first, closed, begins the second: the filter for the first takes in the second. */
  lemma TwoRootsLeak(x: string, y: string)
    requires x != y && x + [PATH_SEPARATOR] <= y
    ensures !SelectsOnlyDescendants(map[x := None, y := None])
  {
    var parents: Parents := map[x := None, y := None];
    RootPath(parents, x);
    RootPath(parents, y);
    SubtreeIsUnder(PathOf(parents, x), PathOf(parents, y));
    ChainIsSelfAndAncestors(parents, x, y);
  }

  lemma RootPath(parents: Parents, id: string)
    requires id in parents && parents[id].None?
    ensures ChainOf(parents, id) == [id] && PathOf(parents, id) == id
  {
    assert Reverse([id]) == [id];
  }

  /** Over a set of identifiers the filter selects only descendants in every snapshot exactly when they are
      prefix-free: a separator in an identifier is harmless until the part before it is an identifier too. */
  lemma SeparatorsInIdentifiersLeak(ids: set<string>)
    ensures (forall parents: Parents :: parents.Keys <= ids ==> SelectsOnlyDescendants(parents)) <==> PrefixFree(ids)
  {
    if PrefixFree(ids) {
      forall parents: Parents | parents.Keys <= ids ensures SelectsOnlyDescendants(parents) {
        SubtreeMeansDescent(parents);
      }
    } else {
      var x, y :| x in ids && y in ids && x != y && x + [PATH_SEPARATOR] <= y;
      TwoRootsLeak(x, y);
      var roots: Parents := map[x := None, y := None];
      assert roots.Keys <= ids;
    }
  }
}
