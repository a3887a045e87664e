/** What the forest built in place looks like. */
module CategoryForest {
  import opened Wrappers
  import opened CategoryTree

  // ---- The heap, read as trees

  predicate AllIn(ns: seq<Node>, all: set<Node>) {
    forall i :: 0 <= i < |ns| ==> ns[i] in all
  }

  ghost predicate Closed(all: set<Node>)
    reads all
  {
    forall n :: n in all ==> AllIn(n.children, all)
  }

  lemma TailIn(ns: seq<Node>, all: set<Node>)
    requires AllIn(ns, all) && ns != []
    ensures ns[0] in all && AllIn(ns[1..], all)
  {
  }

  /** The trees below the given nodes, cut off below `depth` levels. */
  ghost function Shape(tops: seq<Node>, all: set<Node>, depth: nat): seq<Tree>
    requires Closed(all) && AllIn(tops, all)
    reads all
    decreases depth, |tops|
  {
    if depth == 0 || tops == [] then []
    else
      TailIn(tops, all);
      [Tree(tops[0].id, tops[0].name, tops[0].slug, Shape(tops[0].children, all, depth - 1))]
      + Shape(tops[1..], all, depth)
  }

  predicate From(tops: seq<Row>, rows: seq<Row>) {
    forall i :: 0 <= i < |tops| ==> tops[i] in rows
  }

  lemma TailFrom(tops: seq<Row>, rows: seq<Row>)
    requires From(tops, rows) && tops != []
    ensures tops[0] in rows && From(tops[1..], rows)
  {
  }

  /** What the construction leaves behind. */
  ghost predicate Built(rows: seq<Row>, language: string, nodes: map<int, Node>)
    reads nodes.Values
  {
    && (forall r :: r in rows ==> BuiltFor(rows, language, nodes, r))
    && Closed(nodes.Values)
  }

  ghost predicate BuiltFor(rows: seq<Row>, language: string, nodes: map<int, Node>, r: Row)
    reads nodes.Values
  {
    && r.id in nodes && LabelledFrom(nodes[r.id], r, language)
    && Known(nodes, ChildRows(rows, r.id)) && nodes[r.id].children == NodesOf(nodes, ChildRows(rows, r.id))
  }

  lemma NodesOfIn(nodes: map<int, Node>, tops: seq<Row>)
    requires Known(nodes, tops)
    ensures AllIn(NodesOf(nodes, tops), nodes.Values)
  {
  }

  lemma WiredIsBuilt(rows: seq<Row>, language: string, nodes: map<int, Node>)
    requires Labelled(rows, language, nodes) && Wired(rows, nodes, |rows|)
    ensures Built(rows, language, nodes)
  {
    assert rows[..|rows|] == rows;
    forall r | r in rows
      ensures BuiltFor(rows, language, nodes, r)
    {
      var i :| 0 <= i < |rows| && rows[i] == r;
      assert WiredAt(rows, nodes, |rows|, r.id);
    }
    forall n | n in nodes.Values
      ensures AllIn(n.children, nodes.Values)
    {
      var p :| p in nodes && nodes[p] == n;
      assert WiredAt(rows, nodes, |rows|, p);
      NodesOfIn(nodes, ChildRows(rows, p));
    }
  }

  lemma FromIsKnown(rows: seq<Row>, language: string, nodes: map<int, Node>, tops: seq<Row>)
    requires Built(rows, language, nodes) && From(tops, rows)
    ensures Known(nodes, tops) && AllIn(NodesOf(nodes, tops), nodes.Values)
  {
    forall i | 0 <= i < |tops|
      ensures tops[i].id in nodes
    {
      assert BuiltFor(rows, language, nodes, tops[i]);
    }
  }

  lemma ChildrenAreRows(rows: seq<Row>, p: int)
    ensures From(ChildRows(rows, p), rows)
  {
    PickedRows(rows, p, {});
    assert forall i :: 0 <= i < |ChildRows(rows, p)| ==> ChildRows(rows, p)[i] in ChildRows(rows, p);
  }

  /** The first tree of a shape. */
  lemma ShapeStep(rows: seq<Row>, language: string, nodes: map<int, Node>, tops: seq<Row>, depth: nat)
    requires Closed(nodes.Values) && depth > 0 && tops != [] && BuiltFor(rows, language, nodes, tops[0])
    requires Known(nodes, tops) && Known(nodes, tops[1..])
    requires AllIn(NodesOf(nodes, tops), nodes.Values) && AllIn(NodesOf(nodes, tops[1..]), nodes.Values)
    requires AllIn(NodesOf(nodes, ChildRows(rows, tops[0].id)), nodes.Values)
    ensures Shape(NodesOf(nodes, tops), nodes.Values, depth)
              == [Tree(tops[0].id, LocalizedCategoryName(tops[0], language), tops[0].slug,
                       Shape(NodesOf(nodes, ChildRows(rows, tops[0].id)), nodes.Values, depth - 1))]
                 + Shape(NodesOf(nodes, tops[1..]), nodes.Values, depth)
  {
    assert NodesOf(nodes, tops)[1..] == NodesOf(nodes, tops[1..]);
  }

  lemma {:induction false} ShapeIsNaive(rows: seq<Row>, language: string, nodes: map<int, Node>, tops: seq<Row>,
                                        depth: nat)
    requires Built(rows, language, nodes) && From(tops, rows)
    ensures Known(nodes, tops) && AllIn(NodesOf(nodes, tops), nodes.Values)
    ensures Shape(NodesOf(nodes, tops), nodes.Values, depth) == Naive(rows, language, tops, depth)
    decreases depth, |tops|
  {
    FromIsKnown(rows, language, nodes, tops);
    if depth > 0 && tops != [] {
      TailFrom(tops, rows);
      ChildrenAreRows(rows, tops[0].id);
      ShapeIsNaive(rows, language, nodes, ChildRows(rows, tops[0].id), depth - 1);
      ShapeIsNaive(rows, language, nodes, tops[1..], depth);
      assert BuiltFor(rows, language, nodes, tops[0]);
      ShapeStep(rows, language, nodes, tops, depth);
    }
  }

  /** The forest built in place is the naive recursive definition, to every depth. */
  lemma ForestIsNaive(rows: seq<Row>, language: string, nodes: map<int, Node>, roots: seq<Node>, depth: nat)
    requires Labelled(rows, language, nodes) && Wired(rows, nodes, |rows|)
    requires Known(nodes, RootRows(rows, Ids(rows))) && roots == NodesOf(nodes, RootRows(rows, Ids(rows)))
    ensures Closed(nodes.Values) && AllIn(roots, nodes.Values)
    ensures Shape(roots, nodes.Values, depth) == NaiveForest(rows, language, depth)
  {
    WiredIsBuilt(rows, language, nodes);
    RootsAreRows(rows);
    ShapeIsNaive(rows, language, nodes, RootRows(rows, Ids(rows)), depth);
  }

  lemma RootsAreRows(rows: seq<Row>)
    ensures From(RootRows(rows, Ids(rows)), rows)
  {
    var roots := RootRows(rows, Ids(rows));
    PickedRows(rows, 0, Ids(rows));
    assert forall i :: 0 <= i < |roots| ==> roots[i] in roots;
  }

  // ---- How often a category appears

  function Count(ts: seq<Tree>, id: int): nat {
    if ts == [] then 0
    else (if ts[0].id == id then 1 else 0) + Count(ts[0].children, id) + Count(ts[1..], id)
  }

  function RowOf(rows: seq<Row>, id: int): (r: Option<Row>)
    ensures r.None? ==> forall i :: 0 <= i < |rows| ==> rows[i].id != id
    ensures r.Some? ==> r.value in rows && r.value.id == id
  {
    if rows == [] then None
    else if rows[|rows| - 1].id == id then Some(rows[|rows| - 1])
    else RowOf(rows[..|rows| - 1], id)
  }

  /** The category one level up, if it is among the rows. */
  function Parent(rows: seq<Row>, id: int): Option<int> {
    match RowOf(rows, id)
    case None => None
    case Some(r) => if r.parent.Some? && r.parent.value in Ids(rows) then r.parent else None
  }

  /** The category `n` levels up. */
  function Up(rows: seq<Row>, id: int, n: nat): Option<int> {
    if n == 0 then Some(id)
    else
      match Up(rows, id, n - 1)
      case None => None
      case Some(p) => Parent(rows, p)
  }

  /** On how many of the first `depth` levels above `id`, itself included, a category of `s` stands. */
  function Hits(rows: seq<Row>, s: set<int>, id: int, depth: nat): nat {
    if depth == 0 then 0
    else
      var up := Up(rows, id, depth - 1);
      Hits(rows, s, id, depth - 1) + (if up.Some? && up.value in s then 1 else 0)
  }

  lemma {:induction false} HitsOfUnion(rows: seq<Row>, a: set<int>, b: set<int>, id: int, depth: nat)
    requires a !! b
    ensures Hits(rows, a + b, id, depth) == Hits(rows, a, id, depth) + Hits(rows, b, id, depth)
  {
    if depth > 0 {
      HitsOfUnion(rows, a, b, id, depth - 1);
    }
  }

  lemma {:induction false} HitsOfNone(rows: seq<Row>, id: int, depth: nat)
    ensures Hits(rows, {}, id, depth) == 0
  {
    if depth > 0 {
      HitsOfNone(rows, id, depth - 1);
    }
  }

  lemma RowIsUnique(rows: seq<Row>, r: Row)
    requires DistinctIds(rows) && r in rows
    ensures RowOf(rows, r.id) == Some(r)
  {
    var i :| 0 <= i < |rows| && rows[i] == r;
    var found := RowOf(rows, r.id);
    var j :| 0 <= j < |rows| && rows[j] == found.value;
  }

  /** A category stands `n + 1` levels up exactly if one of its children stands `n` levels up. */
  lemma ParentIsAbove(rows: seq<Row>, p: int, id: int)
    requires DistinctIds(rows) && p in Ids(rows)
    ensures Parent(rows, id) == Some(p) <==> id in Ids(ChildRows(rows, p))
  {
    PickedRows(rows, p, {});
    var children := ChildRows(rows, p);
    if Parent(rows, id) == Some(p) {
      var r := RowOf(rows, id).value;
      assert r in children;
      var i :| 0 <= i < |children| && children[i] == r;
    }
    if id in Ids(children) {
      var i :| 0 <= i < |children| && children[i].id == id;
      assert children[i] in children;
      RowIsUnique(rows, children[i]);
    }
  }

  lemma {:induction false} HitsOneUp(rows: seq<Row>, p: int, id: int, depth: nat)
    requires DistinctIds(rows) && p in Ids(rows) && depth > 0
    ensures Hits(rows, {p}, id, depth)
              == (if id == p then 1 else 0) + Hits(rows, Ids(ChildRows(rows, p)), id, depth - 1)
  {
    if depth > 1 {
      HitsOneUp(rows, p, id, depth - 1);
      var up := Up(rows, id, depth - 2);
      if up.Some? {
        ParentIsAbove(rows, p, up.value);
      }
    } else {
      assert Hits(rows, {p}, id, 0) == 0;
    }
  }

  /** Rows picked from `rows` and one more. */
  lemma StillDistinct(picked: seq<Row>, rows: seq<Row>, last: Row)
    requires DistinctIds(picked) && DistinctIds(rows + [last]) && forall r :: r in picked ==> r in rows
    ensures DistinctIds(picked + [last])
  {
    forall i | 0 <= i < |picked|
      ensures picked[i].id != last.id
    {
      assert picked[i] in rows;
      var k :| 0 <= k < |rows| && rows[k] == picked[i];
      assert (rows + [last])[k].id != (rows + [last])[|rows|].id;
    }
  }

  lemma {:induction false} ChildRowsDistinct(rows: seq<Row>, p: int, ids: set<int>)
    requires DistinctIds(rows)
    ensures DistinctIds(ChildRows(rows, p)) && DistinctIds(RootRows(rows, ids))
  {
    if rows != [] {
      var before, last := rows[..|rows| - 1], rows[|rows| - 1];
      ChildRowsDistinct(before, p, ids);
      PickedRows(before, p, ids);
      assert before + [last] == rows;
      StillDistinct(ChildRows(before, p), before, last);
      StillDistinct(RootRows(before, ids), before, last);
    }
  }

  /** A category appears in the trees of some rows once for each time one of them stands above it. */
  lemma {:induction false} CountIsHits(rows: seq<Row>, language: string, tops: seq<Row>, id: int, depth: nat)
    requires DistinctIds(rows) && DistinctIds(tops) && forall i :: 0 <= i < |tops| ==> tops[i] in rows
    ensures Count(Naive(rows, language, tops, depth), id) == Hits(rows, Ids(tops), id, depth)
    decreases depth, |tops|
  {
    if tops == [] {
      HitsOfNone(rows, id, depth);
      assert Ids(tops) == {};
    } else if depth > 0 {
      var r, rest := tops[0], tops[1..];
      var children := ChildRows(rows, r.id);
      PickedRows(rows, r.id, {});
      ChildRowsDistinct(rows, r.id, {});
      assert forall i :: 0 <= i < |children| ==> children[i] in rows;
      CountIsHits(rows, language, children, id, depth - 1);
      CountIsHits(rows, language, rest, id, depth);
      assert r.id in Ids(rows);
      HitsOneUp(rows, r.id, id, depth);
      SplitIds(tops);
      HitsOfUnion(rows, {r.id}, Ids(rest), id, depth);
      CountHead(rows, language, tops, id, depth);
    }
  }

  lemma SplitIds(tops: seq<Row>)
    requires DistinctIds(tops) && tops != []
    ensures Ids(tops) == {tops[0].id} + Ids(tops[1..]) && {tops[0].id} !! Ids(tops[1..])
  {
    forall i | 0 <= i < |tops|
      ensures tops[i].id in {tops[0].id} + Ids(tops[1..])
    {
      assert i > 0 ==> tops[1..][i - 1] == tops[i];
    }
  }

  lemma CountHead(rows: seq<Row>, language: string, tops: seq<Row>, id: int, depth: nat)
    requires depth > 0 && tops != []
    ensures Count(Naive(rows, language, tops, depth), id)
              == (if tops[0].id == id then 1 else 0)
                 + Count(Naive(rows, language, ChildRows(rows, tops[0].id), depth - 1), id)
                 + Count(Naive(rows, language, tops[1..], depth), id)
  {
    var all := Naive(rows, language, tops, depth);
    assert all[1..] == Naive(rows, language, tops[1..], depth);
  }

  // ---- Exactly once

  ghost predicate BelowRoot(rows: seq<Row>, id: int, depth: nat) {
    exists n: nat :: n < depth && ReachesRoot(rows, id, n)
  }

  predicate ReachesRoot(rows: seq<Row>, id: int, n: nat) {
    Up(rows, id, n).Some? && Up(rows, id, n).value in Ids(RootRows(rows, Ids(rows)))
  }

  lemma RootHasNoParent(rows: seq<Row>, p: int)
    requires DistinctIds(rows) && p in Ids(rows)
    ensures p in Ids(RootRows(rows, Ids(rows))) <==> Parent(rows, p).None?
  {
    var roots := RootRows(rows, Ids(rows));
    PickedRows(rows, 0, Ids(rows));
    var i :| 0 <= i < |rows| && rows[i].id == p;
    RowIsUnique(rows, rows[i]);
    if Parent(rows, p).None? {
      assert rows[i] in roots;
      var k :| 0 <= k < |roots| && roots[k] == rows[i];
    }
    if p in Ids(roots) {
      var k :| 0 <= k < |roots| && roots[k].id == p;
      assert roots[k] in roots;
      RowIsUnique(rows, roots[k]);
    }
  }

  lemma {:induction false} UpStaysInside(rows: seq<Row>, id: int, n: nat)
    requires id in Ids(rows)
    ensures Up(rows, id, n).Some? ==> Up(rows, id, n).value in Ids(rows)
  {
    if n > 0 {
      UpStaysInside(rows, id, n - 1);
    }
  }

  lemma {:induction false} NothingAboveRoot(rows: seq<Row>, id: int, n: nat, m: nat)
    requires DistinctIds(rows) && id in Ids(rows) && ReachesRoot(rows, id, n) && n < m
    ensures Up(rows, id, m).None?
  {
    if m == n + 1 {
      UpStaysInside(rows, id, n);
      RootHasNoParent(rows, Up(rows, id, n).value);
    } else {
      NothingAboveRoot(rows, id, n, m - 1);
    }
  }

  lemma {:induction false} HitsRoots(rows: seq<Row>, id: int, depth: nat)
    requires DistinctIds(rows) && id in Ids(rows)
    ensures Hits(rows, Ids(RootRows(rows, Ids(rows))), id, depth) == if BelowRoot(rows, id, depth) then 1 else 0
  {
    if depth > 0 {
      HitsRoots(rows, id, depth - 1);
      if BelowRoot(rows, id, depth - 1) {
        var n: nat :| n < depth - 1 && ReachesRoot(rows, id, n);
        NothingAboveRoot(rows, id, n, depth - 1);
      } else if ReachesRoot(rows, id, depth - 1) {
        assert BelowRoot(rows, id, depth);
      }
    }
  }

  /** Cut off at any depth, the forest shows an active category once if it is nearer than that to a root,
    * and otherwise not at all: never twice.
    */
  lemma AppearsOnceOrNever(rows: seq<Row>, language: string, id: int, depth: nat)
    requires DistinctIds(rows) && id in Ids(rows)
    ensures Count(NaiveForest(rows, language, depth), id) == if BelowRoot(rows, id, depth) then 1 else 0
  {
    var roots := RootRows(rows, Ids(rows));
    PickedRows(rows, 0, Ids(rows));
    ChildRowsDistinct(rows, 0, Ids(rows));
    assert forall i :: 0 <= i < |roots| ==> roots[i] in roots;
    CountIsHits(rows, language, roots, id, depth);
    HitsRoots(rows, id, depth);
  }

  /** The parent relation goes down in some rank. */
  ghost predicate Acyclic(rows: seq<Row>) {
    exists rank: int -> nat :: Ranked(rows, rank)
  }

  ghost predicate Ranked(rows: seq<Row>, rank: int -> nat) {
    forall id :: id in Ids(rows) && Parent(rows, id).Some? ==> rank(Parent(rows, id).value) < rank(id)
  }

  /** The categories of rank at most that of `id`. */
  ghost function UpToRank(rows: seq<Row>, rank: int -> nat, id: int): set<int> {
    set x | x in Ids(rows) && rank(x) <= rank(id)
  }

  lemma {:induction false} UpOfParent(rows: seq<Row>, id: int, p: int, n: nat)
    requires Parent(rows, id) == Some(p)
    ensures Up(rows, id, n + 1) == Up(rows, p, n)
  {
    if n > 0 {
      UpOfParent(rows, id, p, n - 1);
    } else {
      assert Up(rows, id, 0) == Some(id);
    }
  }

  lemma {:induction false} RankBoundsDepth(rows: seq<Row>, rank: int -> nat, id: int)
    requires DistinctIds(rows) && id in Ids(rows) && Ranked(rows, rank)
    ensures BelowRoot(rows, id, |UpToRank(rows, rank, id)|)
    decreases rank(id)
  {
    var mine := UpToRank(rows, rank, id);
    assert id in mine;
    if Parent(rows, id).None? {
      RootHasNoParent(rows, id);
      assert ReachesRoot(rows, id, 0);
    } else {
      var p := Parent(rows, id).value;
      RankBoundsDepth(rows, rank, p);
      SmallerSet(UpToRank(rows, rank, p), mine - {id});
      var n: nat :| n < |UpToRank(rows, rank, p)| && ReachesRoot(rows, p, n);
      UpOfParent(rows, id, p, n);
      assert ReachesRoot(rows, id, n + 1);
    }
  }

  lemma SmallerSet(a: set<int>, b: set<int>)
    requires a <= b
    ensures |a| <= |b|
  {
    assert b == a + (b - a);
  }

  lemma {:induction false} FewIds(rows: seq<Row>)
    ensures |Ids(rows)| <= |rows|
  {
    if rows != [] {
      FewIds(rows[..|rows| - 1]);
      assert Ids(rows) == Ids(rows[..|rows| - 1]) + {rows[|rows| - 1].id};
    } else {
      assert Ids(rows) == {};
    }
  }

  function Depth(rows: seq<Row>, id: int, depth: nat): nat
    decreases depth
  {
    if depth == 0 || Parent(rows, id).None? then 0 else 1 + Depth(rows, Parent(rows, id).value, depth - 1)
  }

  lemma HigherRootHasParent(rows: seq<Row>, id: int, n: nat)
    requires DistinctIds(rows) && id in Ids(rows) && ReachesRoot(rows, id, n) && n > 0
    ensures Parent(rows, id).Some?
  {
    RootHasNoParent(rows, id);
    if Parent(rows, id).None? {
      assert ReachesRoot(rows, id, 0);
      NothingAboveRoot(rows, id, 0, n);
    }
  }

  lemma ParentReachesSooner(rows: seq<Row>, id: int, n: nat)
    requires DistinctIds(rows) && id in Ids(rows) && ReachesRoot(rows, id, n) && Parent(rows, id).Some?
    ensures n > 0 && Parent(rows, id).value in Ids(rows) && ReachesRoot(rows, Parent(rows, id).value, n - 1)
  {
    RootHasNoParent(rows, id);
    UpOfParent(rows, id, Parent(rows, id).value, n - 1);
  }

  lemma {:induction false} DepthIsExact(rows: seq<Row>, id: int, n: nat, depth: nat)
    requires DistinctIds(rows) && id in Ids(rows) && ReachesRoot(rows, id, n) && n <= depth
    ensures Depth(rows, id, depth) == n
    decreases depth
  {
    if n == 0 {
      RootHasNoParent(rows, id);
    } else {
      HigherRootHasParent(rows, id, n);
      ParentReachesSooner(rows, id, n);
      DepthIsExact(rows, Parent(rows, id).value, n - 1, depth - 1);
    }
  }

  lemma ParentIsNearer(rows: seq<Row>, id: int, depth: nat)
    requires DistinctIds(rows) && id in Ids(rows) && Parent(rows, id).Some? && BelowRoot(rows, id, depth)
    ensures Depth(rows, Parent(rows, id).value, depth) < Depth(rows, id, depth)
  {
    var n: nat :| n < depth && ReachesRoot(rows, id, n);
    DepthIsExact(rows, id, n, depth);
    ParentReachesSooner(rows, id, n);
    DepthIsExact(rows, Parent(rows, id).value, n - 1, depth);
  }

  lemma AllBelowRootIsAcyclic(rows: seq<Row>, depth: nat)
    requires DistinctIds(rows) && forall id :: id in Ids(rows) ==> BelowRoot(rows, id, depth)
    ensures Acyclic(rows)
  {
    var rank := id => Depth(rows, id, depth);
    forall id | id in Ids(rows) && Parent(rows, id).Some?
      ensures rank(Parent(rows, id).value) < rank(id)
    {
      ParentIsNearer(rows, id, depth);
    }
    assert Ranked(rows, rank);
  }

  /** Every active category appears exactly once in the forest, unrolled as deep as there are rows, exactly if
    * the parent relation has no cycle.
    */
  lemma EveryCategoryOnceIffAcyclic(rows: seq<Row>, language: string)
    requires DistinctIds(rows)
    ensures (forall id :: id in Ids(rows) ==> Count(NaiveForest(rows, language, |rows|), id) == 1) <==> Acyclic(rows)
  {
    forall id | id in Ids(rows)
      ensures Count(NaiveForest(rows, language, |rows|), id) == if BelowRoot(rows, id, |rows|) then 1 else 0
    {
      AppearsOnceOrNever(rows, language, id, |rows|);
    }
    if Acyclic(rows) {
      var rank :| Ranked(rows, rank);
      forall id | id in Ids(rows)
        ensures BelowRoot(rows, id, |rows|)
      {
        RankBoundsDepth(rows, rank, id);
        SmallerSet(UpToRank(rows, rank, id), Ids(rows));
        FewIds(rows);
        var n: nat :| n < |UpToRank(rows, rank, id)| && ReachesRoot(rows, id, n);
      }
    } else if forall id :: id in Ids(rows) ==> BelowRoot(rows, id, |rows|) {
      AllBelowRootIsAcyclic(rows, |rows|);
    }
  }

  // ---- Deep enough

  /** The categories from `id` up to `n` levels above it. */
  ghost function Line(rows: seq<Row>, id: int, n: nat): set<int>
    decreases n
  {
    if n == 0 || Parent(rows, id).None? then {id} else {id} + Line(rows, Parent(rows, id).value, n - 1)
  }

  ghost predicate NearerThan(rows: seq<Row>, id: int, n: nat) {
    exists m: nat :: m <= n && ReachesRoot(rows, id, m)
  }

  lemma {:induction false} LineIsLong(rows: seq<Row>, id: int, n: nat)
    requires DistinctIds(rows) && id in Ids(rows) && ReachesRoot(rows, id, n)
    ensures |Line(rows, id, n)| == n + 1 && Line(rows, id, n) <= Ids(rows)
    ensures forall x :: x in Line(rows, id, n) ==> NearerThan(rows, x, n)
    decreases n
  {
    assert NearerThan(rows, id, n);
    if n > 0 {
      HigherRootHasParent(rows, id, n);
      ParentReachesSooner(rows, id, n);
      LineIsLong(rows, Parent(rows, id).value, n - 1);
      LineGrows(rows, id, n, Line(rows, Parent(rows, id).value, n - 1));
    }
  }

  /** One category below a line is not on it. */
  lemma LineGrows(rows: seq<Row>, id: int, n: nat, line: set<int>)
    requires DistinctIds(rows) && id in Ids(rows) && ReachesRoot(rows, id, n) && n > 0
    requires forall x :: x in line ==> NearerThan(rows, x, n - 1)
    ensures id !in line && |{id} + line| == |line| + 1
    ensures forall x :: x in line ==> NearerThan(rows, x, n)
  {
    if NearerThan(rows, id, n - 1) {
      var m: nat :| m <= n - 1 && ReachesRoot(rows, id, m);
      NothingAboveRoot(rows, id, m, n);
    }
    forall x | x in line
      ensures NearerThan(rows, x, n)
    {
      var m: nat :| m <= n - 1 && ReachesRoot(rows, x, m);
    }
  }

  lemma LevelBound(rows: seq<Row>, id: int, n: nat)
    requires DistinctIds(rows) && id in Ids(rows) && ReachesRoot(rows, id, n)
    ensures n < |rows|
  {
    LineIsLong(rows, id, n);
    SmallerSet(Line(rows, id, n), Ids(rows));
    FewIds(rows);
  }

  /** These categories all stand `n` levels below a root. */
  ghost predicate AtLevel(rows: seq<Row>, tops: seq<Row>, n: nat) {
    forall i :: 0 <= i < |tops| ==> tops[i] in rows && ReachesRoot(rows, tops[i].id, n)
  }

  lemma ChildrenAtLevel(rows: seq<Row>, top: Row, n: nat)
    requires DistinctIds(rows) && top in rows && ReachesRoot(rows, top.id, n)
    ensures AtLevel(rows, ChildRows(rows, top.id), n + 1)
  {
    var children := ChildRows(rows, top.id);
    PickedRows(rows, top.id, {});
    RowIsUnique(rows, top);
    forall i | 0 <= i < |children|
      ensures children[i] in rows && ReachesRoot(rows, children[i].id, n + 1)
    {
      assert children[i] in children;
      ParentIsAbove(rows, top.id, children[i].id);
      UpOfParent(rows, children[i].id, top.id, n);
    }
  }

  lemma FirstAtLevel(rows: seq<Row>, tops: seq<Row>, n: nat)
    requires DistinctIds(rows) && AtLevel(rows, tops, n) && tops != []
    ensures n < |rows| && AtLevel(rows, tops[1..], n) && AtLevel(rows, ChildRows(rows, tops[0].id), n + 1)
  {
    LevelBound(rows, tops[0].id, n);
    ChildrenAtLevel(rows, tops[0], n);
  }

  /** No chain of categories goes down more than `d` levels from here. */
  predicate Shallow(rows: seq<Row>, tops: seq<Row>, d: nat)
    decreases d, |tops|
  {
    tops == [] || (d > 0 && Shallow(rows, ChildRows(rows, tops[0].id), d - 1) && Shallow(rows, tops[1..], d))
  }

  lemma {:induction false} LevelsAreShallow(rows: seq<Row>, tops: seq<Row>, n: nat, d: nat)
    requires DistinctIds(rows) && AtLevel(rows, tops, n) && n + d >= |rows|
    ensures Shallow(rows, tops, d)
    decreases d, |tops|
  {
    if tops != [] {
      FirstAtLevel(rows, tops, n);
      LevelsAreShallow(rows, ChildRows(rows, tops[0].id), n + 1, d - 1);
      LevelsAreShallow(rows, tops[1..], n, d);
    }
  }

  lemma {:induction false} DepthIsEnough(rows: seq<Row>, language: string, tops: seq<Row>, d: nat, e: nat)
    requires Shallow(rows, tops, d) && d <= e
    ensures Naive(rows, language, tops, d) == Naive(rows, language, tops, e)
    decreases d, |tops|
  {
    if tops != [] {
      DepthIsEnough(rows, language, ChildRows(rows, tops[0].id), d - 1, e - 1);
      DepthIsEnough(rows, language, tops[1..], d, e);
    }
  }

  /** From a depth of as many levels as there are rows on, cutting off changes nothing: the forest has no deeper
    * level.  No cycle can be reached from a root, so this holds of cyclic relations too.
    */
  lemma CutOffStopsMattering(rows: seq<Row>, language: string, depth: nat)
    requires DistinctIds(rows) && depth >= |rows|
    ensures NaiveForest(rows, language, depth) == NaiveForest(rows, language, |rows|)
  {
    var roots := RootRows(rows, Ids(rows));
    PickedRows(rows, 0, Ids(rows));
    assert forall i :: 0 <= i < |roots| ==> roots[i] in roots;
    LevelsAreShallow(rows, roots, 0, |rows|);
    DepthIsEnough(rows, language, roots, |rows|, depth);
  }

  // ---- Order, and inactive parents

  ghost predicate InOrder(rows: seq<Row>, before: (string, string) -> bool) {
    forall i, j :: 0 <= i < j < |rows| ==> before(rows[i].name, rows[j].name)
  }

  lemma StillInOrder(picked: seq<Row>, rows: seq<Row>, last: Row, before: (string, string) -> bool)
    requires InOrder(picked, before) && InOrder(rows + [last], before) && forall r :: r in picked ==> r in rows
    ensures InOrder(picked + [last], before)
  {
    forall i | 0 <= i < |picked|
      ensures before(picked[i].name, last.name)
    {
      assert picked[i] in rows;
      var k :| 0 <= k < |rows| && rows[k] == picked[i];
      assert before((rows + [last])[k].name, (rows + [last])[|rows|].name);
    }
  }

  /** Siblings, and the roots, stand in the order of the query. */
  lemma {:induction false} SiblingsKeepOrder(rows: seq<Row>, p: int, ids: set<int>, before: (string, string) -> bool)
    requires InOrder(rows, before)
    ensures InOrder(ChildRows(rows, p), before) && InOrder(RootRows(rows, ids), before)
  {
    if rows != [] {
      var front, last := rows[..|rows| - 1], rows[|rows| - 1];
      SiblingsKeepOrder(front, p, ids, before);
      PickedRows(front, p, ids);
      assert front + [last] == rows;
      StillInOrder(ChildRows(front, p), front, last, before);
      StillInOrder(RootRows(front, ids), front, last, before);
    }
  }

  /** An active category whose parent is inactive or missing is at the top level of the forest, at every
    * depth.
    */
  lemma OrphansSurface(rows: seq<Row>, language: string, r: Row, depth: nat)
    requires DistinctIds(rows) && r in rows && depth > 0
    ensures IsRoot(r, Ids(rows)) <==> AtTop(NaiveForest(rows, language, depth), r.id)
  {
    var forest, roots := NaiveForest(rows, language, depth), RootRows(rows, Ids(rows));
    TopsAreShown(rows, language, roots, depth);
    PickedRows(rows, 0, Ids(rows));
    if IsRoot(r, Ids(rows)) {
      var i :| 0 <= i < |roots| && roots[i] == r;
      assert forest[i].id == r.id;
    }
    if AtTop(forest, r.id) {
      var i :| 0 <= i < |forest| && forest[i].id == r.id;
      assert roots[i] in roots;
      RowIsUnique(rows, roots[i]);
      RowIsUnique(rows, r);
    }
  }

  predicate AtTop(ts: seq<Tree>, id: int) {
    exists i :: 0 <= i < |ts| && ts[i].id == id
  }

  lemma {:induction false} TopsAreShown(rows: seq<Row>, language: string, tops: seq<Row>, depth: nat)
    requires depth > 0
    ensures |Naive(rows, language, tops, depth)| == |tops|
    ensures forall i :: 0 <= i < |tops| ==> Naive(rows, language, tops, depth)[i].id == tops[i].id
  {
    if tops != [] {
      TopsAreShown(rows, language, tops[1..], depth);
    }
  }
}
