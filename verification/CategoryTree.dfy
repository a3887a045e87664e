/** The category forest, built in place from one flat query. */
module CategoryTree {
  import opened Wrappers

  /** One row of the query for the active categories. */
  datatype Row = Row(id: int, name: string, nameAr: string, nameEn: string, slug: string, parent: Option<int>)

  const LANGUAGE_AR := "ar"

  function LocalizedCategoryName(row: Row, language: string): string {
    var english := if row.nameEn != "" then row.nameEn else row.name;
    if language == LANGUAGE_AR && row.nameAr != "" then row.nameAr else english
  }

  /** A category with a name in any language never shows up nameless. */
  lemma NameIsShown(row: Row, language: string)
    ensures (LocalizedCategoryName(row, language) == "")
              <==> (row.name == "" && row.nameEn == "" && (language == LANGUAGE_AR ==> row.nameAr == ""))
    ensures LocalizedCategoryName(row, language) in {row.name, row.nameEn, row.nameAr}
  {
  }

  predicate DistinctIds(rows: seq<Row>) {
    forall i, j :: 0 <= i < j < |rows| ==> rows[i].id != rows[j].id
  }

  function Ids(rows: seq<Row>): set<int> {
    set i | 0 <= i < |rows| :: rows[i].id
  }

  /** The rows below one parent, in query order. */
  function ChildRows(rows: seq<Row>, p: int): seq<Row> {
    if rows == [] then []
    else
      var last := rows[|rows| - 1];
      ChildRows(rows[..|rows| - 1], p) + (if last.parent == Some(p) then [last] else [])
  }

  predicate IsRoot(r: Row, ids: set<int>) {
    r.parent.None? || r.parent.value !in ids
  }

  /** The rows without a parent among `ids`. */
  function RootRows(rows: seq<Row>, ids: set<int>): seq<Row> {
    if rows == [] then []
    else
      var last := rows[|rows| - 1];
      RootRows(rows[..|rows| - 1], ids) + (if IsRoot(last, ids) then [last] else [])
  }

  // ---- The naive definition

  datatype Tree = Tree(id: int, name: string, slug: string, children: seq<Tree>)

  /** The trees of the given rows, cut off below `depth` levels. */
  function Naive(rows: seq<Row>, language: string, tops: seq<Row>, depth: nat): seq<Tree>
    decreases depth, |tops|
  {
    if depth == 0 || tops == [] then []
    else
      var r := tops[0];
      [Tree(r.id, LocalizedCategoryName(r, language), r.slug, Naive(rows, language, ChildRows(rows, r.id), depth - 1))]
      + Naive(rows, language, tops[1..], depth)
  }

  function NaiveForest(rows: seq<Row>, language: string, depth: nat): seq<Tree> {
    Naive(rows, language, RootRows(rows, Ids(rows)), depth)
  }

  // ---- The forest built in place

  class Node {
    const id: int
    const name: string
    const slug: string
    var children: seq<Node>

    constructor (id: int, name: string, slug: string)
      ensures this.id == id && this.name == name && this.slug == slug && children == []
    {
      this.id, this.name, this.slug, children := id, name, slug, [];
    }
  }

  /** Every row has its own node, labelled from the row. */
  ghost predicate Labelled(rows: seq<Row>, language: string, nodes: map<int, Node>) {
    && nodes.Keys == Ids(rows)
    && (forall i :: 0 <= i < |rows| ==> LabelledFrom(nodes[rows[i].id], rows[i], language))
  }

  predicate LabelledFrom(n: Node, r: Row, language: string) {
    n.id == r.id && n.name == LocalizedCategoryName(r, language) && n.slug == r.slug
  }

  predicate Known(nodes: map<int, Node>, rs: seq<Row>) {
    forall i :: 0 <= i < |rs| ==> rs[i].id in nodes
  }

  function NodesOf(nodes: map<int, Node>, rs: seq<Row>): seq<Node>
    requires Known(nodes, rs)
  {
    seq(|rs|, i requires 0 <= i < |rs| => nodes[rs[i].id])
  }

  lemma {:induction false} PickedRows(rows: seq<Row>, p: int, ids: set<int>)
    ensures forall r :: r in ChildRows(rows, p) <==> r in rows && r.parent == Some(p)
    ensures forall r :: r in RootRows(rows, ids) <==> r in rows && IsRoot(r, ids)
  {
    if rows != [] {
      PickedRows(rows[..|rows| - 1], p, ids);
      assert rows == rows[..|rows| - 1] + [rows[|rows| - 1]];
    }
  }

  lemma AllKnown(rows: seq<Row>, nodes: map<int, Node>, n: nat)
    requires Ids(rows) <= nodes.Keys && n <= |rows|
    ensures forall p :: Known(nodes, ChildRows(rows[..n], p))
    ensures Known(nodes, RootRows(rows[..n], Ids(rows)))
  {
    forall p
      ensures Known(nodes, ChildRows(rows[..n], p))
    {
      PickedRows(rows[..n], p, Ids(rows));
      assert forall r :: r in rows[..n] ==> r.id in Ids(rows);
      assert forall i :: 0 <= i < |ChildRows(rows[..n], p)| ==> ChildRows(rows[..n], p)[i] in rows[..n];
    }
    PickedRows(rows[..n], 0, Ids(rows));
    assert forall i :: 0 <= i < |RootRows(rows[..n], Ids(rows))| ==> RootRows(rows[..n], Ids(rows))[i] in rows[..n];
  }

  /** The children list of `p` holds the nodes of the first `n` rows below it, in query order. */
  ghost predicate WiredAt(rows: seq<Row>, nodes: map<int, Node>, n: nat, p: int)
    requires n <= |rows| && p in nodes
    reads nodes.Values
  {
    Known(nodes, ChildRows(rows[..n], p)) && nodes[p].children == NodesOf(nodes, ChildRows(rows[..n], p))
  }

  ghost predicate Wired(rows: seq<Row>, nodes: map<int, Node>, n: nat)
    requires n <= |rows|
    reads nodes.Values
  {
    forall p :: p in nodes ==> WiredAt(rows, nodes, n, p)
  }

  method MakeNodes(rows: seq<Row>, language: string) returns (nodes: map<int, Node>)
    requires DistinctIds(rows)
    ensures Labelled(rows, language, nodes)
    ensures forall p :: p in nodes ==> fresh(nodes[p]) && nodes[p].children == []
  {
    nodes := map[];
    for i := 0 to |rows|
      invariant Labelled(rows[..i], language, nodes)
      invariant forall p :: p in nodes ==> fresh(nodes[p]) && nodes[p].children == []
    {
      var node := new Node(rows[i].id, LocalizedCategoryName(rows[i], language), rows[i].slug);
      LabelledStep(rows, language, nodes, i, node);
      nodes := nodes[rows[i].id := node];
    }
    assert rows[..|rows|] == rows;
  }

  lemma LabelledStep(rows: seq<Row>, language: string, nodes: map<int, Node>, i: nat, node: Node)
    requires DistinctIds(rows) && i < |rows|
    requires Labelled(rows[..i], language, nodes) && LabelledFrom(node, rows[i], language)
    ensures Labelled(rows[..i + 1], language, nodes[rows[i].id := node])
  {
    assert Ids(rows[..i + 1]) == Ids(rows[..i]) + {rows[i].id};
    forall j | 0 <= j < i + 1
      ensures LabelledFrom(nodes[rows[i].id := node][rows[j].id], rows[j], language)
    {
      if j < i {
        assert rows[..i][j] == rows[j];
      }
    }
  }

  lemma RowsStep(rows: seq<Row>, nodes: map<int, Node>, i: nat, p: int)
    requires Ids(rows) <= nodes.Keys && i < |rows|
    ensures Known(nodes, ChildRows(rows[..i], p)) && Known(nodes, ChildRows(rows[..i + 1], p)) && rows[i].id in nodes
    ensures NodesOf(nodes, ChildRows(rows[..i + 1], p))
              == NodesOf(nodes, ChildRows(rows[..i], p))
                 + (if rows[i].parent == Some(p) then [nodes[rows[i].id]] else [])
  {
    AllKnown(rows, nodes, i);
    AllKnown(rows, nodes, i + 1);
    assert rows[i].id in Ids(rows);
    assert rows[..i + 1][..i] == rows[..i];
  }

  lemma RootsStep(rows: seq<Row>, nodes: map<int, Node>, i: nat)
    requires Ids(rows) <= nodes.Keys && i < |rows|
    ensures Known(nodes, RootRows(rows[..i], Ids(rows))) && Known(nodes, RootRows(rows[..i + 1], Ids(rows)))
    ensures rows[i].id in nodes
    ensures NodesOf(nodes, RootRows(rows[..i + 1], Ids(rows)))
              == NodesOf(nodes, RootRows(rows[..i], Ids(rows)))
                 + (if IsRoot(rows[i], Ids(rows)) then [nodes[rows[i].id]] else [])
  {
    AllKnown(rows, nodes, i);
    AllKnown(rows, nodes, i + 1);
    assert rows[i].id in Ids(rows);
    assert rows[..i + 1][..i] == rows[..i];
  }

  /** A node of this map is filed under its own id, so different ids have different nodes. */
  lemma NodesHaveTheirIds(rows: seq<Row>, language: string, nodes: map<int, Node>)
    requires Labelled(rows, language, nodes)
    ensures forall p :: p in nodes ==> nodes[p].id == p
  {
  }

  /** Files the node of row `i`: below its parent, or among the roots. */
  method FileNode(rows: seq<Row>, nodesById: map<int, Node>, i: nat, roots: seq<Node>) returns (newRoots: seq<Node>)
    requires nodesById.Keys == Ids(rows) && i < |rows| && rows[i].id in nodesById
    requires forall p :: p in nodesById ==> nodesById[p].id == p
    requires Wired(rows, nodesById, i)
    modifies nodesById.Values
    ensures Wired(rows, nodesById, i + 1)
    ensures newRoots == roots + (if IsRoot(rows[i], Ids(rows)) then [nodesById[rows[i].id]] else [])
  {
    var node := nodesById[rows[i].id];
    newRoots := roots;
    if rows[i].parent.Some? && rows[i].parent.value in nodesById {
      var parent := nodesById[rows[i].parent.value];
      parent.children := parent.children + [node];
    } else {
      newRoots := roots + [node];
    }
    forall p | p in nodesById
      ensures WiredAt(rows, nodesById, i + 1, p)
    {
      RowsStep(rows, nodesById, i, p);
      assert old(WiredAt(rows, nodesById, i, p));
    }
  }

  method BuildCategoryTree(rows: seq<Row>, language: string) returns (roots: seq<Node>, ghost nodes: map<int, Node>)
    requires DistinctIds(rows)
    ensures Labelled(rows, language, nodes) && Wired(rows, nodes, |rows|)
    ensures Known(nodes, RootRows(rows, Ids(rows))) && roots == NodesOf(nodes, RootRows(rows, Ids(rows)))
    ensures forall p :: p in nodes ==> fresh(nodes[p])
  {
    var nodesById := MakeNodes(rows, language);
    nodes := nodesById;
    NodesHaveTheirIds(rows, language, nodes);
    NothingWired(rows, nodes);
    roots := [];
    for i := 0 to |rows|
      invariant forall p :: p in nodes ==> fresh(nodes[p])
      invariant Wired(rows, nodes, i)
      invariant Known(nodes, RootRows(rows[..i], Ids(rows))) && roots == NodesOf(nodes, RootRows(rows[..i], Ids(rows)))
    {
      RootsStep(rows, nodes, i);
      roots := FileNode(rows, nodesById, i, roots);
    }
    assert rows[..|rows|] == rows;
  }

  lemma NothingWired(rows: seq<Row>, nodes: map<int, Node>)
    requires forall p :: p in nodes ==> nodes[p].children == []
    ensures Wired(rows, nodes, 0)
  {
    forall p | p in nodes
      ensures WiredAt(rows, nodes, 0, p)
    {
      assert ChildRows(rows[..0], p) == [];
    }
  }
}
