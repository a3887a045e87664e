/** The category tree as it is built, said in the fields of the rows and nodes alone. */
module CategoryFacts {
  import opened Wrappers
  import opened CategoryTree

  /** Arabic readers get the Arabic name if there is one; they and all others else the English one; and if there is
    * none the old name.
    */
  predicate IsShownName(row: Row, language: string, shown: string) {
    if language == "ar" && row.nameAr != "" then shown == row.nameAr
    else if row.nameEn != "" then shown == row.nameEn
    else shown == row.name
  }

  lemma NameInFields(row: Row, language: string)
    ensures IsShownName(row, language, LocalizedCategoryName(row, language))
  {
  }

  /** Ascending positions of rows. */
  predicate AreAscending(at: seq<nat>, n: nat) {
    && (forall k :: 0 <= k < |at| ==> at[k] < n)
    && forall j, k :: 0 <= j < k < |at| ==> at[j] < at[k]
  }

  predicate IsChild(row: Row, p: int) {
    row.parent == Some(p)
  }

  /** The rows have no parent among themselves: none at all, or one that is not active. */
  predicate IsTop(rows: seq<Row>, row: Row) {
    row.parent == None || forall j :: 0 <= j < |rows| ==> rows[j].id != row.parent.value
  }

  lemma OneMorePosition(at: seq<nat>, n: nat)
    requires AreAscending(at, n)
    ensures AreAscending(at + [n], n + 1) && AreAscending(at, n + 1) && n !in at
    ensures forall i :: 0 <= i < n ==> (i in at + [n] <==> i in at)
  {
  }

  lemma {:induction false} ChildRowsInPlace(rows: seq<Row>, p: int) returns (at: seq<nat>)
    ensures AreAscending(at, |rows|) && |ChildRows(rows, p)| == |at|
    ensures forall k :: 0 <= k < |at| ==> ChildRows(rows, p)[k] == rows[at[k]]
    ensures forall i :: 0 <= i < |rows| ==> (i in at <==> IsChild(rows[i], p))
  {
    at := [];
    if rows != [] {
      var n := |rows| - 1;
      at := ChildRowsInPlace(rows[..n], p);
      OneMorePosition(at, n);
      if IsChild(rows[n], p) {
        at := at + [n];
      }
    }
  }

  lemma {:induction false} RootRowsInPlace(rows: seq<Row>, ids: set<int>) returns (at: seq<nat>)
    ensures AreAscending(at, |rows|) && |RootRows(rows, ids)| == |at|
    ensures forall k :: 0 <= k < |at| ==> RootRows(rows, ids)[k] == rows[at[k]]
    ensures forall i :: 0 <= i < |rows| ==> (i in at <==> IsRoot(rows[i], ids))
  {
    at := [];
    if rows != [] {
      var n := |rows| - 1;
      at := RootRowsInPlace(rows[..n], ids);
      OneMorePosition(at, n);
      if IsRoot(rows[n], ids) {
        at := at + [n];
      }
    }
  }

  /** The list holds the nodes of these rows, in the order of the query. */
  predicate Holds(rows: seq<Row>, nodes: map<int, Node>, list: seq<Node>, at: seq<nat>) {
    && AreAscending(at, |rows|) && |list| == |at|
    && forall k :: 0 <= k < |at| ==> rows[at[k]].id in nodes && list[k] == nodes[rows[at[k]].id]
  }

  /** One node per row, with its id, its name in the language and its slug. */
  ghost predicate HasNodes(rows: seq<Row>, language: string, nodes: map<int, Node>) {
    && (forall id :: id in nodes <==> exists i :: 0 <= i < |rows| && rows[i].id == id)
    && forall i :: 0 <= i < |rows| ==> rows[i].id in nodes && IsNodeOf(rows[i], language, nodes[rows[i].id])
  }

  predicate IsNodeOf(row: Row, language: string, node: Node) {
    node.id == row.id && node.slug == row.slug && IsShownName(row, language, node.name)
  }

  lemma NodesInFields(rows: seq<Row>, language: string, nodes: map<int, Node>)
    requires Labelled(rows, language, nodes)
    ensures HasNodes(rows, language, nodes)
  {
    forall id
      ensures id in nodes <==> exists i :: 0 <= i < |rows| && rows[i].id == id
    {
      assert id in nodes <==> id in Ids(rows);
    }
    forall i | 0 <= i < |rows|
      ensures rows[i].id in nodes && IsNodeOf(rows[i], language, nodes[rows[i].id])
    {
      assert rows[i].id in Ids(rows);
      NameInFields(rows[i], language);
    }
  }

  /** The children of the node of `p` are the rows with that parent, and the roots the rows without an active one. */
  lemma ChildrenInFields(rows: seq<Row>, nodes: map<int, Node>, p: int) returns (at: seq<nat>)
    requires p in nodes && WiredAt(rows, nodes, |rows|, p)
    ensures Holds(rows, nodes, nodes[p].children, at)
    ensures forall i :: 0 <= i < |rows| ==> (i in at <==> IsChild(rows[i], p))
  {
    assert rows[..|rows|] == rows;
    at := ChildRowsInPlace(rows, p);
    var children := ChildRows(rows, p);
    forall k | 0 <= k < |at|
      ensures rows[at[k]].id in nodes && nodes[p].children[k] == nodes[rows[at[k]].id]
    {
      assert children[k].id in nodes;
    }
  }

  lemma RootsInFields(rows: seq<Row>, nodes: map<int, Node>, roots: seq<Node>) returns (at: seq<nat>)
    requires Known(nodes, RootRows(rows, Ids(rows))) && roots == NodesOf(nodes, RootRows(rows, Ids(rows)))
    ensures Holds(rows, nodes, roots, at)
    ensures forall i :: 0 <= i < |rows| ==> (i in at <==> IsTop(rows, rows[i]))
  {
    at := RootRowsInPlace(rows, Ids(rows));
    var tops := RootRows(rows, Ids(rows));
    forall k | 0 <= k < |at|
      ensures rows[at[k]].id in nodes && roots[k] == nodes[rows[at[k]].id]
    {
      assert tops[k].id in nodes;
    }
    forall i | 0 <= i < |rows|
      ensures IsRoot(rows[i], Ids(rows)) <==> IsTop(rows, rows[i])
    {
      if rows[i].parent.Some? {
        assert rows[i].parent.value in Ids(rows) <==> exists j :: 0 <= j < |rows| && rows[j].id == rows[i].parent.value;
      }
    }
  }

  ghost predicate HasChildren(rows: seq<Row>, nodes: map<int, Node>, p: int)
    requires p in nodes
    reads nodes.Values
  {
    exists at: seq<nat> ::
      && Holds(rows, nodes, nodes[p].children, at)
      && forall i :: 0 <= i < |rows| ==> (i in at <==> IsChild(rows[i], p))
  }

  /** The whole tree as `build_category_tree` leaves it. */
  lemma TreeInFields(rows: seq<Row>, language: string, roots: seq<Node>, nodes: map<int, Node>)
    returns (tops: seq<nat>)
    requires Labelled(rows, language, nodes) && Wired(rows, nodes, |rows|)
    requires Known(nodes, RootRows(rows, Ids(rows))) && roots == NodesOf(nodes, RootRows(rows, Ids(rows)))
    ensures HasNodes(rows, language, nodes) && forall p :: p in nodes ==> HasChildren(rows, nodes, p)
    ensures Holds(rows, nodes, roots, tops) && forall i :: 0 <= i < |rows| ==> (i in tops <==> IsTop(rows, rows[i]))
  {
    NodesInFields(rows, language, nodes);
    forall p | p in nodes
      ensures HasChildren(rows, nodes, p)
    {
      assert WiredAt(rows, nodes, |rows|, p);
      var at := ChildrenInFields(rows, nodes, p);
    }
    tops := RootsInFields(rows, nodes, roots);
  }
}
