/** The nested tree the dashboard draws, built from a flat listing grouped by parent.

    The listing may be in any order; the handler sorts it by full path. */
module GroupRendering {
  import opened Options
  import opened Slugs
  import opened GroupTree
  import opened NamespaceSpec
  import opened GroupIndex
  import opened GroupStore

  datatype TreeNode = TreeNode(id: Id, subgroups: seq<TreeNode>)

  /** What makes the recursion terminate: each child one level below its parent, no level past the limit. */
  ghost predicate Layered(rows: Rows) {
    forall g | g in rows ::
      && 0 <= rows[g].depth <= MAX_DEPTH
      && g != NO_ID
      && (rows[g].parent.Some? ==>
            rows[g].parent.value in rows && rows[g].depth == rows[rows[g].parent.value].depth + 1)
  }

  ghost predicate Listing(rows: Rows, listed: seq<Id>) {
    Distinct(listed) && forall g :: g in listed <==> g in rows
  }

  ghost predicate Distinct(ids: seq<Id>) {
    forall i, j | 0 <= i < j < |ids| :: ids[i] != ids[j]
  }

  /** The grouping key: the parent, or the all-zero identifier for a top-level group. */
  function ParentKey(row: Row): Id {
    if row.parent.Some? then row.parent.value else NO_ID
  }

  /** The listed groups under one key, in listing order. */
  function Kids(rows: Rows, listed: seq<Id>, key: Id): (kids: seq<Id>)
    requires forall g | g in listed :: g in rows
    ensures forall g :: g in kids <==> g in listed && ParentKey(rows[g]) == key
  {
    if listed == [] then []
    else
      var g := listed[|listed| - 1];
      assert forall x :: x in listed <==> x in listed[..|listed| - 1] || x == g;
      Kids(rows, listed[..|listed| - 1], key) + (if ParentKey(rows[g]) == key then [g] else [])
  }

  ghost predicate OnLevel(rows: Rows, ids: seq<Id>, level: nat) {
    forall g | g in ids :: g in rows && rows[g].depth == level
  }

  function Render(rows: Rows, listed: seq<Id>, id: Id): TreeNode
    requires Layered(rows) && Listing(rows, listed) && id in rows
    decreases MAX_DEPTH + 1 - rows[id].depth, 0
  {
    TreeNode(id, RenderAll(rows, listed, Kids(rows, listed, id), rows[id].depth + 1))
  }

  function RenderAll(rows: Rows, listed: seq<Id>, ids: seq<Id>, ghost level: nat): (nodes: seq<TreeNode>)
    requires Layered(rows) && Listing(rows, listed)
    requires OnLevel(rows, ids, level)
    requires level <= MAX_DEPTH + 1
    decreases MAX_DEPTH + 1 - level, 1
  {
    seq(|ids|, i requires 0 <= i < |ids| => assert ids[i] in ids; Render(rows, listed, ids[i]))
  }

  /** The whole tree. */
  function RenderForest(rows: Rows, listed: seq<Id>): seq<TreeNode>
    requires Layered(rows) && Listing(rows, listed) && RootsAtTheTop(rows)
  {
    RenderAll(rows, listed, Kids(rows, listed, NO_ID), 0)
  }

  ghost predicate RootsAtTheTop(rows: Rows) {
    forall g | g in rows && rows[g].parent.None? :: rows[g].depth == 0
  }

  /** Every store the handlers keep can be rendered. */
  lemma StoredRowsRender(table: CharTable, rows: Rows)
    requires Indexed(rows) && SoundTree(table, TreeOf(rows))
    ensures Layered(rows) && RootsAtTheTop(rows)
  {
    var t := TreeOf(rows);
    forall g | g in rows
      ensures 0 <= rows[g].depth <= MAX_DEPTH
      ensures rows[g].depth == if rows[g].parent.None? then 0 else rows[rows[g].parent.value].depth + 1
    {
      DepthOfChild(t, g);
    }
  }

  /** How often each group is drawn. */
  function Drawn(node: TreeNode): multiset<Id> {
    multiset{node.id} + DrawnAll(node.subgroups)
  }

  function DrawnAll(nodes: seq<TreeNode>): multiset<Id> {
    if nodes == [] then multiset{} else DrawnAll(nodes[..|nodes| - 1]) + Drawn(nodes[|nodes| - 1])
  }

  // ---- every group exactly once ----

  /** Two groups on one lineage at the same depth are the same group. */
  lemma OneAncestorPerLevel(t: Tree, a: Id, b: Id, x: Id)
    requires Grounded(t) && x in t && Within(t, a, x) && Within(t, b, x) && Depth(t, a) == Depth(t, b)
    ensures a == b
  {
    var i :| 0 <= i < |Lineage(t, x)| && Lineage(t, x)[i] == a;
    var j :| 0 <= j < |Lineage(t, x)| && Lineage(t, x)[j] == b;
    LineagePrefix(t, x, i);
    LineagePrefix(t, x, j);
  }

  /** The step down from an ancestor towards one of its descendants. */
  lemma {:induction false} ChildTowards(t: Tree, id: Id, x: Id) returns (kid: Id)
    requires Grounded(t) && id in t && x in t && Within(t, id, x) && id != x
    ensures kid in t && t[kid].parent == Some(id) && Within(t, kid, x)
    decreases Rank(t)[x]
  {
    var p := t[x].parent.value;
    if p == id {
      kid := x;
    } else {
      kid := ChildTowards(t, id, p);
    }
  }

  lemma {:induction false} RootOf(t: Tree, x: Id) returns (root: Id)
    requires Grounded(t) && x in t
    ensures root in t && t[root].parent.None? && Within(t, root, x)
    decreases Rank(t)[x]
  {
    if t[x].parent.None? {
      root := x;
    } else {
      root := RootOf(t, t[x].parent.value);
    }
  }

  lemma {:induction false} DrawnOnce(table: CharTable, rows: Rows, listed: seq<Id>, id: Id, x: Id)
    requires Indexed(rows) && SoundTree(table, TreeOf(rows)) && Layered(rows) && Listing(rows, listed)
    requires id in rows && x in rows
    ensures Drawn(Render(rows, listed, id))[x] == if Within(TreeOf(rows), id, x) then 1 else 0
    decreases MAX_DEPTH + 1 - rows[id].depth, 0
  {
    var t := TreeOf(rows);
    var kids := Kids(rows, listed, id);
    KidsAreDistinct(rows, listed, id);
    DrawnAtMostOnce(table, rows, listed, kids, rows[id].depth + 1, x);
    if x != id && Within(t, id, x) {
      var kid := ChildTowards(t, id, x);
      assert kid in kids;
    }
    if SomeWithin(t, kids, x) {
      var k :| k in kids && Within(t, k, x);
      assert t[k].parent == Some(id) && Within(t, id, k);
      WithinIsTransitive(t, id, k, x);
      if x == id {
        LineageRankDrops(t, k, x);
      }
    }
  }

  lemma {:induction false} DrawnAtMostOnce(table: CharTable, rows: Rows, listed: seq<Id>, ids: seq<Id>,
                                   level: nat, x: Id)
    requires Indexed(rows) && SoundTree(table, TreeOf(rows)) && Layered(rows) && Listing(rows, listed)
    requires level <= MAX_DEPTH + 1 && x in rows
    requires OnLevel(rows, ids, level)
    requires Distinct(ids)
    ensures DrawnAll(RenderAll(rows, listed, ids, level))[x]
            == if SomeWithin(TreeOf(rows), ids, x) then 1 else 0
    decreases MAX_DEPTH + 1 - level, 1
  {
    var nodes := RenderAll(rows, listed, ids, level);
    forall i | 0 <= i < |ids|
      ensures Drawn(nodes[i])[x] == if Within(TreeOf(rows), ids[i], x) then 1 else 0
    {
      DrawnOnce(table, rows, listed, ids[i], x);
    }
    LevelDrawsOnce(TreeOf(rows), ids, nodes, level, x);
  }

  /** Distinct groups of one level: a group is drawn under at most one of them. */
  lemma {:induction false} LevelDrawsOnce(t: Tree, ids: seq<Id>, nodes: seq<TreeNode>, level: nat, x: Id)
    requires Grounded(t) && x in t && Distinct(ids) && |nodes| == |ids|
    requires forall g | g in ids :: g in t && Depth(t, g) == level
    requires forall i | 0 <= i < |ids| :: Drawn(nodes[i])[x] == if Within(t, ids[i], x) then 1 else 0
    ensures DrawnAll(nodes)[x] == if SomeWithin(t, ids, x) then 1 else 0
  {
    if ids != [] {
      LevelDrawsOnce(t, ids[..|ids| - 1], nodes[..|ids| - 1], level, x);
      OneOfLevel(t, ids, level, x);
    }
  }

  ghost predicate SomeWithin(t: Tree, ids: seq<Id>, x: Id)
    requires Grounded(t) && x in t
  {
    exists k :: k in ids && Within(t, k, x)
  }

  lemma OneOfLevel(t: Tree, ids: seq<Id>, level: nat, x: Id)
    requires Grounded(t) && x in t && ids != [] && Distinct(ids)
    requires forall g | g in ids :: g in t && Depth(t, g) == level
    ensures (if SomeWithin(t, ids, x) then 1 else 0)
            == (if SomeWithin(t, ids[..|ids| - 1], x) then 1 else 0) + (if Within(t, ids[|ids| - 1], x) then 1 else 0)
  {
    var before, last := ids[..|ids| - 1], ids[|ids| - 1];
    assert last !in before;
    assert forall g | g in ids :: g in before || g == last;
    if SomeWithin(t, before, x) {
      var k :| k in before && Within(t, k, x);
      if Within(t, last, x) {
        OneAncestorPerLevel(t, k, last, x);
      }
    }
  }

  lemma {:induction false} KidsAreDistinct(rows: Rows, listed: seq<Id>, key: Id)
    requires forall g | g in listed :: g in rows
    requires Distinct(listed)
    ensures Distinct(Kids(rows, listed, key))
  {
    if listed != [] {
      var n := |listed| - 1;
      assert forall g | g in listed[..n] :: g in listed;
      KidsAreDistinct(rows, listed[..n], key);
      var before := Kids(rows, listed[..n], key);
      assert listed[n] !in listed[..n];
      assert listed[n] !in before;
      assert forall i | 0 <= i < |before| :: before[i] in before;
    }
  }

  /** The rendered tree terminates and draws each stored group exactly once, and nothing else. */
  lemma EveryGroupDrawnOnce(table: CharTable, rows: Rows, listed: seq<Id>, x: Id)
    requires Indexed(rows) && SoundTree(table, TreeOf(rows)) && Listing(rows, listed)
    ensures Layered(rows) && RootsAtTheTop(rows)
    ensures DrawnAll(RenderForest(rows, listed))[x] == if x in rows then 1 else 0
  {
    StoredRowsRender(table, rows);
    var t := TreeOf(rows);
    var roots := Kids(rows, listed, NO_ID);
    if x in rows {
      KidsAreDistinct(rows, listed, NO_ID);
      DrawnAtMostOnce(table, rows, listed, roots, 0, x);
      var root := RootOf(t, x);
      assert t[root].parent == rows[root].parent;
      assert root in roots;
    } else {
      NothingElseDrawn(rows, listed, roots, 0, x);
    }
  }

  lemma {:induction false} NothingElseDrawn(rows: Rows, listed: seq<Id>, ids: seq<Id>, level: nat, x: Id)
    requires Layered(rows) && Listing(rows, listed)
    requires OnLevel(rows, ids, level)
    requires level <= MAX_DEPTH + 1 && x !in rows
    ensures DrawnAll(RenderAll(rows, listed, ids, level))[x] == 0
    decreases MAX_DEPTH + 1 - level, 1
  {
    var nodes := RenderAll(rows, listed, ids, level);
    forall i | 0 <= i < |ids|
      ensures Drawn(nodes[i])[x] == 0
    {
      NotDrawnBelow(rows, listed, ids[i], x);
    }
    NoneDrawn(nodes, x);
  }

  lemma {:induction false} NoneDrawn(nodes: seq<TreeNode>, x: Id)
    requires forall i | 0 <= i < |nodes| :: Drawn(nodes[i])[x] == 0
    ensures DrawnAll(nodes)[x] == 0
  {
    if nodes != [] {
      NoneDrawn(nodes[..|nodes| - 1], x);
    }
  }

  lemma {:induction false} NotDrawnBelow(rows: Rows, listed: seq<Id>, id: Id, x: Id)
    requires Layered(rows) && Listing(rows, listed) && id in rows && x !in rows
    ensures Drawn(Render(rows, listed, id))[x] == 0
    decreases MAX_DEPTH + 1 - rows[id].depth, 0
  {
    NothingElseDrawn(rows, listed, Kids(rows, listed, id), rows[id].depth + 1, x);
  }

  // ---- every group under its parent ----

  /** The subgroups of a node, all the way down, are the groups listed under its key, in listing order. */
  ghost predicate HoldsItsChildren(rows: Rows, listed: seq<Id>, node: TreeNode)
    requires forall g | g in listed :: g in rows
  {
    && |node.subgroups| == |Kids(rows, listed, node.id)|
    && forall i | 0 <= i < |node.subgroups| ::
         node.subgroups[i].id == Kids(rows, listed, node.id)[i] && HoldsItsChildren(rows, listed, node.subgroups[i])
  }

  lemma {:induction false} RenderHoldsChildren(rows: Rows, listed: seq<Id>, id: Id)
    requires Layered(rows) && Listing(rows, listed) && id in rows
    ensures Render(rows, listed, id).id == id && HoldsItsChildren(rows, listed, Render(rows, listed, id))
    decreases MAX_DEPTH + 1 - rows[id].depth
  {
    var kids := Kids(rows, listed, id);
    var node := Render(rows, listed, id);
    var nodes := RenderAll(rows, listed, kids, rows[id].depth + 1);
    assert node.subgroups == nodes && |nodes| == |kids|;
    forall i | 0 <= i < |kids|
      ensures node.subgroups[i].id == kids[i] && HoldsItsChildren(rows, listed, node.subgroups[i])
    {
      assert kids[i] in kids;
      RenderHoldsChildren(rows, listed, kids[i]);
    }
  }

  /** The children of a node stand in the order in which they are listed. */
  lemma {:induction false} KidsKeepOrder(rows: Rows, listed: seq<Id>, key: Id) returns (places: seq<nat>)
    requires forall g | g in listed :: g in rows
    ensures |places| == |Kids(rows, listed, key)|
    ensures forall i | 0 <= i < |places| :: places[i] < |listed| && listed[places[i]] == Kids(rows, listed, key)[i]
    ensures forall i | 0 < i < |places| :: places[i - 1] < places[i]
  {
    if listed == [] {
      places := [];
    } else {
      var n := |listed| - 1;
      assert forall g | g in listed[..n] :: g in listed;
      var g := listed[n];
      assert g in listed;
      var before := Kids(rows, listed[..n], key);
      places := KidsKeepOrder(rows, listed[..n], key);
      assert Kids(rows, listed, key) == before + if ParentKey(rows[g]) == key then [g] else [];
      forall i | 0 <= i < |before|
        ensures listed[places[i]] == before[i]
      {
        assert listed[..n][places[i]] == listed[places[i]];
      }
      if ParentKey(rows[g]) == key {
        places := places + [n];
      }
    }
  }

  /** The groups under a group's key are exactly its children, once each; under the all-zero key, the roots. */
  lemma KidsAreChildren(rows: Rows, listed: seq<Id>, key: Id)
    requires Layered(rows) && Listing(rows, listed) && (key == NO_ID || key in rows)
    ensures Distinct(Kids(rows, listed, key))
    ensures forall g :: g in Kids(rows, listed, key)
                        <==> g in rows && rows[g].parent == if key == NO_ID then None else Some(key)
  {
    KidsAreDistinct(rows, listed, key);
  }

  /** Every node of the drawn tree holds exactly its own children, and the top holds exactly the roots. */
  lemma ForestHoldsChildren(rows: Rows, listed: seq<Id>)
    requires Layered(rows) && Listing(rows, listed) && RootsAtTheTop(rows)
    ensures var top, roots := RenderForest(rows, listed), Kids(rows, listed, NO_ID);
            && |top| == |roots|
            && forall i | 0 <= i < |top| :: top[i].id == roots[i] && HoldsItsChildren(rows, listed, top[i])
  {
    var top, roots := RenderForest(rows, listed), Kids(rows, listed, NO_ID);
    forall i | 0 <= i < |roots|
      ensures top[i].id == roots[i] && HoldsItsChildren(rows, listed, top[i])
    {
      assert roots[i] in roots;
      RenderHoldsChildren(rows, listed, roots[i]);
    }
  }
}
