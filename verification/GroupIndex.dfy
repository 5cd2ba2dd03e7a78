/** The stored rows: the tree plus two cached columns, the full path and the depth.

    `IndexOf` recomputes both columns from the tree. Handlers select subtrees by string prefix on the
    cached path; the lemmas here say when that is the same as walking parents. */
module GroupIndex {
  import opened Options
  import opened Slugs
  import opened GroupTree
  import opened NamespaceSpec

  datatype Row = Row(name: string, description: Option<string>, slug: string, parent: Option<Id>,
                     fullPath: string, depth: int)
  type Rows = map<Id, Row>

  function NodeOf(row: Row): Node {
    Node(row.name, row.description, row.slug, row.parent)
  }

  function TreeOf(rows: Rows): Tree {
    map id | id in rows :: NodeOf(rows[id])
  }

  lemma TreeOfPut(rows: Rows, id: Id, row: Row)
    ensures TreeOf(rows[id := row]) == TreeOf(rows)[id := NodeOf(row)]
  {
  }

  /** One group's row with its cached columns recomputed from the tree. */
  ghost function RowOf(t: Tree, id: Id): Row
    requires Grounded(t) && id in t
  {
    Row(t[id].name, t[id].description, t[id].slug, t[id].parent, PathOf(t, id), Depth(t, id))
  }

  /** The whole table recomputed from the tree. */
  ghost function IndexOf(t: Tree): Rows
    requires Grounded(t)
  {
    map id | id in t :: RowOf(t, id)
  }

  ghost predicate Indexes(rows: Rows, t: Tree) {
    && Grounded(t)
    && rows.Keys == t.Keys
    && forall id | id in t :: rows[id] == RowOf(t, id)
  }

  /** The cached columns are what recomputing them would give. */
  ghost predicate Indexed(rows: Rows) {
    Indexes(rows, TreeOf(rows))
  }

  /** A tree has one index, and the index gives the tree back. */
  lemma IndexIsUnique(rows: Rows, t: Tree)
    requires Grounded(t)
    ensures Indexes(rows, t) <==> rows == IndexOf(t)
    ensures Indexes(rows, t) ==> TreeOf(rows) == t && Indexed(rows)
  {
    if Indexes(rows, t) {
      forall id | id in t
        ensures TreeOf(rows)[id] == t[id]
      {
        assert rows[id] == RowOf(t, id);
      }
      assert TreeOf(rows) == t;
    }
  }

  function StartsWith(s: string, prefix: string): bool {
    prefix <= s
  }

  /** The prefix test of the handlers. */
  predicate PathBelow(path: string, ancestorPath: string) {
    StartsWith(path, ancestorPath + "/")
  }

  // ---- paths ----

  ghost predicate NoSlash(s: string) {
    '/' !in s
  }

  ghost predicate SlashFreeSlugs(t: Tree) {
    forall g | g in t :: NoSlash(t[g].slug)
  }

  lemma SoundTreesHaveSlashFreeSlugs(table: CharTable, t: Tree)
    requires Lawful(table) && SoundTree(table, t)
    ensures SlashFreeSlugs(t)
  {
    forall g | g in t
      ensures NoSlash(t[g].slug)
    {
      assert Canonical(table, t[g].slug);
    }
  }

  /** A path is cut in one way only into "before the last slash" and "after it". */
  lemma LastSlashIsUnique(a: string, x: string, b: string, y: string)
    requires NoSlash(x) && NoSlash(y) && a + "/" + x == b + "/" + y
    ensures a == b && x == y
  {
    var s := a + "/" + x;
    assert s == b + "/" + y;
    assert s[|a|] == '/' && s[|b|] == '/';
    assert forall i | |a| < i < |s| :: s[i] == x[i - |a| - 1];
    assert forall i | |b| < i < |s| :: s[i] == y[i - |b| - 1];
    assert |a| == |b|;
    assert a == s[..|a|] && b == s[..|b|];
    assert x == s[|a| + 1..] && y == s[|b| + 1..];
  }

  lemma SlashIsInside(a: string, x: string)
    ensures '/' in a + "/" + x
  {
    assert (a + "/" + x)[|a|] == '/';
  }

  /** Full paths identify groups: the unique index on the path can never be violated. */
  lemma {:induction false} PathsAreUnique(t: Tree, a: Id, b: Id)
    requires Grounded(t) && SlashFreeSlugs(t) && SiblingsDiffer(t)
    requires a in t && b in t && PathOf(t, a) == PathOf(t, b)
    ensures a == b
    decreases Rank(t)[a]
  {
    if t[a].parent.Some? && t[b].parent.Some? {
      var p, q := t[a].parent.value, t[b].parent.value;
      LastSlashIsUnique(PathOf(t, p), t[a].slug, PathOf(t, q), t[b].slug);
      PathsAreUnique(t, p, q);
    } else if t[a].parent.Some? {
      SlashIsInside(PathOf(t, t[a].parent.value), t[a].slug);
    } else if t[b].parent.Some? {
      SlashIsInside(PathOf(t, t[b].parent.value), t[b].slug);
    }
    assert !SiblingSlugInUse(t, a, t[a].parent, t[a].slug);
  }

  lemma {:induction false} DescendantPathExtends(t: Tree, a: Id, d: Id)
    requires Grounded(t) && a in t && d in t && Within(t, a, d) && a != d
    ensures PathBelow(PathOf(t, d), PathOf(t, a))
    decreases Rank(t)[d]
  {
    var p := t[d].parent.value;
    if p != a {
      DescendantPathExtends(t, a, p);
    }
    assert PathOf(t, p) + "/" <= PathOf(t, d);
  }

  /** A prefix that ends in a slash cannot reach into a slash-free tail. */
  lemma SlashPrefix(prefix: string, a: string, x: string)
    requires NoSlash(x) && prefix + "/" <= a + "/" + x
    ensures prefix == a || prefix + "/" <= a
  {
    var s := a + "/" + x;
    assert s[|prefix|] == '/';
    assert forall i | |a| < i < |s| :: s[i] == x[i - |a| - 1];
    assert |prefix| <= |a|;
    assert s[..|a|] == a;
    assert prefix == s[..|prefix|];
    if |prefix| < |a| {
      assert a[..|prefix| + 1] == s[..|prefix| + 1] == prefix + "/";
    }
  }

  lemma {:induction false} PathExtensionIsDescent(t: Tree, a: Id, d: Id)
    requires Grounded(t) && SlashFreeSlugs(t) && SiblingsDiffer(t)
    requires a in t && d in t && PathBelow(PathOf(t, d), PathOf(t, a))
    ensures Within(t, a, d) && a != d
    decreases Rank(t)[d]
  {
    assert PathOf(t, d)[|PathOf(t, a)|] == '/';
    assert NoSlash(t[d].slug);
    var p := t[d].parent.value;
    SlashPrefix(PathOf(t, a), PathOf(t, p), t[d].slug);
    if PathOf(t, a) == PathOf(t, p) {
      PathsAreUnique(t, a, p);
    } else {
      PathExtensionIsDescent(t, a, p);
    }
    if a == d {
      ParentIsNotBelow(t, d);
    }
  }

  /** The prefix test selects exactly the strict descendants; with path equality, the whole subtree. */
  lemma PrefixIffDescendant(table: CharTable, rows: Rows, a: Id, d: Id)
    requires Lawful(table) && Indexed(rows) && SoundTree(table, TreeOf(rows))
    requires a in rows && d in rows
    ensures PathBelow(rows[d].fullPath, rows[a].fullPath) <==> a != d && Within(TreeOf(rows), a, d)
    ensures rows[d].fullPath == rows[a].fullPath <==> a == d
    ensures rows[d].fullPath == rows[a].fullPath || PathBelow(rows[d].fullPath, rows[a].fullPath)
            <==> Within(TreeOf(rows), a, d)
  {
    var t := TreeOf(rows);
    SoundTreesHaveSlashFreeSlugs(table, t);
    if rows[d].fullPath == rows[a].fullPath {
      PathsAreUnique(t, a, d);
    }
    if PathBelow(rows[d].fullPath, rows[a].fullPath) {
      PathExtensionIsDescent(t, a, d);
    }
    if a != d && Within(t, a, d) {
      DescendantPathExtends(t, a, d);
    }
  }

  // ---- consequences for whole runs ----

  /** In every namespace any run of requests can reach, the recomputed index has no two equal paths,
      no group deeper than the limit, no cycle, and prefix search is descent. */
  lemma EveryReachableIndex(table: CharTable, requests: seq<Request>, a: Id, d: Id)
    requires Lawful(table)
    requires a in Run(table, requests).groups && d in Run(table, requests).groups
    ensures var t := Run(table, requests).groups;
            var rows := IndexOf(t);
            && rows[a].depth <= MAX_DEPTH
            && rows[a].depth == |Lineage(t, a)| - 1
            && rows[a].fullPath == JoinWith('/', SlugsAlong(t, Lineage(t, a)))
            && (rows[a].fullPath == rows[d].fullPath ==> a == d)
            && (PathBelow(rows[d].fullPath, rows[a].fullPath) <==> a in Lineage(t, d)[..|Lineage(t, d)| - 1])
  {
    var t := Run(table, requests).groups;
    IndexIsUnique(IndexOf(t), t);
    PathIsJoinedSlugs(t, a);
    PrefixIffDescendant(table, IndexOf(t), a, d);
    StrictlyAbove(t, a, d);
  }

  lemma StrictlyAbove(t: Tree, a: Id, d: Id)
    requires Grounded(t) && d in t
    ensures a in Lineage(t, d)[..|Lineage(t, d)| - 1] <==> Within(t, a, d) && a != d
  {
    if t[d].parent.Some? {
      ParentIsNotBelow(t, d);
      assert Lineage(t, d)[..|Lineage(t, d)| - 1] == Lineage(t, t[d].parent.value);
    }
  }

  /** Moving a group and moving it back is always accepted and restores every row. */
  lemma MoveBackRestores(table: CharTable, ns: Namespace, id: Id, newParent: Option<Id>)
    requires Sound(table, ns)
    requires Apply(table, ns, MoveGroup(id, newParent)).0 == Done
    ensures var moved := Apply(table, ns, MoveGroup(id, newParent)).1;
            && Grounded(moved.groups)
            && Apply(table, moved, MoveGroup(id, ns.groups[id].parent)) == (Done, ns)
  {
    TreeMovesBack(table, ns.groups, id, newParent);
  }

  lemma TreeMovesBack(table: CharTable, t: Tree, id: Id, newParent: Option<Id>)
    requires SoundTree(table, t)
    requires ApplyMove(t, MoveGroup(id, newParent)).0 == Done
    ensures var u := ApplyMove(t, MoveGroup(id, newParent)).1;
            Grounded(u) && ApplyMove(u, MoveGroup(id, t[id].parent)) == (Done, t)
  {
    MoveOutcome(t, Request.MoveGroup(id, newParent));
    GoesBack(table, t, id, newParent);
  }

  lemma GoesBack(table: CharTable, t: Tree, id: Id, newParent: Option<Id>)
    requires SoundTree(table, t) && id in t && CanHang(t, id, newParent)
    ensures var u := Relocate(t, id, newParent, t[id].slug);
            Grounded(u) && ApplyMove(u, Request.MoveGroup(id, t[id].parent)) == (Done, t)
  {
    var u := Relocate(t, id, newParent, t[id].slug);
    RelocateIsGrounded(t, id, newParent, t[id].slug);
    RelocatedTwice(t, id, newParent);
    HomeIsOutside(t, id, newParent);
    SlugFreeAtHome(t, u, id);
    BackIsShallow(table, t, u, id);
    MoveAccepted(u, id, t[id].parent);
  }

  lemma RelocatedTwice(t: Tree, id: Id, parent: Option<Id>)
    requires id in t
    ensures Relocate(Relocate(t, id, parent, t[id].slug), id, t[id].parent, t[id].slug) == t
  {
  }

  /** A moved group can hang under its old parent again. */
  lemma HomeIsOutside(t: Tree, id: Id, newParent: Option<Id>)
    requires Grounded(t) && id in t && CanHang(t, id, newParent)
    requires Grounded(Relocate(t, id, newParent, t[id].slug))
    ensures CanHang(Relocate(t, id, newParent, t[id].slug), id, t[id].parent)
    ensures t[id].parent != Some(id)
  {
    if t[id].parent.Some? {
      ParentIsNotBelow(t, id);
      RelocateMembership(t, id, newParent, t[id].slug, t[id].parent.value);
    }
  }

  /** Nothing gets too deep by going back. */
  lemma BackIsShallow(table: CharTable, t: Tree, u: Tree, id: Id)
    requires SoundTree(table, t) && id in t && Grounded(u) && id in u && CanHang(u, id, t[id].parent)
    requires Relocate(u, id, t[id].parent, u[id].slug) == t
    ensures !WouldExceedDepth(u, id, t[id].parent)
  {
  }

  /** A group's slug stays free under its parent while no other group changes. */
  lemma SlugFreeAtHome(t: Tree, u: Tree, id: Id)
    requires id in t && !SiblingSlugInUse(t, id, t[id].parent, t[id].slug)
    requires forall g | g in u && g != id :: g in t && u[g] == t[g]
    ensures !SiblingSlugInUse(u, id, t[id].parent, t[id].slug)
  {
  }

  /** The depth a handler computes from the deepest cached depth is the depth test of the specification. */
  lemma DeepestDecidesDepth(t: Tree, id: Id, parent: Option<Id>, deepest: int)
    requires Grounded(t) && id in t && CanHang(t, id, parent)
    requires exists x :: x in t && Within(t, id, x) && Depth(t, x) == deepest
    requires forall x | x in t && Within(t, id, x) :: Depth(t, x) <= deepest
    ensures var newDepth := if parent.None? then 0 else Depth(t, parent.value) + 1;
            deepest + (newDepth - Depth(t, id)) > MAX_DEPTH <==> WouldExceedDepth(t, id, parent)
  {
    RelocateIsGrounded(t, id, parent, t[id].slug);
    forall x | x in t && Within(t, id, x)
      ensures Depth(Relocate(t, id, parent, t[id].slug), x) ==
              Depth(t, x) + (if parent.None? then 0 else Depth(t, parent.value) + 1) - Depth(t, id)
    {
      DepthAfterRelocate(t, id, parent, t[id].slug, x);
    }
  }
}
