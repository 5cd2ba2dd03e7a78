/** The namespace as a plain tree: each group knows its parent and nothing is cached.

    This is the reference the stored rows are compared with. Request outcomes are decided here by
    walking parents; no path string and no depth column is consulted. */
module GroupTree {
  import opened Options
  import opened Slugs

  type Id = int
  const NO_ID: Id := 0                            // the all-zero identifier, never issued
  type NewId = id: Id | id != NO_ID witness 1

  const MAX_DEPTH := 10

  datatype Node = Node(name: string, description: Option<string>, slug: string, parent: Option<Id>)
  type Tree = map<Id, Node>

  // ---- groundedness and lineages ----

  /** A rank that drops along every parent link: no dangling parent and no cycle. */
  ghost predicate Ranked(t: Tree, rank: map<Id, nat>) {
    && rank.Keys == t.Keys
    && forall id | id in t && t[id].parent.Some? ::
         t[id].parent.value in t && rank[t[id].parent.value] < rank[id]
  }

  ghost predicate Grounded(t: Tree) {
    exists rank :: Ranked(t, rank)
  }

  ghost function Rank(t: Tree): (rank: map<Id, nat>)
    requires Grounded(t)
    ensures Ranked(t, rank)
  {
    var rank :| Ranked(t, rank); rank
  }

  /** The chain of groups from the root down to `id`. */
  ghost function Lineage(t: Tree, id: Id): (chain: seq<Id>)
    requires Grounded(t) && id in t
    ensures chain != [] && chain[|chain| - 1] == id
    ensures forall x | x in chain :: x in t
    decreases Rank(t)[id]
  {
    if t[id].parent.None? then [id] else Lineage(t, t[id].parent.value) + [id]
  }

  ghost function Depth(t: Tree, id: Id): nat
    requires Grounded(t) && id in t
  {
    |Lineage(t, id)| - 1
  }

  /** The slug path down to `id`; `PathIsJoinedSlugs` says what it amounts to. */
  ghost function PathOf(t: Tree, id: Id): string
    requires Grounded(t) && id in t
    decreases Rank(t)[id]
  {
    if t[id].parent.None? then t[id].slug else PathOf(t, t[id].parent.value) + "/" + t[id].slug
  }

  ghost function SlugsAlong(t: Tree, chain: seq<Id>): seq<string>
    requires forall x | x in chain :: x in t
  {
    if chain == [] then []
    else
      var last := chain[|chain| - 1];
      assert last in chain && forall x | x in chain[..|chain| - 1] :: x in chain;
      SlugsAlong(t, chain[..|chain| - 1]) + [t[last].slug]
  }

  /** A path is the slugs of the lineage, root first, joined with '/'. */
  lemma {:induction false} PathIsJoinedSlugs(t: Tree, id: Id)
    requires Grounded(t) && id in t
    ensures PathOf(t, id) == JoinWith('/', SlugsAlong(t, Lineage(t, id)))
    decreases Rank(t)[id]
  {
    var slugs := SlugsAlong(t, Lineage(t, id));
    var above := Lineage(t, id)[..|Lineage(t, id)| - 1];
    if t[id].parent.Some? {
      PathIsJoinedSlugs(t, t[id].parent.value);
      assert above == Lineage(t, t[id].parent.value);
      assert slugs[..|slugs| - 1] == SlugsAlong(t, above) != [];
    }
  }

  /** `id` is `ancestor` itself or lies below it. */
  ghost predicate Within(t: Tree, ancestor: Id, id: Id)
    requires Grounded(t) && id in t
  {
    ancestor in Lineage(t, id)
  }

  lemma {:induction false} LineageRankDrops(t: Tree, ancestor: Id, id: Id)
    requires Grounded(t) && id in t && Within(t, ancestor, id)
    ensures ancestor in t
    ensures ancestor != id ==> Rank(t)[ancestor] < Rank(t)[id]
    decreases Rank(t)[id]
  {
    if ancestor != id {
      LineageRankDrops(t, ancestor, t[id].parent.value);
    }
  }

  /** A lineage starts at a top-level group, ends at the group, and goes from parent to child. */
  lemma {:induction false} LineageIsParentChain(t: Tree, id: Id)
    requires Grounded(t) && id in t
    ensures var chain := Lineage(t, id);
            && chain != [] && chain[0] in t && t[chain[0]].parent == None && chain[|chain| - 1] == id
            && forall i | 0 < i < |chain| :: chain[i] in t && t[chain[i]].parent == Some(chain[i - 1])
    decreases Rank(t)[id]
  {
    if t[id].parent.Some? {
      LineageIsParentChain(t, t[id].parent.value);
    }
  }

  /** No group is above itself. */
  lemma ParentIsNotBelow(t: Tree, id: Id)
    requires Grounded(t) && id in t && t[id].parent.Some?
    ensures !Within(t, id, t[id].parent.value)
  {
    if Within(t, id, t[id].parent.value) {
      LineageRankDrops(t, id, t[id].parent.value);
    }
  }

  /** Walking parent links from a group never comes back to it, however long the walk. */
  lemma {:induction false} NoParentCycle(t: Tree, walk: seq<Id>)
    requires Grounded(t)
    requires |walk| > 1 && walk[0] in t
    requires forall i | 0 <= i < |walk| - 1 :: walk[i] in t && t[walk[i]].parent == Some(walk[i + 1])
    ensures walk[|walk| - 1] in t && Rank(t)[walk[|walk| - 1]] < Rank(t)[walk[0]]
    ensures walk[|walk| - 1] != walk[0]
  {
    var n := |walk| - 1;
    if n > 1 {
      NoParentCycle(t, walk[..n]);
      assert walk[..n][n - 1] == walk[n - 1];
    }
    assert t[walk[n - 1]].parent == Some(walk[n]);
  }

  lemma {:induction false} WithinIsTransitive(t: Tree, a: Id, b: Id, c: Id)
    requires Grounded(t) && c in t && Within(t, b, c) && b in t && Within(t, a, b)
    ensures Within(t, a, c)
    decreases Rank(t)[c]
  {
    if b != c {
      WithinIsTransitive(t, a, b, t[c].parent.value);
    }
  }

  /** The lineage depends only on the parent links along it. */
  lemma {:induction false} SameLineage(t: Tree, u: Tree, id: Id)
    requires Grounded(t) && Grounded(u) && id in t
    requires forall x | x in Lineage(t, id) :: x in u && u[x].parent == t[x].parent
    ensures id in u && Lineage(u, id) == Lineage(t, id)
    decreases Rank(t)[id]
  {
    assert id in Lineage(t, id);
    if t[id].parent.Some? {
      var p := t[id].parent.value;
      assert forall x | x in Lineage(t, p) :: x in Lineage(t, id);
      SameLineage(t, u, p);
    }
  }

  lemma {:induction false} SamePath(t: Tree, u: Tree, id: Id)
    requires Grounded(t) && Grounded(u) && id in t
    requires forall x | x in Lineage(t, id) :: x in u && u[x].parent == t[x].parent && u[x].slug == t[x].slug
    ensures id in u && PathOf(u, id) == PathOf(t, id)
    decreases Rank(t)[id]
  {
    assert id in Lineage(t, id);
    if t[id].parent.Some? {
      var p := t[id].parent.value;
      assert forall x | x in Lineage(t, p) :: x in Lineage(t, id);
      SamePath(t, u, p);
    }
  }

  /** Trees that agree on parents and slugs have the same lineages and paths. */
  lemma SameShape(t: Tree, u: Tree)
    requires Grounded(t) && u.Keys == t.Keys
    requires forall x | x in t :: u[x].parent == t[x].parent && u[x].slug == t[x].slug
    ensures Grounded(u)
    ensures forall x | x in t :: Lineage(u, x) == Lineage(t, x) && PathOf(u, x) == PathOf(t, x)
  {
    assert Ranked(u, Rank(t));
    forall x | x in t
      ensures Lineage(u, x) == Lineage(t, x) && PathOf(u, x) == PathOf(t, x)
    {
      SameLineage(t, u, x);
      SamePath(t, u, x);
    }
  }

  /** A new group on a free identifier, under an existing parent or none, disturbs no other group. */
  lemma ChildAdded(t: Tree, newId: Id, node: Node)
    requires Grounded(t) && newId !in t && (node.parent.Some? ==> node.parent.value in t)
    ensures var u := t[newId := node];
            && Grounded(u)
            && (forall x | x in t :: Lineage(u, x) == Lineage(t, x) && PathOf(u, x) == PathOf(t, x))
            && Depth(u, newId) == (if node.parent.None? then 0 else Depth(t, node.parent.value) + 1)
            && PathOf(u, newId)
               == (if node.parent.None? then node.slug else PathOf(t, node.parent.value) + "/" + node.slug)
  {
    var u := t[newId := node];
    var rank := Rank(t)[newId := if node.parent.Some? then Rank(t)[node.parent.value] + 1 else 0];
    assert Ranked(u, rank);
    forall x | x in t
      ensures Lineage(u, x) == Lineage(t, x) && PathOf(u, x) == PathOf(t, x)
    {
      SameLineage(t, u, x);
      SamePath(t, u, x);
    }
  }

  // ---- relocating a subtree ----

  /** The tree with one group re-hung under another parent, under a possibly new slug. */
  function Relocate(t: Tree, id: Id, parent: Option<Id>, slug: string): Tree
    requires id in t
  {
    t[id := t[id].(parent := parent, slug := slug)]
  }

  /** A group may hang at the top, or under any group outside its own subtree. */
  ghost predicate CanHang(t: Tree, id: Id, parent: Option<Id>)
    requires Grounded(t)
  {
    parent.Some? ==> parent.value in t && !Within(t, id, parent.value)
  }

  lemma RelocateIsGrounded(t: Tree, id: Id, parent: Option<Id>, slug: string)
    requires Grounded(t) && id in t && CanHang(t, id, parent)
    ensures Grounded(Relocate(t, id, parent, slug))
  {
    var u := Relocate(t, id, parent, slug);
    var lift := if parent.Some? then Rank(t)[parent.value] + 1 else 0;
    var rank := map x | x in t :: Rank(t)[x] + if Within(t, id, x) then lift else 0;
    forall x | x in u && u[x].parent.Some?
      ensures u[x].parent.value in u && rank[u[x].parent.value] < rank[x]
    {
      if x != id {
        assert Within(t, id, x) <==> Within(t, id, t[x].parent.value);
      }
    }
    assert Ranked(u, rank);
  }

  lemma RelocateElsewhere(t: Tree, id: Id, parent: Option<Id>, slug: string, x: Id)
    requires Grounded(t) && id in t && CanHang(t, id, parent)
    requires Grounded(Relocate(t, id, parent, slug))
    requires x in t && !Within(t, id, x)
    ensures Lineage(Relocate(t, id, parent, slug), x) == Lineage(t, x)
    ensures PathOf(Relocate(t, id, parent, slug), x) == PathOf(t, x)
  {
    SameLineage(t, Relocate(t, id, parent, slug), x);
    SamePath(t, Relocate(t, id, parent, slug), x);
  }

  /** Inside the subtree every depth changes by the same amount. */
  lemma {:induction false} RelocateShifts(t: Tree, id: Id, parent: Option<Id>, slug: string, x: Id)
    requires Grounded(t) && id in t && CanHang(t, id, parent)
    requires Grounded(Relocate(t, id, parent, slug))
    requires x in t && Within(t, id, x)
    ensures var u := Relocate(t, id, parent, slug);
            Within(u, id, x) && Depth(u, x) - Depth(u, id) == Depth(t, x) - Depth(t, id)
    decreases Rank(t)[x]
  {
    if x != id {
      RelocateShifts(t, id, parent, slug, t[x].parent.value);
    }
  }

  /** Inside the subtree every path changes by its prefix. */
  lemma {:induction false} RelocateRenames(t: Tree, id: Id, parent: Option<Id>, slug: string, x: Id)
    requires Grounded(t) && id in t && CanHang(t, id, parent)
    requires Grounded(Relocate(t, id, parent, slug))
    requires x in t && Within(t, id, x)
    ensures PathOf(t, id) <= PathOf(t, x)
    ensures var u := Relocate(t, id, parent, slug);
            PathOf(u, x) == PathOf(u, id) + PathOf(t, x)[|PathOf(t, id)|..]
    decreases Rank(t)[x]
  {
    var u := Relocate(t, id, parent, slug);
    if x == id {
      assert PathOf(t, x)[|PathOf(t, id)|..] == "";
    } else {
      var p := t[x].parent.value;
      RelocateRenames(t, id, parent, slug, p);
      SuffixGrows(PathOf(t, id), PathOf(t, p), PathOf(u, id), t[x].slug);
    }
  }

  /** Inside the subtree every path changes by its prefix and every depth by the same amount. */
  lemma RelocateInside(t: Tree, id: Id, parent: Option<Id>, slug: string, x: Id)
    requires Grounded(t) && id in t && CanHang(t, id, parent)
    requires Grounded(Relocate(t, id, parent, slug))
    requires x in t && Within(t, id, x)
    ensures var u := Relocate(t, id, parent, slug);
            && Within(u, id, x)
            && Depth(u, x) - Depth(u, id) == Depth(t, x) - Depth(t, id)
            && PathOf(t, id) <= PathOf(t, x)
            && PathOf(u, x) == PathOf(u, id) + PathOf(t, x)[|PathOf(t, id)|..]
  {
    RelocateShifts(t, id, parent, slug, x);
    RelocateRenames(t, id, parent, slug, x);
  }

  /** Replacing a prefix and appending at the end do not meet. */
  lemma SuffixGrows(oldRoot: string, path: string, newRoot: string, slug: string)
    requires oldRoot <= path
    ensures oldRoot <= path + "/" + slug
    ensures newRoot + (path + "/" + slug)[|oldRoot|..] == newRoot + path[|oldRoot|..] + "/" + slug
  {
    assert (path + "/" + slug)[|oldRoot|..] == path[|oldRoot|..] + "/" + slug;
  }

  lemma RelocateMembership(t: Tree, id: Id, parent: Option<Id>, slug: string, x: Id)
    requires Grounded(t) && id in t && CanHang(t, id, parent) && x in t
    ensures Grounded(Relocate(t, id, parent, slug))
    ensures Within(Relocate(t, id, parent, slug), id, x) <==> Within(t, id, x)
  {
    RelocateIsGrounded(t, id, parent, slug);
    if Within(t, id, x) {
      RelocateInside(t, id, parent, slug, x);
    } else {
      RelocateElsewhere(t, id, parent, slug, x);
    }
  }

  /** Where the relocated group itself ends up. */
  lemma RelocatedRoot(t: Tree, id: Id, parent: Option<Id>, slug: string)
    requires Grounded(t) && id in t && CanHang(t, id, parent)
    ensures Grounded(Relocate(t, id, parent, slug))
    ensures Depth(Relocate(t, id, parent, slug), id) == (if parent.None? then 0 else Depth(t, parent.value) + 1)
    ensures PathOf(Relocate(t, id, parent, slug), id)
            == (if parent.None? then slug else PathOf(t, parent.value) + "/" + slug)
  {
    RelocateIsGrounded(t, id, parent, slug);
    if parent.Some? {
      RelocateElsewhere(t, id, parent, slug, parent.value);
    }
  }
}
