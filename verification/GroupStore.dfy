/** The request handlers over the stored rows.

    Each handler is one atomic step: it works on a copy and commits it at the end, so a rejected
    request never reaches the store. Every handler's contract is `NamespaceSpec.Apply`, together with
    "the stored rows are the recomputed index of the tree", which determines every column. */
module GroupStore {
  import opened Options
  import opened Slugs
  import opened GroupTree
  import opened NamespaceSpec
  import opened GroupIndex
  import opened NamespaceEffects

  ghost predicate IsDeepest(rows: Rows, ids: set<Id>, m: Id) {
    m in ids && m in rows && forall x | x in ids && x in rows :: rows[x].depth <= rows[m].depth
  }

  /** The database's MAX aggregate over a non-empty selection has a value. */
  lemma {:induction false} DeepestExists(rows: Rows, ids: set<Id>)
    requires ids <= rows.Keys && exists e :: e in ids
    ensures exists m :: IsDeepest(rows, ids, m)
  {
    var e :| e in ids;
    if forall x | x in ids :: x == e {
      assert IsDeepest(rows, ids, e);
    } else {
      var other :| other in ids && other != e;
      assert other in ids - {e};
      DeepestExists(rows, ids - {e});
      var m :| IsDeepest(rows, ids - {e}, m);
      assert forall x | x in ids :: x == e || x in ids - {e};
      assert IsDeepest(rows, ids, if rows[m].depth < rows[e].depth then e else m);
    }
  }

  class Store {
    const table: CharTable
    var groups: Rows
    var projects: map<Id, Project>

    ghost predicate Valid()
      reads this
    {
      && Lawful(table)
      && Indexed(groups)
      && Sound(table, View())
    }

    /** The namespace the rows stand for, with the cached columns dropped. */
    ghost function View(): Namespace
      reads this
    {
      Namespace(TreeOf(groups), projects)
    }

    constructor (table: CharTable)
      requires Lawful(table)
      ensures Valid() && View() == EMPTY && this.table == table
    {
      this.table := table;
      groups := map[];
      projects := map[];
      new;
      EmptyIsSound(table);
      assert TreeOf(groups) == EMPTY.groups;
    }

    method CreateGroup(newId: NewId, name: Option<string>, slug: Option<string>, description: Option<string>,
                       parent: Option<Id>)
      returns (r: Outcome)
      requires Valid()
      modifies this`groups
      ensures Valid()
      ensures (r, View()) == Apply(table, old(View()), Request.CreateGroup(newId, name, slug, description, parent))
    {
      CreateCommits(table, View(), Request.CreateGroup(newId, name, slug, description, parent));
      r, groups := AddGroup(table, groups, newId, name, slug, description, parent);
    }

    method UpdateGroup(id: Id, name: Option<string>, slug: Option<string>, description: Option<string>)
      returns (r: Outcome)
      requires Valid()
      modifies this`groups
      ensures Valid()
      ensures (r, View()) == Apply(table, old(View()), Request.UpdateGroup(id, name, slug, description))
    {
      UpdateCommits(table, View(), Request.UpdateGroup(id, name, slug, description));
      r, groups := EditGroup(table, groups, id, name, slug, description);
    }

    method DeleteGroup(id: Id) returns (r: Outcome)
      requires Valid()
      modifies this`groups
      ensures Valid()
      ensures (r, View()) == Apply(table, old(View()), Request.DeleteGroup(id))
      ensures r == Done <==>
                && id in old(View()).groups
                && (forall g | g in old(View()).groups :: old(View()).groups[g].parent != Some(id))
                && (forall p | p in old(View()).projects :: old(View()).projects[p].group != Some(id))
      ensures r == Done ==>
                && View().groups.Keys == old(View()).groups.Keys - {id}
                && forall g | g in View().groups :: View().groups[g] == old(View()).groups[g]
      ensures View().projects == old(View()).projects
    {
      ghost var before := View();
      DeleteGroupEffect(table, before, id);
      DeleteCommits(table, before, Request.DeleteGroup(id));
      r, groups := RemoveGroup(groups, projects, id);
      assert (r, View()) == Apply(table, before, Request.DeleteGroup(id));
    }

    method MoveGroup(id: Id, newParent: Option<Id>) returns (r: Outcome)
      requires Valid()
      modifies this`groups
      ensures Valid()
      ensures (r, View()) == Apply(table, old(View()), Request.MoveGroup(id, newParent))
    {
      MoveCommits(table, View(), Request.MoveGroup(id, newParent));
      r, groups := RehangGroup(table, groups, id, newParent);
    }

    method CreateProject(newId: NewId, name: Option<string>, slug: Option<string>, group: Option<Id>)
      returns (r: Outcome)
      requires Valid()
      modifies this`projects
      ensures Valid()
      ensures (r, View()) == Apply(table, old(View()), Request.CreateProject(newId, name, slug, group))
    {
      ProjectsCommit(table, View(), Request.CreateProject(newId, name, slug, group));
      r, projects := AddProject(table, groups, projects, newId, name, slug, group);
    }

    method UpdateProject(id: Id, name: Option<string>, slug: Option<string>) returns (r: Outcome)
      requires Valid()
      modifies this`projects
      ensures Valid()
      ensures (r, View()) == Apply(table, old(View()), Request.UpdateProject(id, name, slug))
    {
      ProjectsCommit(table, View(), Request.UpdateProject(id, name, slug));
      r, projects := EditProject(table, groups, projects, id, name, slug);
    }

    method MoveProject(id: Id, newGroup: Option<Id>) returns (r: Outcome)
      requires Valid()
      modifies this`projects
      ensures Valid()
      ensures (r, View()) == Apply(table, old(View()), Request.MoveProject(id, newGroup))
    {
      ProjectsCommit(table, View(), Request.MoveProject(id, newGroup));
      r, projects := RehangProject(table, groups, projects, id, newGroup);
    }

    /** The breadcrumb of a group: its strict ancestors, root first. */
    method Ancestors(id: Id) returns (r: Option<seq<Id>>)
      requires Valid()
      ensures r.None? <==> id !in groups
      ensures r.Some? ==>
                && r.value + [id] == Lineage(TreeOf(groups), id)
                && |r.value| == groups[id].depth
                && forall i | 0 <= i < |r.value| :: r.value[i] in groups && groups[r.value[i]].depth == i
                     && PathBelow(groups[id].fullPath, groups[r.value[i]].fullPath)
    {
      if id !in groups {
        return None;
      }
      ghost var t := TreeOf(groups);
      var ancestors: seq<Id> := [];
      var cursor := groups[id].parent;
      while cursor.Some?
        invariant cursor.Some? ==>
                            cursor.value in groups && Lineage(t, cursor.value) + ancestors + [id] == Lineage(t, id)
        invariant cursor.None? ==> ancestors + [id] == Lineage(t, id)
        decreases if cursor.Some? then Rank(t)[cursor.value] + 1 else 0
      {
        var cur := cursor.value;
        var anc := groups[cur];
        cursor := anc.parent;
        if cursor.Some? {
          Regroup(Lineage(t, cursor.value), cur, ancestors, [id]);
        }
        ancestors := [cur] + ancestors;
      }
      r := Some(ancestors);
      BreadcrumbColumns(table, groups, id, ancestors);
    }
  }

  // ---- the handlers of projects, on copies of the rows ----

  method AddProject(table: CharTable, rows: Rows, projects: map<Id, Project>, newId: NewId, name: Option<string>,
                    slug: Option<string>, group: Option<Id>)
    returns (r: Outcome, out: map<Id, Project>)
    requires Lawful(table)
    ensures (r, out) == ApplyToProjects(table, Namespace(TreeOf(rows), projects),
                                        Request.CreateProject(newId, name, slug, group))
  {
    out := projects;
    if NullOrBlank(table, name) {
      return BadRequest(NameRequired), out;
    }
    var newSlug := NormalizeSlug(table, SlugSource(table, slug, name.value));
    if |newSlug| == 0 {
      return BadRequest(SlugEmpty), out;
    }
    if group.Some? && group.value !in rows {
      return BadRequest(GroupMissing), out;
    }
    var collision := exists p | p in projects :: projects[p].group == group && projects[p].slug == newSlug;
    if collision {
      return Conflict(SlugInUse), out;
    }
    if newId in projects {
      return Failed, out;
    }
    out := projects[newId := Project(Trim(name.value, table.isSpace), newSlug, group)];
    r := Done;
  }

  method EditProject(table: CharTable, rows: Rows, projects: map<Id, Project>, id: Id, name: Option<string>,
                     slug: Option<string>)
    returns (r: Outcome, out: map<Id, Project>)
    requires Lawful(table)
    ensures (r, out) == ApplyToProjects(table, Namespace(TreeOf(rows), projects), Request.UpdateProject(id, name, slug))
  {
    out := projects;
    if id !in projects {
      return NotFound, out;
    }
    var p := projects[id];
    if name.Some? {
      if Blank(table, name.value) {
        return BadRequest(NameRequired), out;
      }
      p := p.(name := Trim(name.value, table.isSpace));
    }
    if slug.Some? {
      var newSlug := NormalizeSlug(table, slug.value);
      if |newSlug| == 0 {
        return BadRequest(SlugEmpty), out;
      }
      if newSlug != p.slug {
        var collision := exists x | x in projects ::
          projects[x].group == p.group && projects[x].slug == newSlug && x != id;
        if collision {
          return Conflict(SlugInUse), out;
        }
        p := p.(slug := newSlug);
      }
    }
    out := projects[id := p];
    r := Done;
  }

  method RehangProject(table: CharTable, rows: Rows, projects: map<Id, Project>, id: Id, newGroup: Option<Id>)
    returns (r: Outcome, out: map<Id, Project>)
    ensures (r, out) == ApplyToProjects(table, Namespace(TreeOf(rows), projects), Request.MoveProject(id, newGroup))
  {
    out := projects;
    if id !in projects {
      return NotFound, out;
    }
    var p := projects[id];
    if newGroup.Some? && newGroup.value !in rows {
      return BadRequest(GroupMissing), out;
    }
    var collision := exists x | x in projects ::
      projects[x].group == newGroup && projects[x].slug == p.slug && x != id;
    if collision {
      return Conflict(SlugInUse), out;
    }
    out := projects[id := p.(group := newGroup)];
    r := Done;
  }

  // ---- the breadcrumb ----

  lemma Regroup(a: seq<Id>, x: Id, b: seq<Id>, c: seq<Id>)
    ensures a + [x] + b + c == a + ([x] + b) + c
  {
  }

  lemma BreadcrumbColumns(table: CharTable, rows: Rows, id: Id, ancestors: seq<Id>)
    requires Lawful(table) && Indexed(rows) && SoundTree(table, TreeOf(rows)) && id in rows
    requires ancestors + [id] == Lineage(TreeOf(rows), id)
    ensures |ancestors| == rows[id].depth
    ensures forall i | 0 <= i < |ancestors| ::
              && ancestors[i] in rows && rows[ancestors[i]].depth == i
              && PathBelow(rows[id].fullPath, rows[ancestors[i]].fullPath)
  {
    var t := TreeOf(rows);
    assert Lineage(t, id)[..|ancestors|] == ancestors;
    forall i | 0 <= i < |ancestors|
      ensures ancestors[i] in rows && rows[ancestors[i]].depth == i
      ensures PathBelow(rows[id].fullPath, rows[ancestors[i]].fullPath)
    {
      LineagePrefix(t, id, i);
      StrictlyAbove(t, ancestors[i], id);
      PrefixIffDescendant(table, rows, ancestors[i], id);
    }
  }

  /** Whether a candidate lies in a group's subtree, decided by path prefix. */
  function IsDescendant(rows: Rows, ancestor: Id, candidate: Id): bool {
    if ancestor !in rows then false
    else if candidate !in rows then false
    else rows[candidate].fullPath == rows[ancestor].fullPath
         || PathBelow(rows[candidate].fullPath, rows[ancestor].fullPath)
  }

  /** The deepest cached depth in a subtree, found by path prefix. */
  method Deepest(table: CharTable, rows: Rows, id: Id) returns (deepest: int)
    requires Lawful(table) && Indexed(rows) && SoundTree(table, TreeOf(rows)) && id in rows
    ensures exists x :: x in rows && Within(TreeOf(rows), id, x) && Depth(TreeOf(rows), x) == deepest
    ensures forall x | x in rows && Within(TreeOf(rows), id, x) :: Depth(TreeOf(rows), x) <= deepest
  {
    var path := rows[id].fullPath;
    var subtree := set g | g in rows && (rows[g].fullPath == path || PathBelow(rows[g].fullPath, path));
    assert id in subtree;
    DeepestExists(rows, subtree);
    assert exists m :: m in subtree && forall x | x in subtree :: rows[x].depth <= rows[m].depth by {
      var m :| IsDeepest(rows, subtree, m);
    }
    var m :| m in subtree && forall x | x in subtree :: rows[x].depth <= rows[m].depth;
    deepest := rows[m].depth;
    forall x | x in rows
      ensures Within(TreeOf(rows), id, x) <==> x in subtree
    {
      PrefixIffDescendant(table, rows, id, x);
    }
  }

  /** The depth test of a move: the deepest cached depth of the subtree, shifted by the move. */
  method MoveTooDeep(table: CharTable, rows: Rows, id: Id, newParent: Option<Id>) returns (tooDeep: bool)
    requires Lawful(table) && Indexed(rows) && SoundTree(table, TreeOf(rows))
    requires id in rows && CanHang(TreeOf(rows), id, newParent)
    ensures tooDeep <==> WouldExceedDepth(TreeOf(rows), id, newParent)
  {
    var newDepth := if newParent.None? then 0 else rows[newParent.value].depth + 1;
    var deepest := Deepest(table, rows, id);
    DeepestDecidesDepth(TreeOf(rows), id, newParent, deepest);
    var addedDepth := newDepth - rows[id].depth;
    tooDeep := deepest + addedDepth > MAX_DEPTH;
  }

  /** The guards of a move. They use path prefixes and cached depths; the verdict is the tree's. */
  method CheckMove(table: CharTable, rows: Rows, id: Id, newParent: Option<Id>) returns (r: Outcome)
    requires Lawful(table) && Indexed(rows) && SoundTree(table, TreeOf(rows))
    ensures r == ApplyMove(TreeOf(rows), MoveGroup(id, newParent)).0
  {
    if id !in rows {
      return NotFound;
    }
    if newParent == Some(id) {
      return BadRequest(SelfParent);
    }
    if newParent.Some? {
      if newParent.value !in rows {
        return BadRequest(GroupMissing);
      }
      PrefixIffDescendant(table, rows, id, newParent.value);
      if IsDescendant(rows, id, newParent.value) {
        return BadRequest(UnderDescendant);
      }
    }
    var tooDeep := MoveTooDeep(table, rows, id, newParent);
    if tooDeep {
      return BadRequest(TooDeep);
    }
    var group := rows[id];
    var collision := exists g | g in rows :: rows[g].parent == newParent && rows[g].slug == group.slug && g != id;
    CollisionIsInUse(rows, id, newParent, group.slug);
    if collision {
      return Conflict(SlugInUse);
    }
    r := Done;
  }

  /** A creation on a copy of the rows; a copy is dropped unless every check passes. */
  method AddGroup(table: CharTable, rows: Rows, newId: NewId, name: Option<string>, slug: Option<string>,
                  description: Option<string>, parent: Option<Id>)
    returns (r: Outcome, out: Rows)
    requires Lawful(table) && Indexed(rows)
    ensures Indexed(out)
    ensures (r, TreeOf(out))
            == ApplyCreate(table, TreeOf(rows), Request.CreateGroup(newId, name, slug, description, parent))
  {
    out := rows;
    if NullOrBlank(table, name) {
      return BadRequest(NameRequired), out;
    }
    var newSlug := NormalizeSlug(table, SlugSource(table, slug, name.value));
    if |newSlug| == 0 {
      return BadRequest(SlugEmpty), out;
    }
    if parent.Some? {
      if parent.value !in rows {
        return BadRequest(GroupMissing), out;
      }
      if rows[parent.value].depth + 1 > MAX_DEPTH {
        return BadRequest(TooDeep), out;
      }
    }
    var siblingExists := exists g | g in rows :: rows[g].parent == parent && rows[g].slug == newSlug;
    if siblingExists {
      return Conflict(SlugInUse), out;
    }
    if newId in rows {
      return Failed, out;
    }
    var row := Row(
      Trim(name.value, table.isSpace),
      if description.None? then None else Cleaned(table, description.value),
      newSlug,
      parent,
      if parent.None? then newSlug else rows[parent.value].fullPath + "/" + newSlug,
      if parent.None? then 0 else rows[parent.value].depth + 1);
    CreatedRowIsIndexed(rows, newId, row);
    out := rows[newId := row];
    r := Done;
  }

  method RemoveGroup(rows: Rows, projects: map<Id, Project>, id: Id) returns (r: Outcome, out: Rows)
    requires Indexed(rows)
    ensures Indexed(out)
    ensures (r, TreeOf(out)) == ApplyDelete(Namespace(TreeOf(rows), projects), Request.DeleteGroup(id))
  {
    out := rows;
    if id !in rows {
      return NotFound, out;
    }
    var hasSubgroups := exists g | g in rows :: rows[g].parent == Some(id);
    var hasProjects := exists p | p in projects :: projects[p].group == Some(id);
    if hasSubgroups || hasProjects {
      return Conflict(NotEmpty), out;
    }
    DeletedRowsAreIndexed(rows, id);
    out := rows - {id};
    r := Done;
  }

  method RehangGroup(table: CharTable, rows: Rows, id: Id, newParent: Option<Id>) returns (r: Outcome, out: Rows)
    requires Lawful(table) && Indexed(rows) && SoundTree(table, TreeOf(rows))
    ensures Indexed(out)
    ensures (r, TreeOf(out)) == ApplyMove(TreeOf(rows), Request.MoveGroup(id, newParent))
  {
    out := rows;
    r := CheckMove(table, rows, id, newParent);
    MoveOutcome(TreeOf(rows), Request.MoveGroup(id, newParent));
    if r == Done {
      out := RewritePaths(table, rows, id, newParent, rows[id].slug);
    }
  }

  method EditGroup(table: CharTable, rows: Rows, id: Id, name: Option<string>, slug: Option<string>,
                   description: Option<string>)
    returns (r: Outcome, out: Rows)
    requires Lawful(table) && Indexed(rows) && SoundTree(table, TreeOf(rows))
    ensures Indexed(out)
    ensures (r, TreeOf(out)) == ApplyUpdate(table, TreeOf(rows), Request.UpdateGroup(id, name, slug, description))
  {
    out := rows;
    if id !in rows {
      return NotFound, out;
    }
    var row := rows[id];
    if name.Some? {
      if Blank(table, name.value) {
        return BadRequest(NameRequired), out;
      }
      row := row.(name := Trim(name.value, table.isSpace));
    }
    if description.Some? {
      row := row.(description := Cleaned(table, description.value));
    }
    EditOutcome(table, TreeOf(rows), id, name, slug, description);
    RedescribedRowsAreIndexed(rows, id, row);
    Redescribed(table, TreeOf(rows), id, row.name, row.description);
    r, out := Done, rows[id := row];
    if slug.Some? {
      r, out := ChangeSlug(table, out, id, slug.value);
      if r != Done {
        out := rows;
      }
    }
  }

  /** An update is a new description, then, if a slug is given, the slug part. */
  lemma EditOutcome(table: CharTable, t: Tree, id: Id, name: Option<string>, slug: Option<string>,
                    description: Option<string>)
    requires id in t && (name.Some? ==> !Blank(table, name.value))
    ensures var name' := if name.Some? then Trim(name.value, table.isSpace) else t[id].name;
            var description' := if description.Some? then Cleaned(table, description.value) else t[id].description;
            var u := t[id := t[id].(name := name', description := description')];
            var r := if slug.None? then Done else SlugVerdict(u, id, Slug(table, slug.value));
            ApplyUpdate(table, t, Request.UpdateGroup(id, name, slug, description))
            == (r, if r != Done then t
                   else if slug.None? then u else Relocate(u, id, t[id].parent, Slug(table, slug.value)))
  {
    var name' := if name.Some? then Trim(name.value, table.isSpace) else t[id].name;
    var description' := if description.Some? then Cleaned(table, description.value) else t[id].description;
    if slug.Some? {
      RenamedTwice(t, id, name', description', Slug(table, slug.value));
    } else {
      assert t[id].(name := name', description := description')
             == Node(name', description', t[id].slug, t[id].parent);
    }
  }

  /** What the slug part of an update comes to. */
  ghost function SlugVerdict(t: Tree, id: Id, newSlug: string): Outcome
    requires id in t
  {
    if newSlug == "" then BadRequest(SlugEmpty)
    else if newSlug != t[id].slug && SiblingSlugInUse(t, id, t[id].parent, newSlug) then Conflict(SlugInUse)
    else Done
  }

  /** The slug part of an update. */
  method ChangeSlug(table: CharTable, rows: Rows, id: Id, slug: string) returns (r: Outcome, out: Rows)
    requires Lawful(table) && Indexed(rows) && SoundTree(table, TreeOf(rows)) && id in rows
    ensures Indexed(out)
    ensures r == SlugVerdict(TreeOf(rows), id, Slug(table, slug))
    ensures r == Done ==> TreeOf(out) == Relocate(TreeOf(rows), id, rows[id].parent, Slug(table, slug))
    ensures r != Done ==> out == rows
  {
    out := rows;
    var newSlug := NormalizeSlug(table, slug);
    if |newSlug| == 0 {
      return BadRequest(SlugEmpty), out;
    }
    if newSlug != rows[id].slug {
      var collision := exists g | g in rows :: rows[g].parent == rows[id].parent && rows[g].slug == newSlug && g != id;
      CollisionIsInUse(rows, id, rows[id].parent, newSlug);
      if collision {
        return Conflict(SlugInUse), out;
      }
      DepthOfChild(TreeOf(rows), id);
      out := RewritePaths(table, rows, id, rows[id].parent, newSlug);
    } else {
      SameSlugRelocatesNothing(TreeOf(rows), id);
    }
    r := Done;
  }

  lemma SameSlugRelocatesNothing(t: Tree, id: Id)
    requires id in t
    ensures Relocate(t, id, t[id].parent, t[id].slug) == t
  {
  }

  /** The collision query over the rows is the tree's. */
  lemma CollisionIsInUse(rows: Rows, id: Id, parent: Option<Id>, slug: string)
    ensures (exists g :: g in rows && rows[g].parent == parent && rows[g].slug == slug && g != id)
            <==> SiblingSlugInUse(TreeOf(rows), id, parent, slug)
  {
    var t := TreeOf(rows);
    if SiblingSlugInUse(t, id, parent, slug) {
      var g :| g in t && g != id && t[g].parent == parent && t[g].slug == slug;
      assert g in rows && rows[g].parent == parent;
    }
    if g :| g in rows && rows[g].parent == parent && rows[g].slug == slug && g != id {
      assert g in t && t[g].parent == parent;
    }
  }

  /** Describing a group anew and then changing its slug is one node update. */
  lemma RenamedTwice(t: Tree, id: Id, name: string, description: Option<string>, slug: string)
    requires id in t
    ensures var u := t[id := t[id].(name := name, description := description)];
            && Relocate(u, id, t[id].parent, slug) == t[id := Node(name, description, slug, t[id].parent)]
            && (SiblingSlugInUse(u, id, t[id].parent, slug) <==> SiblingSlugInUse(t, id, t[id].parent, slug))
  {
    var u := t[id := t[id].(name := name, description := description)];
    assert forall g | g in t && g != id :: u[g] == t[g];
    if SiblingSlugInUse(t, id, t[id].parent, slug) {
      var g :| g in t && g != id && t[g].parent == t[id].parent && t[g].slug == slug;
      assert g in u && u[g].parent == t[id].parent;
    }
  }

  /** Re-hang a group and patch the cached columns of everything below it, one row at a time.
      The result is the index recomputed from scratch. */
  method RewritePaths(table: CharTable, rows: Rows, id: Id, newParent: Option<Id>, newSlug: string) returns (out: Rows)
    requires Lawful(table) && Indexed(rows) && SoundTree(table, TreeOf(rows))
    requires id in rows && CanHang(TreeOf(rows), id, newParent)
    ensures Indexed(out) && TreeOf(out) == Relocate(TreeOf(rows), id, newParent, newSlug)
    ensures forall x | x in rows && !Within(TreeOf(rows), id, x) :: out[x] == rows[x]
  {
    out := PatchRows(rows, id, newParent, newSlug);
    RewrittenRowsAreIndexed(table, rows, out, id, newParent, newSlug);
  }

  /** The row itself, then every row whose path lies below the old path. */
  method PatchRows(rows: Rows, id: Id, newParent: Option<Id>, newSlug: string) returns (out: Rows)
    requires id in rows && (newParent.Some? ==> newParent.value in rows)
    ensures Rewritten(rows, out, id, newParent, newSlug)
  {
    var group := rows[id];
    var oldPath := group.fullPath;
    var newPath := if newParent.None? then newSlug else rows[newParent.value].fullPath + "/" + newSlug;
    var newDepth := if newParent.None? then 0 else rows[newParent.value].depth + 1;
    var depthDelta := newDepth - group.depth;

    var descendants := set d | d in rows && PathBelow(rows[d].fullPath, oldPath);
    NotBelowItself(rows[id].fullPath);
    out := rows[id := group.(parent := newParent, slug := newSlug, fullPath := newPath, depth := newDepth)];
    out := PatchDescendants(out, descendants, oldPath, newPath, depthDelta);
  }

  ghost predicate Rewritten(rows: Rows, out: Rows, id: Id, newParent: Option<Id>, newSlug: string)
    requires id in rows && (newParent.Some? ==> newParent.value in rows)
  {
    var newPath := if newParent.None? then newSlug else rows[newParent.value].fullPath + "/" + newSlug;
    var newDepth := if newParent.None? then 0 else rows[newParent.value].depth + 1;
    && out.Keys == rows.Keys
    && out[id] == rows[id].(parent := newParent, slug := newSlug, fullPath := newPath, depth := newDepth)
    && forall d | d in rows && d != id ::
         out[d] == if PathBelow(rows[d].fullPath, rows[id].fullPath)
                   then Patched(rows[d], rows[id].fullPath, newPath, newDepth - rows[id].depth) else rows[d]
  }

  lemma NotBelowItself(path: string)
    ensures !PathBelow(path, path)
  {
  }

  /** Patching what the prefix test selects is patching the subtree. */
  lemma RewrittenRowsAreIndexed(table: CharTable, rows: Rows, out: Rows, id: Id, newParent: Option<Id>, newSlug: string)
    requires Lawful(table) && Indexed(rows) && SoundTree(table, TreeOf(rows))
    requires id in rows && CanHang(TreeOf(rows), id, newParent) && Rewritten(rows, out, id, newParent, newSlug)
    ensures Indexed(out) && TreeOf(out) == Relocate(TreeOf(rows), id, newParent, newSlug)
    ensures forall x | x in rows && !Within(TreeOf(rows), id, x) :: out[x] == rows[x]
  {
    forall d | d in rows && d != id
      ensures PathBelow(rows[d].fullPath, rows[id].fullPath) <==> Within(TreeOf(rows), id, d)
    {
      PrefixIffDescendant(table, rows, id, d);
    }
    PatchedRowsAreIndexed(rows, out, id, newParent, newSlug);
  }

  /** The rewrite loop: each listed row once, in any order. */
  method PatchDescendants(rows: Rows, descendants: set<Id>, oldPath: string, newPath: string, depthDelta: int)
    returns (out: Rows)
    requires descendants <= rows.Keys
    requires forall d | d in descendants :: |oldPath| <= |rows[d].fullPath|
    ensures out.Keys == rows.Keys
    ensures forall d | d in rows ::
              out[d] == if d in descendants then Patched(rows[d], oldPath, newPath, depthDelta) else rows[d]
  {
    out := rows;
    var todo := descendants;
    while exists d :: d in todo
      invariant todo <= descendants
      invariant out.Keys == rows.Keys
      invariant forall d | d in rows ::
                  out[d] == if d in descendants && d !in todo then Patched(rows[d], oldPath, newPath, depthDelta)
                            else rows[d]
      decreases todo
    {
      var d :| d in todo;
      out := out[d := out[d].(fullPath := newPath + out[d].fullPath[|oldPath|..], depth := out[d].depth + depthDelta)];
      todo := todo - {d};
    }
  }

  /** One descendant's row with its path prefix replaced and its depth shifted. */
  function Patched(row: Row, oldPath: string, newPath: string, depthDelta: int): Row {
    if |oldPath| <= |row.fullPath|
    then row.(fullPath := newPath + row.fullPath[|oldPath|..], depth := row.depth + depthDelta)
    else row
  }

  lemma PatchedRowsAreIndexed(rows: Rows, out: Rows, id: Id, newParent: Option<Id>, newSlug: string)
    requires Indexed(rows) && id in rows && CanHang(TreeOf(rows), id, newParent)
    requires out.Keys == rows.Keys
    requires var t := TreeOf(rows);
             var newPath := if newParent.None? then newSlug else PathOf(t, newParent.value) + "/" + newSlug;
             var newDepth := if newParent.None? then 0 else Depth(t, newParent.value) + 1;
             && out[id] == rows[id].(parent := newParent, slug := newSlug, fullPath := newPath, depth := newDepth)
             && forall d | d in rows && d != id ::
                  out[d] == if Within(t, id, d) then Patched(rows[d], PathOf(t, id), newPath, newDepth - Depth(t, id))
                            else rows[d]
    ensures Indexed(out) && TreeOf(out) == Relocate(TreeOf(rows), id, newParent, newSlug)
  {
    var t := TreeOf(rows);
    var u := Relocate(t, id, newParent, newSlug);
    RelocatedRoot(t, id, newParent, newSlug);
    forall d | d in rows
      ensures TreeOf(out)[d] == u[d]
    {
      assert TreeOf(rows)[d] == t[d];
    }
    assert TreeOf(out) == u;
    forall d | d in rows
      ensures out[d] == RowOf(u, d)
    {
      if Within(t, id, d) {
        RelocateInside(t, id, newParent, newSlug, d);
      } else {
        RelocateElsewhere(t, id, newParent, newSlug, d);
      }
    }
  }

  lemma CreatedRowIsIndexed(rows: Rows, newId: NewId, row: Row)
    requires Indexed(rows) && newId !in rows
    requires row.parent.Some? ==> row.parent.value in rows
    requires row.depth == if row.parent.None? then 0 else rows[row.parent.value].depth + 1
    requires row.fullPath == if row.parent.None? then row.slug else rows[row.parent.value].fullPath + "/" + row.slug
    ensures Indexed(rows[newId := row])
    ensures TreeOf(rows[newId := row]) == TreeOf(rows)[newId := NodeOf(row)]
  {
    TreeOfPut(rows, newId, row);
    ChildAdded(TreeOf(rows), newId, NodeOf(row));
  }

  /** A row that keeps its parent, slug and cached columns. */
  lemma RedescribedRowsAreIndexed(rows: Rows, id: Id, row: Row)
    requires Indexed(rows) && id in rows && row == rows[id].(name := row.name, description := row.description)
    ensures Indexed(rows[id := row])
    ensures TreeOf(rows[id := row]) == TreeOf(rows)[id := NodeOf(row)]
  {
    TreeOfPut(rows, id, row);
    SameShape(TreeOf(rows), TreeOf(rows)[id := NodeOf(row)]);
  }

  lemma DeletedRowsAreIndexed(rows: Rows, id: Id)
    requires Indexed(rows) && id in rows
    requires !HasSubgroups(TreeOf(rows), id)
    ensures Indexed(rows - {id}) && TreeOf(rows - {id}) == TreeOf(rows) - {id}
  {
    assert TreeOf(rows - {id}) == TreeOf(rows) - {id};
    LeafRemoved(TreeOf(rows), id);
  }

  /** The groups on a lineage are at depths 0, 1, 2, ... */
  lemma {:induction false} LineagePrefix(t: Tree, id: Id, i: nat)
    requires Grounded(t) && id in t && i < |Lineage(t, id)|
    ensures Lineage(t, id)[i] in t && Depth(t, Lineage(t, id)[i]) == i
    decreases Rank(t)[id]
  {
    if i < |Lineage(t, id)| - 1 {
      LineagePrefix(t, t[id].parent.value, i);
    }
  }
}
