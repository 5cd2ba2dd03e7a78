/** What each request does, stated of the namespace before and after and of nothing else: which answer it
    gets, what is stored at its identifier, and that everything else is as it was. */
module NamespaceEffects {
  import opened Options
  import opened Slugs
  import opened GroupTree
  import opened NamespaceSpec

  lemma NothingGiven(table: CharTable, s: Option<string>)
    ensures NullOrBlank(table, s) <==> s.None? || forall i | 0 <= i < |s.value| :: table.isSpace(s.value[i])
  {
  }

  /** The text a slug is made from: the given one, or the name if nothing or only blanks are given. */
  lemma SlugSourceIs(table: CharTable, slug: Option<string>, name: string)
    ensures (slug.None? || forall i | 0 <= i < |slug.value| :: table.isSpace(slug.value[i]))
            ==> SlugSource(table, slug, name) == name
    ensures !(slug.None? || forall i | 0 <= i < |slug.value| :: table.isSpace(slug.value[i]))
            ==> SlugSource(table, slug, name) == slug.value
  {
  }

  /** A group is created exactly when it has a name, a slug is left of what was given, its parent exists less
      than ten levels down, no sibling has the slug and the identifier is new. */
  lemma CreateGroupVerdict(table: CharTable, ns: Namespace, newId: NewId, name: Option<string>, slug: Option<string>,
                           description: Option<string>, parent: Option<Id>)
    requires Grounded(ns.groups)
    ensures var r := Apply(table, ns, CreateGroup(newId, name, slug, description, parent)).0;
            && (r == BadRequest(NameRequired)
                <==> name.None? || forall i | 0 <= i < |name.value| :: table.isSpace(name.value[i]))
            && (r != BadRequest(NameRequired) ==>
                  var newSlug := Slug(table, SlugSource(table, slug, name.value));
                  var noParent := parent.Some? && parent.value !in ns.groups;
                  var deep := parent.Some? && !noParent && |Lineage(ns.groups, parent.value)| > 10;
                  var taken := exists g :: g in ns.groups && ns.groups[g].parent == parent
                                         && ns.groups[g].slug == newSlug;
                  && (r == BadRequest(SlugEmpty) <==> newSlug == "")
                  && (r == BadRequest(GroupMissing) <==> newSlug != "" && noParent)
                  && (r == BadRequest(TooDeep) <==> newSlug != "" && deep)
                  && (r == Conflict(SlugInUse) <==> newSlug != "" && !noParent && !deep && taken)
                  && (r == Failed <==> newSlug != "" && !noParent && !deep && !taken && newId in ns.groups)
                  && (r == Done <==> newSlug != "" && !noParent && !deep && !taken && newId !in ns.groups))
  {
    NothingGiven(table, name);
    if !NullOrBlank(table, name) {
      var newSlug := Slug(table, SlugSource(table, slug, name.value));
      if g :| g in ns.groups && ns.groups[g].parent == parent && ns.groups[g].slug == newSlug {
        assert g in ns.groups && ns.groups[g].parent == parent && ns.groups[g].slug == newSlug;
      }
    }
  }

  /** And then it is stored as given, and nothing else changes. */
  lemma CreateGroupEffect(table: CharTable, ns: Namespace, newId: NewId, name: Option<string>, slug: Option<string>,
                          description: Option<string>, parent: Option<Id>)
    requires Grounded(ns.groups)
    ensures var (r, after) := Apply(table, ns, CreateGroup(newId, name, slug, description, parent));
            && after.projects == ns.projects && (r != Done ==> after == ns)
            && (r == Done ==>
                  && name.Some? && newId !in ns.groups && after.groups.Keys == ns.groups.Keys + {newId}
                  && (forall g | g in ns.groups :: after.groups[g] == ns.groups[g])
                  && after.groups[newId].name == Trim(name.value, table.isSpace)
                  && after.groups[newId].slug == Slug(table, SlugSource(table, slug, name.value))
                  && after.groups[newId].parent == parent)
  {
  }

  /** The description kept is the given one trimmed, or none if nothing is left. */
  lemma CreatedDescription(table: CharTable, ns: Namespace, newId: NewId, name: Option<string>, slug: Option<string>,
                           description: Option<string>, parent: Option<Id>)
    requires Grounded(ns.groups)
    requires Apply(table, ns, CreateGroup(newId, name, slug, description, parent)).0 == Done
    ensures var node := Apply(table, ns, CreateGroup(newId, name, slug, description, parent)).1.groups[newId];
            if description.None? || forall i | 0 <= i < |description.value| :: table.isSpace(description.value[i])
            then node.description == None
            else node.description == Some(Trim(description.value, table.isSpace))
  {
  }

  /** An update changes what it gives and keeps the rest of the group, and never its parent. */
  lemma UpdateGroupEffect(table: CharTable, ns: Namespace, id: Id, name: Option<string>, slug: Option<string>,
                          description: Option<string>)
    requires Grounded(ns.groups)
    ensures var (r, after) := Apply(table, ns, UpdateGroup(id, name, slug, description));
            && after.projects == ns.projects && (r != Done ==> after == ns)
            && (r == NotFound <==> id !in ns.groups)
            && (id in ns.groups ==>
                  var before := ns.groups[id];
                  var blank := name.Some? && forall i | 0 <= i < |name.value| :: table.isSpace(name.value[i]);
                  var newSlug := if slug.Some? then Slug(table, slug.value) else before.slug;
                  var empty := slug.Some? && newSlug == "";
                  var taken := newSlug != before.slug
                               && (exists g :: g in ns.groups && g != id && ns.groups[g].parent == before.parent
                                               && ns.groups[g].slug == newSlug);
                  && (r == BadRequest(NameRequired) <==> blank)
                  && (r == BadRequest(SlugEmpty) <==> !blank && empty)
                  && (r == Conflict(SlugInUse) <==> !blank && !empty && taken)
                  && (r == Done <==> !blank && !empty && !taken)
                  && (r == Done ==>
                        && after.groups.Keys == ns.groups.Keys
                        && (forall g | g in ns.groups && g != id :: after.groups[g] == ns.groups[g])
                        && after.groups[id].parent == before.parent && after.groups[id].slug == newSlug
                        && after.groups[id].name
                           == (if name.Some? then Trim(name.value, table.isSpace) else before.name)))
  {
  }

  lemma UpdatedDescription(table: CharTable, ns: Namespace, id: Id, name: Option<string>, slug: Option<string>,
                           description: Option<string>)
    requires Grounded(ns.groups)
    requires Apply(table, ns, UpdateGroup(id, name, slug, description)).0 == Done
    ensures var node := Apply(table, ns, UpdateGroup(id, name, slug, description)).1.groups[id];
            if description.None? then node.description == ns.groups[id].description
            else if forall i | 0 <= i < |description.value| :: table.isSpace(description.value[i])
            then node.description == None
            else node.description == Some(Trim(description.value, table.isSpace))
  {
  }

  /** Some group at or below `id` would end up deeper than ten below the top. */
  lemma TooDeepMeans(t: Tree, id: Id, parent: Option<Id>)
    requires Grounded(t) && id in t && CanHang(t, id, parent)
    ensures WouldExceedDepth(t, id, parent)
            <==> exists x :: x in t && id in Lineage(t, x)
                   && |Lineage(t, x)| - |Lineage(t, id)| + (if parent.Some? then |Lineage(t, parent.value)| else 0) > 10
  {
    RelocateIsGrounded(t, id, parent, t[id].slug);
    var u := Relocate(t, id, parent, t[id].slug);
    forall x | x in t && Within(t, id, x)
      ensures Depth(u, x)
              == |Lineage(t, x)| - |Lineage(t, id)| + (if parent.Some? then |Lineage(t, parent.value)| else 0)
    {
      DepthAfterRelocate(t, id, parent, t[id].slug, x);
    }
  }

  /** A move changes the parent of one group, exactly when the new parent exists, is neither the group nor
      below it, leaves nothing too deep, and has no child with the slug. */
  lemma MoveGroupEffect(table: CharTable, ns: Namespace, id: Id, parent: Option<Id>)
    requires Grounded(ns.groups)
    ensures var (r, after) := Apply(table, ns, MoveGroup(id, parent));
            && after.projects == ns.projects && (r != Done ==> after == ns)
            && (r == NotFound <==> id !in ns.groups)
            && (id in ns.groups ==>
                  && (r == BadRequest(SelfParent) <==> parent == Some(id))
                  && (r == BadRequest(GroupMissing)
                      <==> parent.Some? && parent.value != id && parent.value !in ns.groups)
                  && (r == BadRequest(UnderDescendant)
                      <==> parent.Some? && parent.value != id && parent.value in ns.groups
                           && id in Lineage(ns.groups, parent.value)))
            && (r == Done ==>
                  && after.groups.Keys == ns.groups.Keys
                  && (forall g | g in ns.groups && g != id :: after.groups[g] == ns.groups[g])
                  && after.groups[id].parent == parent && after.groups[id].slug == ns.groups[id].slug
                  && after.groups[id].name == ns.groups[id].name
                  && after.groups[id].description == ns.groups[id].description)
  {
  }

  /** For a destination that exists outside the subtree: which of the two last checks rejects. */
  lemma MoveGroupVerdict(table: CharTable, ns: Namespace, id: Id, parent: Option<Id>)
    requires Grounded(ns.groups) && id in ns.groups
    requires parent.Some? ==> parent.value in ns.groups && id !in Lineage(ns.groups, parent.value)
    ensures var r := Apply(table, ns, MoveGroup(id, parent)).0;
            var t := ns.groups;
            var deep := exists x :: x in t && id in Lineage(t, x)
                          && |Lineage(t, x)| - |Lineage(t, id)|
                             + (if parent.Some? then |Lineage(t, parent.value)| else 0) > 10;
            var taken := exists g :: g in t && g != id && t[g].parent == parent && t[g].slug == t[id].slug;
            && (r == BadRequest(TooDeep) <==> deep)
            && (r == Conflict(SlugInUse) <==> !deep && taken)
            && (r == Done <==> !deep && !taken)
  {
    assert parent != Some(id);
    TooDeepMeans(ns.groups, id, parent);
  }

  /** A deletion removes one group, exactly when it is stored and nothing hangs under it. */
  lemma DeleteGroupEffect(table: CharTable, ns: Namespace, id: Id)
    requires Grounded(ns.groups)
    ensures var (r, after) := Apply(table, ns, DeleteGroup(id));
            var free := && (forall g | g in ns.groups :: ns.groups[g].parent != Some(id))
                        && (forall p | p in ns.projects :: ns.projects[p].group != Some(id));
            && after.projects == ns.projects && (r != Done ==> after == ns)
            && (r == NotFound <==> id !in ns.groups)
            && (r == Conflict(NotEmpty) <==> id in ns.groups && !free)
            && (r == Done <==> id in ns.groups && free)
            && (r == Done ==>
                  && after.groups.Keys == ns.groups.Keys - {id}
                  && forall g | g in ns.groups && g != id :: after.groups[g] == ns.groups[g])
  {
  }

  /** A project is created exactly when it has a name, a slug is left of what was given, its group exists, no
      project there has the slug and the identifier is new. */
  lemma CreateProjectVerdict(table: CharTable, ns: Namespace, newId: NewId, name: Option<string>, slug: Option<string>,
                             group: Option<Id>)
    requires Grounded(ns.groups)
    ensures var r := Apply(table, ns, CreateProject(newId, name, slug, group)).0;
            && (r == BadRequest(NameRequired)
                <==> name.None? || forall i | 0 <= i < |name.value| :: table.isSpace(name.value[i]))
            && (r != BadRequest(NameRequired) ==>
                  var newSlug := Slug(table, SlugSource(table, slug, name.value));
                  var noGroup := group.Some? && group.value !in ns.groups;
                  var taken := exists p :: p in ns.projects && ns.projects[p].group == group
                                         && ns.projects[p].slug == newSlug;
                  && (r == BadRequest(SlugEmpty) <==> newSlug == "")
                  && (r == BadRequest(GroupMissing) <==> newSlug != "" && noGroup)
                  && (r == Conflict(SlugInUse) <==> newSlug != "" && !noGroup && taken)
                  && (r == Failed <==> newSlug != "" && !noGroup && !taken && newId in ns.projects)
                  && (r == Done <==> newSlug != "" && !noGroup && !taken && newId !in ns.projects))
  {
    NothingGiven(table, name);
    if !NullOrBlank(table, name) {
      var newSlug := Slug(table, SlugSource(table, slug, name.value));
      if p :| p in ns.projects && ns.projects[p].group == group && ns.projects[p].slug == newSlug {
        assert p in ns.projects && ns.projects[p].group == group && ns.projects[p].slug == newSlug;
      }
    }
  }

  /** And then it is stored as given, and nothing else changes. */
  lemma CreateProjectEffect(table: CharTable, ns: Namespace, newId: NewId, name: Option<string>, slug: Option<string>,
                            group: Option<Id>)
    requires Grounded(ns.groups)
    ensures var (r, after) := Apply(table, ns, CreateProject(newId, name, slug, group));
            && after.groups == ns.groups && (r != Done ==> after == ns)
            && (r == Done ==>
                  && name.Some? && newId !in ns.projects && after.projects.Keys == ns.projects.Keys + {newId}
                  && (forall p | p in ns.projects :: after.projects[p] == ns.projects[p])
                  && after.projects[newId]
                     == Project(Trim(name.value, table.isSpace), Slug(table, SlugSource(table, slug, name.value)),
                                group))
  {
  }

  /** An update of a project changes what it gives and never its group. */
  lemma UpdateProjectEffect(table: CharTable, ns: Namespace, id: Id, name: Option<string>, slug: Option<string>)
    requires Grounded(ns.groups)
    ensures var (r, after) := Apply(table, ns, UpdateProject(id, name, slug));
            && after.groups == ns.groups && (r != Done ==> after == ns)
            && (r == NotFound <==> id !in ns.projects)
            && (id in ns.projects ==>
                  var before := ns.projects[id];
                  var blank := name.Some? && forall i | 0 <= i < |name.value| :: table.isSpace(name.value[i]);
                  var newSlug := if slug.Some? then Slug(table, slug.value) else before.slug;
                  var empty := slug.Some? && newSlug == "";
                  var taken := newSlug != before.slug
                               && (exists p :: p in ns.projects && p != id && ns.projects[p].group == before.group
                                               && ns.projects[p].slug == newSlug);
                  && (r == BadRequest(NameRequired) <==> blank)
                  && (r == BadRequest(SlugEmpty) <==> !blank && empty)
                  && (r == Conflict(SlugInUse) <==> !blank && !empty && taken)
                  && (r == Done <==> !blank && !empty && !taken)
                  && (r == Done ==>
                        && after.projects.Keys == ns.projects.Keys
                        && (forall p | p in ns.projects && p != id :: after.projects[p] == ns.projects[p])
                        && after.projects[id].group == before.group && after.projects[id].slug == newSlug
                        && after.projects[id].name
                           == (if name.Some? then Trim(name.value, table.isSpace) else before.name)))
  {
  }

  /** A move of a project changes its group and nothing else. */
  lemma MoveProjectEffect(table: CharTable, ns: Namespace, id: Id, group: Option<Id>)
    requires Grounded(ns.groups)
    ensures var (r, after) := Apply(table, ns, MoveProject(id, group));
            && after.groups == ns.groups && (r != Done ==> after == ns)
            && (r == NotFound <==> id !in ns.projects)
            && (id in ns.projects ==>
                  var noGroup := group.Some? && group.value !in ns.groups;
                  var taken := exists p :: p in ns.projects && p != id && ns.projects[p].group == group
                                           && ns.projects[p].slug == ns.projects[id].slug;
                  && (r == BadRequest(GroupMissing) <==> noGroup)
                  && (r == Conflict(SlugInUse) <==> !noGroup && taken)
                  && (r == Done <==> !noGroup && !taken)
                  && (r == Done ==>
                        && after.projects.Keys == ns.projects.Keys
                        && (forall p | p in ns.projects && p != id :: after.projects[p] == ns.projects[p])
                        && after.projects[id] == Project(ns.projects[id].name, ns.projects[id].slug, group)))
  {
  }
}
