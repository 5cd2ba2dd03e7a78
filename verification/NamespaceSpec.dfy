/** What every request does to the namespace, decided on the plain tree.

    A request either succeeds or leaves the namespace exactly as it was. Everything a handler looks
    up through a cached path or depth is stated here by walking parents instead. */
module NamespaceSpec {
  import opened Options
  import opened Slugs
  import opened GroupTree

  datatype Project = Project(name: string, slug: string, group: Option<Id>)
  datatype Namespace = Namespace(groups: Tree, projects: map<Id, Project>)

  datatype Reason
    = NameRequired | SlugEmpty | GroupMissing | TooDeep | SelfParent | UnderDescendant | NotEmpty | SlugInUse

  /** `Failed` is the database refusing a duplicate primary key. */
  datatype Outcome = Done | NotFound | BadRequest(reason: Reason) | Conflict(reason: Reason) | Failed

  datatype Request =
    | CreateGroup(newId: NewId, name: Option<string>, slug: Option<string>,
                  description: Option<string>, parent: Option<Id>)
    | UpdateGroup(id: Id, newName: Option<string>, newSlug: Option<string>, newDescription: Option<string>)
    | MoveGroup(id: Id, newParent: Option<Id>)
    | DeleteGroup(id: Id)
    | CreateProject(newId: NewId, name: Option<string>, slug: Option<string>, group: Option<Id>)
    | UpdateProject(id: Id, newName: Option<string>, newSlug: Option<string>)
    | MoveProject(id: Id, newGroup: Option<Id>)

  // ---- small string rules ----

  predicate Blank(table: CharTable, s: string) {
    forall i | 0 <= i < |s| :: table.isSpace(s[i])
  }

  predicate NullOrBlank(table: CharTable, s: Option<string>) {
    s.None? || Blank(table, s.value)
  }

  function Cleaned(table: CharTable, s: string): Option<string> {
    if Blank(table, s) then None else Some(Trim(s, table.isSpace))
  }

  /** The text a new slug is made from: the given slug, or the name when none is given. */
  function SlugSource(table: CharTable, slug: Option<string>, name: string): string {
    if NullOrBlank(table, slug) then name else slug.value
  }

  // ---- sound namespaces ----

  ghost predicate SiblingSlugInUse(t: Tree, id: Id, parent: Option<Id>, slug: string) {
    exists g :: g in t && g != id && t[g].parent == parent && t[g].slug == slug
  }

  ghost predicate ProjectSlugInUse(projects: map<Id, Project>, id: Id, group: Option<Id>, slug: string) {
    exists p :: p in projects && p != id && projects[p].group == group && projects[p].slug == slug
  }

  ghost predicate GoodSlug(table: CharTable, slug: string) {
    slug != "" && Canonical(table, slug)
  }

  ghost predicate GoodSlugs(table: CharTable, t: Tree) {
    forall g | g in t :: GoodSlug(table, t[g].slug)
  }

  ghost predicate SiblingsDiffer(t: Tree) {
    forall g | g in t :: !SiblingSlugInUse(t, g, t[g].parent, t[g].slug)
  }

  ghost predicate Shallow(t: Tree)
    requires Grounded(t)
  {
    forall g | g in t :: Depth(t, g) <= MAX_DEPTH
  }

  ghost predicate SoundTree(table: CharTable, t: Tree) {
    Grounded(t) && NO_ID !in t && GoodSlugs(table, t) && SiblingsDiffer(t) && Shallow(t)
  }

  ghost predicate SoundProjects(table: CharTable, ns: Namespace) {
    && (forall p | p in ns.projects :: GoodSlug(table, ns.projects[p].slug))
    && (forall p | p in ns.projects :: !ProjectSlugInUse(ns.projects, p, ns.projects[p].group, ns.projects[p].slug))
    && (forall p | p in ns.projects && ns.projects[p].group.Some? :: ns.projects[p].group.value in ns.groups)
  }

  ghost predicate Sound(table: CharTable, ns: Namespace) {
    SoundTree(table, ns.groups) && SoundProjects(table, ns)
  }

  // ---- requests on groups ----

  ghost function ApplyCreate(table: CharTable, t: Tree, r: Request): (Outcome, Tree)
    requires r.CreateGroup? && Grounded(t)
  {
    if NullOrBlank(table, r.name) then (BadRequest(NameRequired), t)
    else
      var slug := Slug(table, SlugSource(table, r.slug, r.name.value));
      if slug == "" then (BadRequest(SlugEmpty), t)
      else if r.parent.Some? && r.parent.value !in t then (BadRequest(GroupMissing), t)
      else if r.parent.Some? && Depth(t, r.parent.value) + 1 > MAX_DEPTH then (BadRequest(TooDeep), t)
      else if exists g :: g in t && t[g].parent == r.parent && t[g].slug == slug then (Conflict(SlugInUse), t)
      else if r.newId in t then (Failed, t)
      else
        var description := if r.description.None? then None else Cleaned(table, r.description.value);
        (Done, t[r.newId := Node(Trim(r.name.value, table.isSpace), description, slug, r.parent)])
  }

  ghost function ApplyUpdate(table: CharTable, t: Tree, r: Request): (Outcome, Tree)
    requires r.UpdateGroup?
  {
    if r.id !in t then (NotFound, t)
    else if r.newName.Some? && Blank(table, r.newName.value) then (BadRequest(NameRequired), t)
    else
      var node := t[r.id];
      var name := if r.newName.Some? then Trim(r.newName.value, table.isSpace) else node.name;
      var description := if r.newDescription.Some? then Cleaned(table, r.newDescription.value) else node.description;
      var slug := if r.newSlug.Some? then Slug(table, r.newSlug.value) else node.slug;
      if r.newSlug.Some? && slug == "" then (BadRequest(SlugEmpty), t)
      else if slug != node.slug && SiblingSlugInUse(t, r.id, node.parent, slug) then (Conflict(SlugInUse), t)
      else (Done, t[r.id := Node(name, description, slug, node.parent)])
  }

  /** Some group of the subtree would end up deeper than allowed. */
  ghost predicate WouldExceedDepth(t: Tree, id: Id, parent: Option<Id>)
    requires Grounded(t) && id in t && CanHang(t, id, parent)
  {
    RelocateIsGrounded(t, id, parent, t[id].slug);
    exists x :: x in t && Within(t, id, x) && Depth(Relocate(t, id, parent, t[id].slug), x) > MAX_DEPTH
  }

  ghost function ApplyMove(t: Tree, r: Request): (Outcome, Tree)
    requires r.MoveGroup? && Grounded(t)
  {
    if r.id !in t then (NotFound, t)
    else if r.newParent == Some(r.id) then (BadRequest(SelfParent), t)
    else if r.newParent.Some? && r.newParent.value !in t then (BadRequest(GroupMissing), t)
    else if r.newParent.Some? && Within(t, r.id, r.newParent.value) then (BadRequest(UnderDescendant), t)
    else if WouldExceedDepth(t, r.id, r.newParent) then (BadRequest(TooDeep), t)
    else if SiblingSlugInUse(t, r.id, r.newParent, t[r.id].slug) then (Conflict(SlugInUse), t)
    else (Done, Relocate(t, r.id, r.newParent, t[r.id].slug))
  }

  lemma MoveOutcome(t: Tree, r: Request)
    requires r.MoveGroup? && Grounded(t)
    ensures ApplyMove(t, r).0 == Done ==>
              && r.id in t && CanHang(t, r.id, r.newParent)
              && ApplyMove(t, r).1 == Relocate(t, r.id, r.newParent, t[r.id].slug)
    ensures ApplyMove(t, r).0 != Done ==> ApplyMove(t, r).1 == t
  {
  }

  lemma MoveAccepted(t: Tree, id: Id, parent: Option<Id>)
    requires Grounded(t) && id in t && CanHang(t, id, parent)
    requires !WouldExceedDepth(t, id, parent) && !SiblingSlugInUse(t, id, parent, t[id].slug)
    ensures ApplyMove(t, Request.MoveGroup(id, parent)) == (Done, Relocate(t, id, parent, t[id].slug))
  {
  }

  ghost predicate HasSubgroups(t: Tree, id: Id) {
    exists g :: g in t && t[g].parent == Some(id)
  }

  ghost predicate HasProjects(projects: map<Id, Project>, id: Id) {
    exists p :: p in projects && projects[p].group == Some(id)
  }

  ghost function ApplyDelete(ns: Namespace, r: Request): (Outcome, Tree)
    requires r.DeleteGroup?
  {
    var t := ns.groups;
    if r.id !in t then (NotFound, t)
    else if HasSubgroups(t, r.id) || HasProjects(ns.projects, r.id) then (Conflict(NotEmpty), t)
    else (Done, t - {r.id})
  }

  // ---- requests on projects ----

  ghost function ApplyToProjects(table: CharTable, ns: Namespace, r: Request): (Outcome, map<Id, Project>)
    requires r.CreateProject? || r.UpdateProject? || r.MoveProject?
  {
    var ps := ns.projects;
    match r
    case CreateProject(newId, name, slugIn, group) =>
      if NullOrBlank(table, name) then (BadRequest(NameRequired), ps)
      else
        var slug := Slug(table, SlugSource(table, slugIn, name.value));
        if slug == "" then (BadRequest(SlugEmpty), ps)
        else if group.Some? && group.value !in ns.groups then (BadRequest(GroupMissing), ps)
        else if exists p :: p in ps && ps[p].group == group && ps[p].slug == slug then (Conflict(SlugInUse), ps)
        else if newId in ps then (Failed, ps)
        else (Done, ps[newId := Project(Trim(name.value, table.isSpace), slug, group)])
    case UpdateProject(id, newName, newSlug) =>
      if id !in ps then (NotFound, ps)
      else if newName.Some? && Blank(table, newName.value) then (BadRequest(NameRequired), ps)
      else
        var name := if newName.Some? then Trim(newName.value, table.isSpace) else ps[id].name;
        var slug := if newSlug.Some? then Slug(table, newSlug.value) else ps[id].slug;
        if newSlug.Some? && slug == "" then (BadRequest(SlugEmpty), ps)
        else if slug != ps[id].slug && ProjectSlugInUse(ps, id, ps[id].group, slug) then (Conflict(SlugInUse), ps)
        else (Done, ps[id := Project(name, slug, ps[id].group)])
    case MoveProject(id, newGroup) =>
      if id !in ps then (NotFound, ps)
      else if newGroup.Some? && newGroup.value !in ns.groups then (BadRequest(GroupMissing), ps)
      else if ProjectSlugInUse(ps, id, newGroup, ps[id].slug) then (Conflict(SlugInUse), ps)
      else (Done, ps[id := ps[id].(group := newGroup)])
    case _ => (NotFound, ps)
  }

  // ---- one request, and whole runs ----

  ghost function Apply(table: CharTable, ns: Namespace, r: Request): (Outcome, Namespace)
    requires Grounded(ns.groups)
  {
    match r
    case CreateGroup(_, _, _, _, _) => var (o, t) := ApplyCreate(table, ns.groups, r); (o, ns.(groups := t))
    case UpdateGroup(_, _, _, _) => var (o, t) := ApplyUpdate(table, ns.groups, r); (o, ns.(groups := t))
    case MoveGroup(_, _) => var (o, t) := ApplyMove(ns.groups, r); (o, ns.(groups := t))
    case DeleteGroup(_) => var (o, t) := ApplyDelete(ns, r); (o, ns.(groups := t))
    case _ => var (o, ps) := ApplyToProjects(table, ns, r); (o, ns.(projects := ps))
  }

  /** Anything but success leaves the namespace as it was. */
  lemma RejectedChangesNothing(table: CharTable, ns: Namespace, r: Request)
    requires Grounded(ns.groups)
    ensures Apply(table, ns, r).0 != Done ==> Apply(table, ns, r).1 == ns
  {
  }

  const EMPTY := Namespace(map[], map[])

  lemma EmptyIsSound(table: CharTable)
    ensures Sound(table, EMPTY)
  {
    var rank: map<Id, nat> := map[];
    assert Ranked(EMPTY.groups, rank);
  }

  /** The namespace after a whole run of requests, starting empty. */
  ghost function Run(table: CharTable, requests: seq<Request>): (ns: Namespace)
    requires Lawful(table)
    ensures Sound(table, ns)
  {
    if requests == [] then EmptyIsSound(table); EMPTY
    else
      var before := Run(table, requests[..|requests| - 1]);
      ApplyIsSound(table, before, requests[|requests| - 1]);
      Apply(table, before, requests[|requests| - 1]).1
  }

  // ---- soundness is kept ----

  lemma SlugIsGood(table: CharTable, raw: string)
    requires Lawful(table) && Slug(table, raw) != ""
    ensures GoodSlug(table, Slug(table, raw))
  {
    SlugIsCanonical(table, raw);
  }

  /** An accepted change of the groups that loses none of them keeps the whole namespace sound. */
  lemma GroupsReplaced(table: CharTable, ns: Namespace, t: Tree)
    requires Sound(table, ns) && SoundTree(table, t) && ns.groups.Keys <= t.Keys
    ensures Sound(table, ns.(groups := t))
  {
    ProjectsKeepTheirGroups(table, ns, t);
  }

  lemma CreationIsSound(table: CharTable, ns: Namespace, r: Request)
    requires Lawful(table) && Sound(table, ns) && r.CreateGroup? && Apply(table, ns, r).0 == Done
    ensures Sound(table, Apply(table, ns, r).1)
  {
    CreateIsSound(table, ns.groups, r);
    GroupsReplaced(table, ns, ApplyCreate(table, ns.groups, r).1);
  }

  lemma UpdatingIsSound(table: CharTable, ns: Namespace, r: Request)
    requires Lawful(table) && Sound(table, ns) && r.UpdateGroup? && Apply(table, ns, r).0 == Done
    ensures Sound(table, Apply(table, ns, r).1)
  {
    UpdateIsSound(table, ns.groups, r);
    GroupsReplaced(table, ns, ApplyUpdate(table, ns.groups, r).1);
  }

  lemma MovingIsSound(table: CharTable, ns: Namespace, r: Request)
    requires Lawful(table) && Sound(table, ns) && r.MoveGroup? && Apply(table, ns, r).0 == Done
    ensures Sound(table, Apply(table, ns, r).1)
  {
    MoveIsSound(table, ns.groups, r);
    GroupsReplaced(table, ns, ApplyMove(ns.groups, r).1);
  }

  lemma ApplyIsSound(table: CharTable, ns: Namespace, r: Request)
    requires Lawful(table) && Sound(table, ns)
    ensures Sound(table, Apply(table, ns, r).1)
  {
    RejectedChangesNothing(table, ns, r);
    if Apply(table, ns, r).0 == Done {
      if r.CreateGroup? {
        CreationIsSound(table, ns, r);
      } else if r.UpdateGroup? {
        UpdatingIsSound(table, ns, r);
      } else if r.MoveGroup? {
        MovingIsSound(table, ns, r);
      } else if r.DeleteGroup? {
        DeleteIsSound(table, ns, r);
      } else {
        ProjectsStaySound(table, ns, r);
      }
    }
  }

  // ---- committing one request's outcome ----

  lemma CreateCommits(table: CharTable, ns: Namespace, r: Request)
    requires Lawful(table) && Sound(table, ns) && r.CreateGroup?
    ensures var (o, t) := ApplyCreate(table, ns.groups, r);
            Apply(table, ns, r) == (o, ns.(groups := t)) && Sound(table, ns.(groups := t))
  {
    ApplyIsSound(table, ns, r);
  }

  lemma UpdateCommits(table: CharTable, ns: Namespace, r: Request)
    requires Lawful(table) && Sound(table, ns) && r.UpdateGroup?
    ensures var (o, t) := ApplyUpdate(table, ns.groups, r);
            Apply(table, ns, r) == (o, ns.(groups := t)) && Sound(table, ns.(groups := t))
  {
    ApplyIsSound(table, ns, r);
  }

  lemma MoveCommits(table: CharTable, ns: Namespace, r: Request)
    requires Lawful(table) && Sound(table, ns) && r.MoveGroup?
    ensures var (o, t) := ApplyMove(ns.groups, r);
            Apply(table, ns, r) == (o, ns.(groups := t)) && Sound(table, ns.(groups := t))
  {
    ApplyIsSound(table, ns, r);
  }

  lemma DeleteCommits(table: CharTable, ns: Namespace, r: Request)
    requires Lawful(table) && Sound(table, ns) && r.DeleteGroup?
    ensures var (o, t) := ApplyDelete(ns, r);
            Apply(table, ns, r) == (o, ns.(groups := t)) && Sound(table, ns.(groups := t))
  {
    ApplyIsSound(table, ns, r);
  }

  lemma ProjectsCommit(table: CharTable, ns: Namespace, r: Request)
    requires Lawful(table) && Sound(table, ns) && (r.CreateProject? || r.UpdateProject? || r.MoveProject?)
    ensures var (o, ps) := ApplyToProjects(table, ns, r);
            Apply(table, ns, r) == (o, ns.(projects := ps)) && Sound(table, ns.(projects := ps))
  {
    ApplyIsSound(table, ns, r);
  }

  lemma ProjectsKeepTheirGroups(table: CharTable, ns: Namespace, t: Tree)
    requires SoundProjects(table, ns) && ns.groups.Keys <= t.Keys
    ensures SoundProjects(table, ns.(groups := t))
  {
  }

  lemma ChildIsSound(table: CharTable, t: Tree, newId: NewId, node: Node)
    requires SoundTree(table, t) && newId !in t && GoodSlug(table, node.slug)
    requires node.parent.Some? ==> node.parent.value in t && Depth(t, node.parent.value) + 1 <= MAX_DEPTH
    requires !exists g :: g in t && t[g].parent == node.parent && t[g].slug == node.slug
    ensures SoundTree(table, t[newId := node])
  {
    ChildIsShallow(t, newId, node);
    ChildDiffers(t, newId, node);
  }

  lemma ChildIsShallow(t: Tree, newId: Id, node: Node)
    requires Grounded(t) && Shallow(t) && newId !in t
    requires node.parent.Some? ==> node.parent.value in t && Depth(t, node.parent.value) + 1 <= MAX_DEPTH
    ensures Grounded(t[newId := node]) && Shallow(t[newId := node])
  {
    ChildAdded(t, newId, node);
    var u := t[newId := node];
    forall x | x in u
      ensures Depth(u, x) <= MAX_DEPTH
    {
      if x != newId {
        assert Lineage(u, x) == Lineage(t, x);
        assert Depth(t, x) <= MAX_DEPTH;
      }
    }
  }

  lemma ChildDiffers(t: Tree, newId: Id, node: Node)
    requires SiblingsDiffer(t) && newId !in t
    requires !exists g :: g in t && t[g].parent == node.parent && t[g].slug == node.slug
    ensures SiblingsDiffer(t[newId := node])
  {
    var u := t[newId := node];
    forall x | x in u
      ensures !SiblingSlugInUse(u, x, u[x].parent, u[x].slug)
    {
      if x != newId {
        assert !SiblingSlugInUse(t, x, t[x].parent, t[x].slug);
      }
    }
  }

  lemma CreateIsSound(table: CharTable, t: Tree, r: Request)
    requires Lawful(table) && SoundTree(table, t)
    requires r.CreateGroup? && ApplyCreate(table, t, r).0 == Done
    ensures SoundTree(table, ApplyCreate(table, t, r).1)
  {
    SlugIsGood(table, SlugSource(table, r.slug, r.name.value));
    ChildIsSound(table, t, r.newId, ApplyCreate(table, t, r).1[r.newId]);
  }

  lemma DepthAfterRelocate(t: Tree, id: Id, parent: Option<Id>, slug: string, x: Id)
    requires Grounded(t) && id in t && CanHang(t, id, parent) && x in t
    ensures Grounded(Relocate(t, id, parent, slug))
    ensures Depth(Relocate(t, id, parent, slug), x) ==
            if Within(t, id, x)
            then Depth(t, x) + (if parent.None? then 0 else Depth(t, parent.value) + 1) - Depth(t, id)
            else Depth(t, x)
  {
    RelocatedRoot(t, id, parent, slug);
    if Within(t, id, x) {
      RelocateInside(t, id, parent, slug, x);
    } else {
      RelocateElsewhere(t, id, parent, slug, x);
    }
  }

  lemma DepthOfChild(t: Tree, id: Id)
    requires Grounded(t) && id in t
    ensures Depth(t, id) == (if t[id].parent.None? then 0 else Depth(t, t[id].parent.value) + 1)
    ensures CanHang(t, id, t[id].parent)
  {
    if t[id].parent.Some? {
      ParentIsNotBelow(t, id);
    }
  }

  /** Siblings still differ after one node is replaced by one whose slug is free where it goes. */
  lemma ReplacedDiffers(t: Tree, id: Id, node: Node)
    requires SiblingsDiffer(t) && id in t && !SiblingSlugInUse(t, id, node.parent, node.slug)
    ensures SiblingsDiffer(t[id := node])
  {
    var u := t[id := node];
    forall x | x in u
      ensures !SiblingSlugInUse(u, x, u[x].parent, u[x].slug)
    {
      if x == id {
        assert forall g | g in u && g != id :: u[g] == t[g];
      } else {
        assert !SiblingSlugInUse(t, x, t[x].parent, t[x].slug);
        assert node.parent != t[x].parent || node.slug != t[x].slug;
      }
    }
  }

  /** Depths depend on parents only. */
  lemma SameParentsSameDepths(t: Tree, u: Tree)
    requires Grounded(t) && Shallow(t) && u.Keys == t.Keys && forall x | x in t :: u[x].parent == t[x].parent
    ensures Grounded(u) && Shallow(u)
  {
    assert Ranked(u, Rank(t));
    forall x | x in u
      ensures Depth(u, x) <= MAX_DEPTH
    {
      SameLineage(t, u, x);
      assert Depth(t, x) <= MAX_DEPTH;
    }
  }

  /** Anything about a group but its parent may change, if its slug is good and free among its siblings. */
  lemma ReplacedIsSound(table: CharTable, t: Tree, id: Id, node: Node)
    requires SoundTree(table, t) && id in t && node.parent == t[id].parent
    requires GoodSlug(table, node.slug) && !SiblingSlugInUse(t, id, node.parent, node.slug)
    ensures SoundTree(table, t[id := node])
  {
    SameParentsSameDepths(t, t[id := node]);
    ReplacedDiffers(t, id, node);
  }

  /** Names and descriptions do not matter to the shape of the tree. */
  lemma Redescribed(table: CharTable, t: Tree, id: Id, name: string, description: Option<string>)
    requires SoundTree(table, t) && id in t
    ensures SoundTree(table, t[id := t[id].(name := name, description := description)])
  {
    ReplacedIsSound(table, t, id, t[id].(name := name, description := description));
  }

  /** No group of the relocated subtree too deep means no group too deep. */
  lemma RelocateIsShallow(t: Tree, id: Id, parent: Option<Id>, slug: string)
    requires Grounded(t) && Shallow(t) && id in t && CanHang(t, id, parent)
    requires Grounded(Relocate(t, id, parent, slug))
    requires forall x | x in t :: Within(t, id, x) ==> Depth(Relocate(t, id, parent, slug), x) <= MAX_DEPTH
    ensures Shallow(Relocate(t, id, parent, slug))
  {
    var u := Relocate(t, id, parent, slug);
    forall x | x in u
      ensures Depth(u, x) <= MAX_DEPTH
    {
      DepthAfterRelocate(t, id, parent, slug, x);
      assert Depth(t, x) <= MAX_DEPTH;
    }
  }

  lemma RelocateIsSound(table: CharTable, t: Tree, id: Id, parent: Option<Id>, slug: string)
    requires SoundTree(table, t) && id in t && CanHang(t, id, parent)
    requires GoodSlug(table, slug) && !SiblingSlugInUse(t, id, parent, slug)
    requires Grounded(Relocate(t, id, parent, slug))
    requires forall x | x in t :: Within(t, id, x) ==> Depth(Relocate(t, id, parent, slug), x) <= MAX_DEPTH
    ensures SoundTree(table, Relocate(t, id, parent, slug))
  {
    RelocateIsShallow(t, id, parent, slug);
    ReplacedDiffers(t, id, t[id].(parent := parent, slug := slug));
  }

  /** An accepted update replaces one group by one under the same parent, with a good slug no sibling has. */
  lemma UpdatedNode(table: CharTable, t: Tree, r: Request)
    requires Lawful(table) && GoodSlugs(table, t) && SiblingsDiffer(t)
    requires r.UpdateGroup? && ApplyUpdate(table, t, r).0 == Done
    ensures r.id in t && r.id in ApplyUpdate(table, t, r).1
    ensures var node := ApplyUpdate(table, t, r).1[r.id];
            && ApplyUpdate(table, t, r).1 == t[r.id := node] && node.parent == t[r.id].parent
            && GoodSlug(table, node.slug) && !SiblingSlugInUse(t, r.id, node.parent, node.slug)
  {
    if r.newSlug.Some? {
      SlugIsGood(table, r.newSlug.value);
    }
  }

  lemma UpdateIsSound(table: CharTable, t: Tree, r: Request)
    requires Lawful(table) && SoundTree(table, t)
    requires r.UpdateGroup? && ApplyUpdate(table, t, r).0 == Done
    ensures SoundTree(table, ApplyUpdate(table, t, r).1)
  {
    UpdatedNode(table, t, r);
    ReplacedIsSound(table, t, r.id, ApplyUpdate(table, t, r).1[r.id]);
  }

  lemma MoveIsSound(table: CharTable, t: Tree, r: Request)
    requires SoundTree(table, t)
    requires r.MoveGroup? && ApplyMove(t, r).0 == Done
    ensures SoundTree(table, ApplyMove(t, r).1)
  {
    RelocateIsGrounded(t, r.id, r.newParent, t[r.id].slug);
    RelocateIsSound(table, t, r.id, r.newParent, t[r.id].slug);
  }

  /** A group without subgroups is on no lineage but its own. */
  lemma {:induction false} LeafIsOnItsOwnLineageOnly(t: Tree, leaf: Id, x: Id)
    requires Grounded(t) && x in t && !HasSubgroups(t, leaf)
    ensures Within(t, leaf, x) ==> x == leaf
    decreases Rank(t)[x]
  {
    if x != leaf && t[x].parent.Some? {
      LeafIsOnItsOwnLineageOnly(t, leaf, t[x].parent.value);
    }
  }

  lemma LeafRemoved(t: Tree, leaf: Id)
    requires Grounded(t) && !HasSubgroups(t, leaf)
    ensures Grounded(t - {leaf})
    ensures forall x | x in t && x != leaf ::
              Lineage(t - {leaf}, x) == Lineage(t, x) && PathOf(t - {leaf}, x) == PathOf(t, x)
  {
    var u := t - {leaf};
    assert Ranked(u, Rank(t) - {leaf});
    forall x | x in u
      ensures Lineage(u, x) == Lineage(t, x) && PathOf(u, x) == PathOf(t, x)
    {
      LeafIsOnItsOwnLineageOnly(t, leaf, x);
      SameLineage(t, u, x);
      SamePath(t, u, x);
    }
  }

  lemma RemovedIsSound(table: CharTable, t: Tree, leaf: Id)
    requires SoundTree(table, t) && !HasSubgroups(t, leaf)
    ensures SoundTree(table, t - {leaf})
  {
    LeafRemoved(t, leaf);
    var u := t - {leaf};
    forall x | x in u
      ensures Depth(u, x) <= MAX_DEPTH && !SiblingSlugInUse(u, x, u[x].parent, u[x].slug)
    {
      assert Depth(t, x) <= MAX_DEPTH && !SiblingSlugInUse(t, x, t[x].parent, t[x].slug);
    }
  }

  lemma DeleteIsSound(table: CharTable, ns: Namespace, r: Request)
    requires Sound(table, ns)
    requires r.DeleteGroup? && ApplyDelete(ns, r).0 == Done
    ensures Sound(table, ns.(groups := ApplyDelete(ns, r).1))
  {
    RemovedIsSound(table, ns.groups, r.id);
  }

  lemma PutProjectIsSound(table: CharTable, ns: Namespace, id: Id, p: Project)
    requires SoundProjects(table, ns) && GoodSlug(table, p.slug)
    requires p.group.Some? ==> p.group.value in ns.groups
    requires !ProjectSlugInUse(ns.projects, id, p.group, p.slug)
    ensures SoundProjects(table, ns.(projects := ns.projects[id := p]))
  {
    var ps, qs := ns.projects, ns.projects[id := p];
    forall a, b | a in qs && b in qs && a != b
      ensures qs[a].group != qs[b].group || qs[a].slug != qs[b].slug
    {
      if a != id && b != id {
        assert !ProjectSlugInUse(ps, a, ps[a].group, ps[a].slug);
      } else {
        var other := if a == id then b else a;
        assert ps[other].group != p.group || ps[other].slug != p.slug;
      }
    }
  }

  lemma ProjectsStaySound(table: CharTable, ns: Namespace, r: Request)
    requires Lawful(table) && Sound(table, ns)
    requires r.CreateProject? || r.UpdateProject? || r.MoveProject?
    requires ApplyToProjects(table, ns, r).0 == Done
    ensures SoundProjects(table, ns.(projects := ApplyToProjects(table, ns, r).1))
  {
    var qs := ApplyToProjects(table, ns, r).1;
    match r {
      case CreateProject(newId, name, slug, group) =>
        SlugIsGood(table, SlugSource(table, slug, name.value));
        PutProjectIsSound(table, ns, newId, qs[newId]);
      case UpdateProject(id, _, newSlug) =>
        if newSlug.Some? {
          SlugIsGood(table, newSlug.value);
        }
        PutProjectIsSound(table, ns, id, qs[id]);
      case MoveProject(id, newGroup) =>
        PutProjectIsSound(table, ns, id, qs[id]);
    }
  }
}
