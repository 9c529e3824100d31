/** What every operation keeps, and so holds in every state reachable from a fresh seed. */
module Invariants {
  import opened Catalog
  import opened AuthModel
  import opened Compiler
  import opened Lists
  import opened Metadata
  import opened ScopeRules
  import opened Encoding
  import opened Operations
  import Slug

  // ---------------------------------------------------------------- the invariant

  ghost predicate References(m: Metadata) {
    && KeyedById(m)
    && (forall g :: g in m.members ==> g.0 in m.groups && g.1 in m.users)
    && forall id :: id in m.bindings ==> ReferencesHold(m, m.bindings[id])
  }

  /** The binding's role and subject are stored, and a controller scope is the controller. */
  ghost predicate ReferencesHold(m: Metadata, b: Binding) {
    && b.roleId in m.roles
    && (match b.subject case UserPrincipal(id) => id in m.users case GroupPrincipal(id) => id in m.groups)
    && (b.scope.typ == Controller ==> b.scope == CONTROLLER)
  }

  /** A validated selector: a scope without a list, or a list of resources, none a controller. */
  ghost predicate SelectorValid(b: Binding) {
    match b.selector.match_
    case Scope => b.selector.resources.None?
    case Exact => b.selector.resources.Some? && Targets(b) != [] && forall t :: t in Targets(b) ==> t.typ != Controller
    case UnknownMatch => false
  }

  /** Every target of an exact binding that is still stored is at or below the binding's scope. */
  ghost predicate TargetsInScope(rs: Resources, b: Binding) {
    b.selector.match_ == Exact ==> forall t :: t in Targets(b) && t in rs ==> AtOrBelow(rs, t, b.scope)
  }

  ghost predicate Selectors(m: Metadata) {
    forall id :: id in m.bindings ==> SelectorValid(m.bindings[id]) && TargetsInScope(m.resources, m.bindings[id])
  }

  function ReaderPermissions(): set<Permission> {
    {ModelRead, ApplicationRead, UnitRead, MachineRead}
  }

  function WriterPermissions(): set<Permission> {
    {ModelRead, ApplicationRead, ApplicationCreate, ApplicationDelete, ApplicationConfigRead, ApplicationConfigWrite,
     UnitRead, UnitCreate, UnitDelete, MachineRead, MachineCreate, MachineDelete}
  }

  function AdminPermissions(): set<Permission> {
    {ModelRead, ModelDelete, ApplicationRead, ApplicationCreate, ApplicationDelete, ApplicationConfigRead, ApplicationConfigWrite,
     UnitRead, UnitCreate, UnitDelete, UnitSsh, MachineRead, MachineCreate, MachineDelete, MachineSsh, PolicyRead, PolicyManage}
  }

  ghost predicate BuiltInRole(m: Metadata, id: string, permissions: set<Permission>) {
    id in m.roles && m.roles[id].builtIn && m.roles[id].permissions == permissions
  }

  /** The three seeded model roles are as seeded. */
  ghost predicate LegacyRoles(m: Metadata) {
    && BuiltInRole(m, "model-reader", ReaderPermissions())
    && BuiltInRole(m, "model-writer", WriterPermissions())
    && BuiltInRole(m, "model-admin", AdminPermissions())
  }

  predicate IsLegacyRole(role: string) {
    role == CompatibilityRole(ReadAccess) || role == CompatibilityRole(WriteAccess) || role == CompatibilityRole(AdminAccess)
  }

  /** A compatibility binding below the controller gives one user one model role on one model. */
  ghost predicate LegacyShape(b: Binding) {
    b.compatibility && b.scope.typ == Model ==> IsLegacyRole(b.roleId) && b.selector == Selector(Scope, None) && b.subject.UserPrincipal?
  }

  ghost predicate SameCompatibility(b: Binding, c: Binding) {
    b.compatibility && c.compatibility && b.scope.typ == Model && b.scope == c.scope && b.subject == c.subject
  }

  /** Each user has at most one compatibility binding per model. */
  ghost predicate Legacy(m: Metadata) {
    && LegacyRoles(m)
    && (forall id :: id in m.bindings ==> LegacyShape(m.bindings[id]))
    && forall id, other :: id in m.bindings && other in m.bindings && SameCompatibility(m.bindings[id], m.bindings[other]) ==> id == other
  }

  predicate CleanBinding(b: Binding) {
    Clean(b.id) && Clean(b.scope.id) && forall t :: t in Targets(b) ==> Clean(t.id)
  }

  /** No stored identifier holds a separator. */
  ghost predicate CleanIds(m: Metadata) {
    && (forall u :: u in m.users ==> Clean(u))
    && (forall g :: g in m.groups ==> Clean(g))
    && (forall r :: r in m.resources ==> Clean(r.id))
    && forall id :: id in m.bindings ==> CleanBinding(m.bindings[id])
  }

  ghost predicate WellFormed(m: Metadata) {
    Hierarchy(m.resources) && References(m) && Selectors(m) && Legacy(m) && CleanIds(m)
  }

  /** A newly drawn identifier: clean, and mentioned nowhere, not even by a binding whose scope or
      target has been deleted. */
  ghost predicate FreshId(m: Metadata, id: string) {
    && Clean(id) && id != CONTROLLER_ID && id != ""
    && id !in m.bindings
    && (forall r :: r in m.resources ==> r.id != id)
    && forall b :: b in m.bindings ==> m.bindings[b].scope.id != id && forall t :: t in Targets(m.bindings[b]) ==> t.id != id
  }

  ghost predicate FreshFor(m: Metadata, op: Op) {
    match op
    case CreateBinding(_, _, id) => FreshId(m, id)
    case GrantLegacy(_, _, _, _, id) => FreshId(m, id)
    case CreateResource(_, _, _, _, id) => FreshId(m, id)
    case _ => true
  }

  // ---------------------------------------------------------------- climbing is stable

  /** Adding a leaf or deleting one changes the climb of no other stored resource. */
  lemma {:induction false} ClimbSurvivesNewLeaf(rs: Resources, leaf: Ref, row: StoredResource, r: Ref, top: Ref)
    requires Hierarchy(rs) && leaf !in rs && leaf != CONTROLLER && Known(rs, r)
    ensures AtOrBelow(rs[leaf := row], r, top) <==> AtOrBelow(rs, r, top)
    decreases Rank(r.typ)
  {
    if r in rs {
      ParentRanksHigher(rs, r);
      ClimbSurvivesNewLeaf(rs, leaf, row, rs[r].parent.value, top);
    }
  }

  lemma {:induction false} ClimbSurvivesDeletion(rs: Resources, leaf: Ref, r: Ref, top: Ref)
    requires Hierarchy(rs) && leaf in rs && !HasChildren(rs, leaf) && Known(rs, r) && r != leaf
    ensures AtOrBelow(rs - {leaf}, r, top) <==> AtOrBelow(rs, r, top)
    decreases Rank(r.typ)
  {
    if r in rs {
      ParentRanksHigher(rs, r);
      ClimbSurvivesDeletion(rs, leaf, rs[r].parent.value, top);
    }
  }

  // ---------------------------------------------------------------- preservation

  lemma CreateUserKeeps(s: System, actor: string, name: string)
    requires WellFormed(s.meta) && PlanCreateUser(s, actor, name).Success?
    ensures WellFormed(PlanCreateUser(s, actor, name).value)
  {
    hide Check, Clean, Slug.SlugOf, Slug.TrimSpace;
    Slug.SlugNormalForm(Slug.TrimSpace(name));
  }

  lemma CreateGroupKeeps(s: System, actor: string, name: string)
    requires WellFormed(s.meta) && PlanCreateGroup(s, actor, name).Success?
    ensures WellFormed(PlanCreateGroup(s, actor, name).value)
  {
    hide Check, Clean, Slug.SlugOf, Slug.TrimSpace;
    Slug.SlugNormalForm(Slug.TrimSpace(name));
  }

  lemma MembershipKeeps(s: System, actor: string, group: string, user: string)
    requires WellFormed(s.meta)
    ensures PlanAddGroupMember(s, actor, group, user).Success? ==> WellFormed(PlanAddGroupMember(s, actor, group, user).value)
    ensures PlanRemoveGroupMember(s, actor, group, user).Success? ==> WellFormed(PlanRemoveGroupMember(s, actor, group, user).value)
  {
    hide Check, Clean;
  }

  lemma CreateRoleKeeps(s: System, actor: string, name: string, description: string, permissions: seq<string>)
    requires WellFormed(s.meta) && PlanCreateRole(s, actor, name, description, permissions).Success?
    ensures WellFormed(PlanCreateRole(s, actor, name, description, permissions).value)
  {
    hide Check, Clean, ParseAll, Slug.SlugOf, RoleNameTaken;
    var m, m' := s.meta, PlanCreateRole(s, actor, name, description, permissions).value;
    assert forall id :: id in m.roles ==> id in m'.roles && m'.roles[id] == m.roles[id];
  }

  lemma UpdateRoleKeeps(s: System, actor: string, role: string, expected: int, description: string, permissions: seq<string>)
    requires WellFormed(s.meta) && PlanUpdateRole(s, actor, role, expected, description, permissions).Success?
    ensures WellFormed(PlanUpdateRole(s, actor, role, expected, description, permissions).value)
  {
    hide Check, Clean, ParseAll, BindingsAccept;
    var m, m' := s.meta, PlanUpdateRole(s, actor, role, expected, description, permissions).value;
    assert forall id :: id in m.roles ==> id in m'.roles && (id != role ==> m'.roles[id] == m.roles[id]);
    assert !m.roles[role].builtIn;
  }

  lemma {:induction false} TargetsErrorFree(rs: Resources, targets: seq<Ref>, scope: Ref)
    requires Hierarchy(rs)
    ensures TargetsError(rs, targets, scope).None? <==> forall t :: t in targets ==> t in rs && AtOrBelow(rs, t, scope)
  {
    if targets != [] {
      var front, last := targets[..|targets| - 1], targets[|targets| - 1];
      TargetsErrorFree(rs, front, scope);
      assert targets == front + [last];
      if last in rs {
        WithinScopeDecides(rs, last, scope);
      }
    }
  }

  /** What validation establishes of the binding about to be stored. */
  lemma ValidatedBinding(s: System, actor: string, input: BindingInput, newId: string)
    requires WellFormed(s.meta) && PlanCreateBinding(s, actor, input, newId).Success?
    ensures var b := NewBinding(input, newId);
            ReferencesHold(s.meta, b) && SelectorValid(b) && Known(s.meta.resources, b.scope)
            && (b.selector.match_ == Exact ==> forall t :: t in Targets(b) ==> t in s.meta.resources && AtOrBelow(s.meta.resources, t, b.scope))
  {
    var b := NewBinding(input, newId);
    if input.selector.match_ == Exact {
      TargetsErrorFree(s.meta.resources, Targets(b), b.scope);
      forall t | t in Targets(b) ensures t.typ != Controller {
        ParentRanksHigher(s.meta.resources, t);
      }
    }
    if input.scope.typ == Controller {
      assert Require(s, actor, MANAGE, input.scope).None?;
    }
  }

  /** A binding that may be stored under `id`. */
  ghost predicate Storable(m: Metadata, id: string, b: Binding) {
    && b.id == id && ReferencesHold(m, b)
    && SelectorValid(b) && TargetsInScope(m.resources, b)
    && LegacyShape(b) && CleanBinding(b)
    && forall other :: other in m.bindings && other != id ==> !SameCompatibility(m.bindings[other], b)
  }

  lemma StoringKeeps(m: Metadata, id: string, b: Binding)
    requires WellFormed(m) && Storable(m, id, b)
    ensures WellFormed(m.(bindings := m.bindings[id := b]))
  {
    var m' := m.(bindings := m.bindings[id := b]);
    hide ReferencesHold, SelectorValid, TargetsInScope, LegacyShape, CleanBinding, Clean, Hierarchy;
    assert forall other :: other in m'.bindings ==> m'.bindings[other] == if other == id then b else m.bindings[other];
    assert References(m') by { StoringKeepsReferences(m, id, b); }
    assert Selectors(m');
    assert LegacyRoles(m');
    assert CleanIds(m');
  }

  lemma StoringKeepsReferences(m: Metadata, id: string, b: Binding)
    requires References(m) && b.id == id && ReferencesHold(m, b)
    ensures References(m.(bindings := m.bindings[id := b]))
  {
  }

  lemma CreateBindingKeeps(s: System, actor: string, input: BindingInput, newId: string)
    requires WellFormed(s.meta) && FreshId(s.meta, newId) && PlanCreateBinding(s, actor, input, newId).Success?
    ensures WellFormed(PlanCreateBinding(s, actor, input, newId).value)
  {
    ValidatedBinding(s, actor, input, newId);
    var m, b := s.meta, NewBinding(input, newId);
    assert PlanCreateBinding(s, actor, input, newId).value == m.(bindings := m.bindings[newId := b]);
    hide PlanCreateBinding;
    CleanController();
    hide Clean;
    assert CleanBinding(b) by {
      if b.selector.match_ == Exact {
        assert forall t :: t in Targets(b) ==> t in m.resources;
      } else {
        assert Targets(b) == [b.scope];
      }
    }
    StoringKeeps(m, newId, b);
  }

  lemma CleanController()
    ensures Clean(CONTROLLER_ID)
  {
  }

  lemma DeleteBindingKeeps(m: Metadata, id: string)
    requires WellFormed(m) && id in m.bindings
    ensures WellFormed(m.(bindings := m.bindings - {id}))
  {
    hide Clean;
  }

  /** Replacing the role of a compatibility binding, or inserting a new one, keeps the invariant. */
  lemma UpsertKeeps(m: Metadata, user: string, model: string, access: Access, newId: string)
    requires WellFormed(m) && access != InvalidAccess && ModelRef(model) in m.resources && user in m.users
    requires !HasCompatibility(m, user, model) ==> FreshId(m, newId)
    ensures WellFormed(Upsert(m, user, model, CompatibilityRole(access), newId))
  {
    hide Clean, Hierarchy;
    var id := if HasCompatibility(m, user, model) then CompatibilityId(m, user, model) else newId;
    var b := Upsert(m, user, model, CompatibilityRole(access), newId).bindings[id];
    assert Upsert(m, user, model, CompatibilityRole(access), newId) == m.(bindings := m.bindings[id := b]);
    hide CompatibilityId;
    assert Targets(b) == [b.scope] && ModelRef(model).id == model;
    if HasCompatibility(m, user, model) {
      assert forall other :: other in m.bindings ==> SameCompatibility(m.bindings[other], b) == SameCompatibility(m.bindings[other], m.bindings[id]);
    } else {
      assert forall other :: other in m.bindings ==> !IsCompatibility(m.bindings[other], user, model);
    }
    StoringKeeps(m, id, b);
  }

  lemma GrantLegacyKeeps(s: System, actor: string, user: string, model: string, access: Access, newId: string)
    requires WellFormed(s.meta) && FreshId(s.meta, newId) && PlanGrantLegacy(s, actor, user, model, access, newId).Success?
    ensures WellFormed(PlanGrantLegacy(s, actor, user, model, access, newId).value)
  {
    UpsertKeeps(s.meta, user, model, access, newId);
  }

  lemma RevokeLegacyKeeps(s: System, actor: string, user: string, model: string, access: Access)
    requires WellFormed(s.meta) && PlanRevokeLegacy(s, actor, user, model, access).Success?
    ensures WellFormed(PlanRevokeLegacy(s, actor, user, model, access).value)
  {
    hide WellFormed, CompatibilityId, Clean;
    var id := CompatibilityId(s.meta, user, model);
    assert ModelRef(model) in s.meta.resources;
    match NextAccess(access) {
      case None => DeleteBindingKeeps(s.meta, id);
      case Some(next) =>
        assert user in s.meta.users by { CompatibilityUser(s.meta, user, model); }
        UpsertKeeps(s.meta, user, model, next, id);
    }
  }

  lemma CompatibilityUser(m: Metadata, user: string, model: string)
    requires WellFormed(m) && HasCompatibility(m, user, model)
    ensures user in m.users
  {
  }

  // ---------------------------------------------------------------- resources

  lemma NewResourceParent(s: System, actor: string, typ: ResourceType, name: string, parent: Option<Ref>, newId: string)
    requires PlanCreateResource(s, actor, typ, name, parent, newId).Success?
    ensures parent.Some? && parent.value.typ in ParentRule(typ) && Known(s.meta.resources, parent.value)
  {
  }

  lemma SelectorsSurviveNewLeaf(m: Metadata, leaf: Ref, row: StoredResource)
    requires Hierarchy(m.resources) && Selectors(m) && FreshId(m, leaf.id)
    ensures Selectors(m.(resources := m.resources[leaf := row]))
  {
    hide SelectorValid;
    forall id, t | id in m.bindings && t in Targets(m.bindings[id]) && t in m.resources[leaf := row] && m.bindings[id].selector.match_ == Exact
      ensures AtOrBelow(m.resources[leaf := row], t, m.bindings[id].scope)
    {
      assert TargetsInScope(m.resources, m.bindings[id]);
      ClimbSurvivesNewLeaf(m.resources, leaf, row, t, m.bindings[id].scope);
    }
  }

  lemma SelectorsSurviveDeletion(m: Metadata, leaf: Ref)
    requires Hierarchy(m.resources) && Selectors(m) && leaf in m.resources && !HasChildren(m.resources, leaf)
    ensures Selectors(m.(resources := m.resources - {leaf}))
  {
    hide SelectorValid;
    forall id, t | id in m.bindings && t in Targets(m.bindings[id]) && t in m.resources - {leaf} && m.bindings[id].selector.match_ == Exact
      ensures AtOrBelow(m.resources - {leaf}, t, m.bindings[id].scope)
    {
      assert TargetsInScope(m.resources, m.bindings[id]);
      ClimbSurvivesDeletion(m.resources, leaf, t, m.bindings[id].scope);
    }
  }

  lemma NewLeafKeeps(m: Metadata, leaf: Ref, row: StoredResource)
    requires WellFormed(m) && FreshId(m, leaf.id)
    requires row.parent.Some? && row.parent.value.typ in ParentRule(leaf.typ) && Known(m.resources, row.parent.value)
    ensures WellFormed(m.(resources := m.resources[leaf := row]))
  {
    var m' := m.(resources := m.resources[leaf := row]);
    assert Selectors(m') by { SelectorsSurviveNewLeaf(m, leaf, row); }
    assert References(m') by { SameRowsSameReferences(m, m'); }
    hide Clean, CleanBinding, Selectors, References, LegacyShape, SameCompatibility;
    assert Hierarchy(m'.resources);
    assert CleanIds(m');
  }

  lemma CreateResourceKeeps(s: System, actor: string, typ: ResourceType, name: string, parent: Option<Ref>, newId: string)
    requires WellFormed(s.meta) && FreshId(s.meta, newId) && PlanCreateResource(s, actor, typ, name, parent, newId).Success?
    ensures WellFormed(PlanCreateResource(s, actor, typ, name, parent, newId).value)
  {
    hide WellFormed, FreshId, Check, Slug.TrimSpace;
    NewResourceParent(s, actor, typ, name, parent, newId);
    NewLeafKeeps(s.meta, Ref(typ, newId), StoredResource(Slug.TrimSpace(name), parent));
  }

  lemma SameRowsSameReferences(m: Metadata, m': Metadata)
    requires References(m)
    requires m' == m.(resources := m'.resources)
    ensures References(m')
  {
  }

  lemma DeleteResourceKeeps(m: Metadata, leaf: Ref)
    requires WellFormed(m) && leaf in m.resources && !HasChildren(m.resources, leaf)
    ensures WellFormed(m.(resources := m.resources - {leaf}))
  {
    var m' := m.(resources := m.resources - {leaf});
    hide Clean, ReferencesHold, LegacyShape, SameCompatibility;
    assert Hierarchy(m'.resources) by {
      forall r | r in m'.resources ensures m.resources[r].parent.value != leaf {
        assert m.resources[r].parent.Some?;
      }
    }
    assert References(m') by { SameRowsSameReferences(m, m'); }
    assert Selectors(m') by { SelectorsSurviveDeletion(m, leaf); }
    assert CleanIds(m');
  }

  // ---------------------------------------------------------------- all operations

  /** Every operation, whatever its fate, leaves well-formed metadata well formed. */
  lemma PlanKeeps(s: System, op: Op)
    requires WellFormed(s.meta) && FreshFor(s.meta, op) && Plan(s, op).Success?
    ensures WellFormed(Plan(s, op).value)
  {
    hide WellFormed, FreshId;
    match op
    case Resync =>
    case CreateUser(actor, name) => CreateUserKeeps(s, actor, name);
    case CreateGroup(actor, name) => CreateGroupKeeps(s, actor, name);
    case AddGroupMember(actor, group, user) => MembershipKeeps(s, actor, group, user);
    case RemoveGroupMember(actor, group, user) => MembershipKeeps(s, actor, group, user);
    case CreateRole(actor, name, description, permissions) => CreateRoleKeeps(s, actor, name, description, permissions);
    case UpdateRole(actor, role, expected, description, permissions) => UpdateRoleKeeps(s, actor, role, expected, description, permissions);
    case CreateBinding(actor, input, newId) => CreateBindingKeeps(s, actor, input, newId);
    case DeleteBinding(actor, id) => DeleteBindingKeeps(s.meta, id);
    case GrantLegacy(actor, user, model, access, newId) => GrantLegacyKeeps(s, actor, user, model, access, newId);
    case RevokeLegacy(actor, user, model, access) => RevokeLegacyKeeps(s, actor, user, model, access);
    case CreateResource(actor, typ, name, parent, newId) => CreateResourceKeeps(s, actor, typ, name, parent, newId);
    case DeleteResource(actor, ref) => DeleteResourceKeeps(s.meta, ref);
  }

  lemma WellFormedHierarchy(m: Metadata)
    requires WellFormed(m)
    ensures Hierarchy(m.resources)
  {
  }

  lemma RunKeeps(s: System, op: Op, fault: Fault)
    requires WellFormed(s.meta) && FreshFor(s.meta, op)
    ensures Hierarchy(s.meta.resources)
    ensures WellFormed(Run(s, op, fault).after.meta)
  {
    WellFormedHierarchy(s.meta);
    if Plan(s, op).Success? {
      PlanKeeps(s, op);
    }
    hide Plan, WellFormed, Desired, AllCompile, Recordable, EngineAfter, Hierarchy, FreshFor;
  }
}
