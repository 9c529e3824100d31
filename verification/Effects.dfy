/** What every operation leaves behind once it is carried out: in the tables, and in the decisions. */
module Effects {
  import opened Catalog
  import opened AuthModel
  import opened Compiler
  import opened Metadata
  import opened ScopeRules
  import opened Encoding
  import opened Operations
  import opened Invariants
  import opened Projection
  import opened Decisions
  import Slug

  // ---------------------------------------------------------------- carried out or refused

  /** The operation was not refused: it succeeded, or only its synchronization failed. */
  predicate CarriedOut(o: Outcome) {
    o.error.None? || o.error == Some(SyncFailed)
  }

  lemma {:induction false} ClimbErrors(rs: Resources, ref: Ref, scope: Ref)
    requires Hierarchy(rs)
    ensures WithinScope(rs, ref, scope).Failure? ==> WithinScope(rs, ref, scope).error == NotFound
    ensures ManagementScope(rs, ref).Failure? ==> ManagementScope(rs, ref).error == NotFound
    decreases Rank(ref.typ)
  {
    if ref in rs {
      ParentRanksHigher(rs, ref);
      ClimbErrors(rs, rs[ref].parent.value, scope);
    }
  }

  lemma {:induction false} TargetsErrors(rs: Resources, targets: seq<Ref>, scope: Ref)
    requires Hierarchy(rs)
    ensures TargetsError(rs, targets, scope) != Some(SyncFailed)
  {
    if targets != [] {
      TargetsErrors(rs, targets[..|targets| - 1], scope);
      ClimbErrors(rs, targets[|targets| - 1], scope);
    }
  }

  lemma RequireErrors(s: System, actor: string, permission: Option<Permission>, r: Ref)
    ensures Require(s, actor, permission, r) != Some(SyncFailed)
  {
  }

  lemma PlanErrors(s: System, op: Op)
    requires Hierarchy(s.meta.resources)
    ensures Plan(s, op) != Failure(SyncFailed)
  {
    hide Require, Hierarchy, WithinScope, ManagementScope, TargetsError, ParseAll, BindingsAccept, Clashes, Upsert, HasChildren;
    forall actor, permission, r ensures Require(s, actor, permission, r) != Some(SyncFailed) {
      RequireErrors(s, actor, permission, r);
    }
    match op
    case CreateBinding(_, input, _) =>
      ClimbErrors(s.meta.resources, input.scope, input.scope);
      if input.selector.resources.Some? {
        TargetsErrors(s.meta.resources, input.selector.resources.value, input.scope);
      }
    case DeleteBinding(_, id) =>
      if id in s.meta.bindings {
        ClimbErrors(s.meta.resources, s.meta.bindings[id].scope, s.meta.bindings[id].scope);
      }
    case _ =>
  }

  /** A refused operation changes nothing at all; a carried-out one stores what was planned. */
  lemma CarriedOutAsPlanned(s: System, op: Op, fault: Fault)
    requires WellFormed(s.meta) && FreshFor(s.meta, op)
    ensures Hierarchy(s.meta.resources)
    ensures var o := Next(s, Step(op, fault));
            && (CarriedOut(o) <==> Plan(s, op).Success?)
            && (Plan(s, op).Failure? ==> o == Outcome(s, Some(Plan(s, op).error)))
            && (Plan(s, op).Success? ==> o.after.meta == Plan(s, op).value)
  {
    WellFormedHierarchy(s.meta);
    PlanErrors(s, op);
    if Plan(s, op).Success? {
      SyncOutcome(s.(meta := Plan(s, op).value), fault);
      SyncErrors(s.(meta := Plan(s, op).value), fault);
    }
    hide Plan, WellFormed, FreshFor, Sync, Hierarchy, Desired, AllCompile, Recordable;
  }

  lemma SyncErrors(s: System, fault: Fault)
    ensures CarriedOut(Sync(s, fault))
  {
  }

  /** After a success from a synchronized state, whether or not the operation synchronizes, the
      service decides by the bindings it then stores. */
  lemma DecidesAfter(s: System, op: Op, fault: Fault, who: string, p: Permission, r: Ref)
    requires WellFormed(s.meta) && FreshFor(s.meta, op) && Synchronized(s)
    requires Next(s, Step(op, fault)).error.None?
    ensures var after := Next(s, Step(op, fault)).after;
            && Synchronized(after)
            && (Askable(after.meta, p, r) ==> (Decision(after, who, p, r) <==> Granted(after.meta, who, p, r)))
  {
    var after := Next(s, Step(op, fault)).after;
    if SkipsSync(op) {
      SkippedSyncIsHarmless(s, op, fault);
    } else {
      SuccessSynchronizes(s, op, fault);
    }
    hide Run, FreshFor, Desired;
    if Askable(after.meta, p, r) {
      DecisionIsGranted(after, who, p, r);
    }
  }

  // ---------------------------------------------------------------- users and groups

  /** A created user is stored under the slug of the trimmed name, unless name or slug is taken. */
  lemma UserIsCreated(s: System, actor: string, name: string, fault: Fault)
    requires WellFormed(s.meta) && CarriedOut(Next(s, Step(CreateUser(actor, name), fault)))
    ensures var trimmed := Slug.TrimSpace(name);
            && trimmed != "" && Slug.SlugOf(trimmed) !in s.meta.users && trimmed !in s.meta.users.Values
            && Next(s, Step(CreateUser(actor, name), fault)).after
               == s.(meta := s.meta.(users := s.meta.users[Slug.SlugOf(trimmed) := trimmed]))
  {
    CarriedOutAsPlanned(s, CreateUser(actor, name), fault);
    hide WellFormed, Require, Slug.TrimSpace, Slug.SlugOf, Hierarchy;
  }

  lemma GroupIsCreated(s: System, actor: string, name: string, fault: Fault)
    requires WellFormed(s.meta) && CarriedOut(Next(s, Step(CreateGroup(actor, name), fault)))
    ensures var trimmed := Slug.TrimSpace(name);
            && trimmed != "" && Slug.SlugOf(trimmed) !in s.meta.groups && trimmed !in s.meta.groups.Values
            && Next(s, Step(CreateGroup(actor, name), fault)).after
               == s.(meta := s.meta.(groups := s.meta.groups[Slug.SlugOf(trimmed) := trimmed]))
  {
    CarriedOutAsPlanned(s, CreateGroup(actor, name), fault);
    hide WellFormed, Require, Slug.TrimSpace, Slug.SlugOf, Hierarchy;
  }

  // ---------------------------------------------------------------- memberships

  function GroupsOf(m: Metadata, user: string): set<string> {
    set gm | gm in m.members && gm.1 == user :: gm.0
  }

  /** Some binding gives the permission to the user directly, or to one of `groups`. */
  ghost predicate GivenThrough(m: Metadata, user: string, groups: set<string>, p: Permission, r: Ref) {
    exists id :: id in m.bindings && Gives(m, m.bindings[id], p, r) &&
                 match m.bindings[id].subject
                 case UserPrincipal(u) => u == user
                 case GroupPrincipal(g) => g in groups
  }

  lemma GrantedThroughGroups(m: Metadata, user: string, p: Permission, r: Ref)
    ensures Granted(m, user, p, r) <==> GivenThrough(m, user, GroupsOf(m, user), p, r)
  {
    hide Gives;
    forall group ensures group in GroupsOf(m, user) <==> (group, user) in m.members {
      if (group, user) in m.members {
        assert (group, user).0 in GroupsOf(m, user);
      }
    }
    forall id | id in m.bindings
      ensures Grants(m, m.bindings[id], user, p, r) <==>
              Gives(m, m.bindings[id], p, r) &&
              match m.bindings[id].subject
              case UserPrincipal(u) => u == user
              case GroupPrincipal(g) => g in GroupsOf(m, user)
    {
    }
  }

  /** What a binding gives does not depend on the memberships. */
  lemma SameGiven(m: Metadata, m': Metadata, user: string, groups: set<string>, p: Permission, r: Ref)
    requires m' == m.(members := m'.members)
    ensures GivenThrough(m', user, groups, p, r) <==> GivenThrough(m, user, groups, p, r)
  {
    forall b: Binding ensures Gives(m', b, p, r) <==> Gives(m, b, p, r) {
    }
    hide Gives;
  }

  lemma MemberIsRemoved(s: System, actor: string, group: string, user: string, fault: Fault)
    requires WellFormed(s.meta) && CarriedOut(Next(s, Step(RemoveGroupMember(actor, group, user), fault)))
    ensures var m, m' := s.meta, Next(s, Step(RemoveGroupMember(actor, group, user), fault)).after.meta;
            && m' == m.(members := m'.members)
            && (forall g, u :: (g, u) in m'.members <==> (g, u) in m.members && (g != group || u != user))
            && GroupsOf(m', user) == GroupsOf(m, user) - {group} && group in GroupsOf(m, user)
  {
    CarriedOutAsPlanned(s, RemoveGroupMember(actor, group, user), fault);
    hide WellFormed, Require, Hierarchy;
    assert (group, user).0 in GroupsOf(s.meta, user);
  }

  lemma MemberIsAdded(s: System, actor: string, group: string, user: string, fault: Fault)
    requires WellFormed(s.meta) && CarriedOut(Next(s, Step(AddGroupMember(actor, group, user), fault)))
    ensures var m, m' := s.meta, Next(s, Step(AddGroupMember(actor, group, user), fault)).after.meta;
            && m' == m.(members := m'.members)
            && (forall g, u :: (g, u) in m'.members <==> (g, u) in m.members || (g == group && u == user))
            && GroupsOf(m', user) == GroupsOf(m, user) + {group} && group in m.groups && user in m.users
  {
    CarriedOutAsPlanned(s, AddGroupMember(actor, group, user), fault);
    hide WellFormed, Require, Hierarchy;
    assert (group, user).0 in GroupsOf(Next(s, Step(AddGroupMember(actor, group, user), fault)).after.meta, user);
  }

  lemma OthersDecidedAlike(s: System, after: System, user: string, who: string, p: Permission, r: Ref)
    requires WellFormed(s.meta) && Synchronized(s) && Askable(s.meta, p, r)
    requires after.meta == s.meta.(members := after.meta.members)
    requires forall g, u :: u != user ==> ((g, u) in after.meta.members <==> (g, u) in s.meta.members)
    requires Decision(after, who, p, r) <==> Granted(after.meta, who, p, r)
    requires who != user
    ensures Decision(after, who, p, r) <==> Decision(s, who, p, r)
  {
    DecisionIsGranted(s, who, p, r);
    hide Decision, Gives;
    assert GroupsOf(after.meta, who) == GroupsOf(s.meta, who);
    GrantedThroughGroups(s.meta, who, p, r);
    GrantedThroughGroups(after.meta, who, p, r);
    SameGiven(s.meta, after.meta, who, GroupsOf(s.meta, who), p, r);
  }

  /** Leaving a group costs a user exactly what that group alone supplied, and costs nobody else
      anything. */
  lemma RemovalTakesOnlyTheGroup(s: System, actor: string, group: string, user: string, fault: Fault, who: string, p: Permission, r: Ref)
    requires WellFormed(s.meta) && Synchronized(s) && Askable(s.meta, p, r)
    requires Next(s, Step(RemoveGroupMember(actor, group, user), fault)).error.None?
    ensures var after := Next(s, Step(RemoveGroupMember(actor, group, user), fault)).after;
            && (Decision(after, user, p, r) <==> GivenThrough(s.meta, user, GroupsOf(s.meta, user) - {group}, p, r))
            && (who != user ==> (Decision(after, who, p, r) <==> Decision(s, who, p, r)))
  {
    var op := RemoveGroupMember(actor, group, user);
    var after := Next(s, Step(op, fault)).after;
    MemberIsRemoved(s, actor, group, user, fault);
    DecidesAfter(s, op, fault, user, p, r);
    DecidesAfter(s, op, fault, who, p, r);
    GrantedThroughGroups(after.meta, user, p, r);
    SameGiven(s.meta, after.meta, user, GroupsOf(after.meta, user), p, r);
    hide Next, WellFormed, Synchronized, Decision, Granted, GivenThrough, FreshFor;
    if who != user {
      OthersDecidedAlike(s, after, user, who, p, r);
    }
  }

  /** Joining a group gives a user exactly what the group's bindings supply besides, and gives nobody
      else anything. */
  lemma AdditionGivesOnlyTheGroup(s: System, actor: string, group: string, user: string, fault: Fault, who: string, p: Permission, r: Ref)
    requires WellFormed(s.meta) && Synchronized(s) && Askable(s.meta, p, r)
    requires Next(s, Step(AddGroupMember(actor, group, user), fault)).error.None?
    ensures var after := Next(s, Step(AddGroupMember(actor, group, user), fault)).after;
            && (Decision(after, user, p, r) <==> GivenThrough(s.meta, user, GroupsOf(s.meta, user) + {group}, p, r))
            && (who != user ==> (Decision(after, who, p, r) <==> Decision(s, who, p, r)))
  {
    var op := AddGroupMember(actor, group, user);
    var after := Next(s, Step(op, fault)).after;
    MemberIsAdded(s, actor, group, user, fault);
    DecidesAfter(s, op, fault, user, p, r);
    DecidesAfter(s, op, fault, who, p, r);
    GrantedThroughGroups(after.meta, user, p, r);
    SameGiven(s.meta, after.meta, user, GroupsOf(after.meta, user), p, r);
    hide Next, WellFormed, Synchronized, Decision, Granted, GivenThrough, FreshFor;
    if who != user {
      OthersDecidedAlike(s, after, user, who, p, r);
    }
  }

  // ---------------------------------------------------------------- roles

  /** A created role holds exactly the permissions whose names are listed. */
  lemma RoleIsCreated(s: System, actor: string, name: string, description: string, permissions: seq<string>, fault: Fault)
    requires WellFormed(s.meta) && CarriedOut(Next(s, Step(CreateRole(actor, name, description, permissions), fault)))
    ensures var o, id := Next(s, Step(CreateRole(actor, name, description, permissions), fault)), Slug.SlugOf(name);
            && id != "" && id !in s.meta.roles && (forall other :: other in s.meta.roles ==> s.meta.roles[other].name != name)
            && id in o.after.meta.roles
            && (forall p :: p in o.after.meta.roles[id].permissions <==> PermissionName(p) in permissions)
            && (forall listed :: listed in permissions ==> exists p :: p in o.after.meta.roles[id].permissions && PermissionName(p) == listed)
            && o.after == s.(meta := s.meta.(roles := s.meta.roles[id := Role(name, description, o.after.meta.roles[id].permissions, 1, false)]))
  {
    CarriedOutAsPlanned(s, CreateRole(actor, name, description, permissions), fault);
    ParseAllReadsNames(permissions);
    hide WellFormed, Require, Hierarchy, Slug.SlugOf, ParseAll, PermissionName;
    assert forall listed :: listed in permissions ==> IsPermissionName(listed);
  }

  lemma NamesStored(permissions: seq<string>)
    requires NamesPermissions(permissions)
    ensures forall listed :: listed in permissions ==> exists p :: p in NamedIn(permissions) && PermissionName(p) == listed
  {
    hide PermissionName;
    assert forall listed :: listed in permissions ==> IsPermissionName(listed);
  }

  lemma RoleUpdatePlan(s: System, actor: string, role: string, expected: int, description: string, permissions: seq<string>)
    requires PlanUpdateRole(s, actor, role, expected, description, permissions).Success?
    ensures NamesPermissions(permissions)
    ensures role in s.meta.roles && s.meta.roles[role].revision == expected && !s.meta.roles[role].builtIn
    ensures var m, named := s.meta, NamedIn(permissions);
            PlanUpdateRole(s, actor, role, expected, description, permissions).value
            == m.(roles := m.roles[role := Role(m.roles[role].name, description, named, m.roles[role].revision + 1, false)],
                  audit := m.audit + [AuditEntry(actor, role, m.roles[role].permissions, named, m.roles[role].revision + 1)])
  {
    hide Require, ParseAll, PermissionName, BindingsAccept, NamesPermissions, NamedIn;
    ParseAllReadsNames(permissions);
  }

  /** An updated role holds exactly the permissions whose names are listed, and the log gains one
      entry with what was replaced, what was written and the revision made. */
  lemma RoleIsUpdated(s: System, actor: string, role: string, expected: int, description: string, permissions: seq<string>, fault: Fault)
    requires WellFormed(s.meta) && CarriedOut(Next(s, Step(UpdateRole(actor, role, expected, description, permissions), fault)))
    ensures role in s.meta.roles && s.meta.roles[role].revision == expected && !s.meta.roles[role].builtIn
    ensures var m, m' := s.meta, Next(s, Step(UpdateRole(actor, role, expected, description, permissions), fault)).after.meta;
            && role in m'.roles
            && (forall p :: p in m'.roles[role].permissions <==> PermissionName(p) in permissions)
            && (forall listed :: listed in permissions ==> exists p :: p in m'.roles[role].permissions && PermissionName(p) == listed)
            && m' == m.(roles := m.roles[role := Role(m.roles[role].name, description, m'.roles[role].permissions, m.roles[role].revision + 1, false)],
                        audit := m.audit + [AuditEntry(actor, role, m.roles[role].permissions, m'.roles[role].permissions, m.roles[role].revision + 1)])
  {
    hide WellFormed, PlanUpdateRole, PermissionName, FreshId, Next;
    CarriedOutAsPlanned(s, UpdateRole(actor, role, expected, description, permissions), fault);
    RoleUpdatePlan(s, actor, role, expected, description, permissions);
    NamesStored(permissions);
  }

  /** Some binding gives the permission, reading the listed names in place of the role's permissions. */
  ghost predicate GrantedProposing(m: Metadata, role: string, permissions: seq<string>, who: string, p: Permission, r: Ref) {
    exists id :: id in m.bindings && Covers(m, m.bindings[id], who) && Selects(m.resources, m.bindings[id], p, r) &&
                 if m.bindings[id].roleId == role then PermissionName(p) in permissions else p in PermissionsOf(m, m.bindings[id])
  }

  lemma GrantedAsProposed(m: Metadata, m': Metadata, role: string, permissions: seq<string>, who: string, p: Permission, r: Ref)
    requires m'.bindings == m.bindings && m'.members == m.members && m'.resources == m.resources
    requires role in m'.roles && (forall q :: q in m'.roles[role].permissions <==> PermissionName(q) in permissions)
    requires m'.roles == m.roles[role := m'.roles[role]]
    ensures Granted(m', who, p, r) <==> GrantedProposing(m, role, permissions, who, p, r)
  {
    hide Selects, PermissionName;
    forall id | id in m.bindings
      ensures Grants(m', m.bindings[id], who, p, r) <==>
              Covers(m, m.bindings[id], who) && Selects(m.resources, m.bindings[id], p, r) &&
              if m.bindings[id].roleId == role then PermissionName(p) in permissions else p in PermissionsOf(m, m.bindings[id])
    {
    }
  }

  /** After a role update every decision is what the bindings give with the listed permissions in
      place of the role's. */
  lemma UpdateDecidesAsProposed(s: System, actor: string, role: string, expected: int, description: string, permissions: seq<string>,
                                fault: Fault, who: string, p: Permission, r: Ref)
    requires WellFormed(s.meta) && Synchronized(s) && Askable(s.meta, p, r)
    requires Next(s, Step(UpdateRole(actor, role, expected, description, permissions), fault)).error.None?
    ensures Decision(Next(s, Step(UpdateRole(actor, role, expected, description, permissions), fault)).after, who, p, r)
            <==> GrantedProposing(s.meta, role, permissions, who, p, r)
  {
    hide WellFormed, Synchronized, Decision, Next, Granted, GrantedProposing, PermissionName;
    RoleIsUpdated(s, actor, role, expected, description, permissions, fault);
    DecidesAfter(s, UpdateRole(actor, role, expected, description, permissions), fault, who, p, r);
    GrantedAsProposed(s.meta, Next(s, Step(UpdateRole(actor, role, expected, description, permissions), fault)).after.meta, role, permissions, who, p, r);
  }

  // ---------------------------------------------------------------- bindings

  lemma BindingIsCreated(s: System, actor: string, input: BindingInput, newId: string, fault: Fault)
    requires WellFormed(s.meta) && FreshId(s.meta, newId) && CarriedOut(Next(s, Step(CreateBinding(actor, input, newId), fault)))
    ensures input.subjectType != UnrecognisedSubject
    ensures var subject := match input.subjectType case GroupSubject => GroupPrincipal(input.subjectId) case _ => UserPrincipal(input.subjectId);
            Next(s, Step(CreateBinding(actor, input, newId), fault)).after.meta
            == s.meta.(bindings := s.meta.bindings[newId := Binding(newId, subject, input.roleId, input.scope, input.selector, false)])
  {
    CarriedOutAsPlanned(s, CreateBinding(actor, input, newId), fault);
    CreatedBinding(s, actor, input, newId);
    hide WellFormed, Require, Hierarchy, FreshId, SelectorError, ManagementScope, Clashes;
  }

  lemma BindingIsDeleted(s: System, actor: string, id: string, fault: Fault)
    requires WellFormed(s.meta) && CarriedOut(Next(s, Step(DeleteBinding(actor, id), fault)))
    ensures var m, m' := s.meta, Next(s, Step(DeleteBinding(actor, id), fault)).after.meta;
            && id in m.bindings && m' == m.(bindings := m'.bindings)
            && (forall other :: other in m'.bindings <==> other in m.bindings && other != id)
            && (forall other :: other in m'.bindings ==> m'.bindings[other] == m.bindings[other])
  {
    CarriedOutAsPlanned(s, DeleteBinding(actor, id), fault);
    hide WellFormed, Require, Hierarchy, ManagementScope;
  }

  // ---------------------------------------------------------------- legacy access

  /** Some binding other than the user's compatibility binding on the model gives the decision. */
  ghost predicate GrantedBeside(m: Metadata, user: string, model: string, who: string, p: Permission, r: Ref) {
    exists id :: id in m.bindings && Grants(m, m.bindings[id], who, p, r) &&
                 !(m.bindings[id].subject == UserPrincipal(user) && m.bindings[id].scope == Ref(Model, model) && m.bindings[id].compatibility)
  }

  /** The user holds exactly the permissions of `access` at and below the model. */
  ghost predicate GivenByLevel(rs: Resources, user: string, model: string, access: Access, who: string, p: Permission, r: Ref) {
    who == user && p in LegacyPermissions(access) && AtOrBelow(rs, r, Ref(Model, model))
  }

  lemma LevelBindingGives(m: Metadata, b: Binding, user: string, model: string, access: Access, who: string, p: Permission, r: Ref)
    requires LegacyRoles(m) && access != InvalidAccess
    requires b.subject == UserPrincipal(user) && b.scope == Ref(Model, model) && b.selector == Selector(Scope, None) && b.roleId == CompatibilityRole(access)
    ensures Grants(m, b, who, p, r) <==> GivenByLevel(m.resources, user, model, access, who, p, r)
  {
    LegacyRoleGives(m, access);
  }

  /** The compatibility row, found or about to be inserted, is the only one of the user on the model. */
  lemma BesideIsOther(m: Metadata, id: string, user: string, model: string, who: string, p: Permission, r: Ref)
    requires Legacy(m)
    requires if HasCompatibility(m, user, model) then id == CompatibilityId(m, user, model) else id !in m.bindings
    ensures GrantedBeside(m, user, model, who, p, r) <==> GrantedByOther(m, id, who, p, r)
  {
    hide Grants, LegacyRoles, LegacyShape, CompatibilityId;
    forall other | other in m.bindings ensures IsCompatibility(m.bindings[other], user, model) <==> other == id {
      if IsCompatibility(m.bindings[other], user, model) {
        assert SameCompatibility(m.bindings[other], m.bindings[id]);
      }
    }
  }

  /** The rows around a legacy change: every other binding stays as it is. */
  ghost predicate OthersKept(m: Metadata, m': Metadata, id: string) {
    && m' == m.(bindings := m'.bindings)
    && forall other :: other != id ==> (other in m'.bindings <==> other in m.bindings) && (other in m.bindings ==> m'.bindings[other] == m.bindings[other])
  }

  /** The row of a user's compatibility access to a model. */
  ghost predicate LevelRow(m: Metadata, id: string, user: string, model: string, role: string) {
    && id in m.bindings && m.bindings[id].subject == UserPrincipal(user) && m.bindings[id].scope == Ref(Model, model)
    && m.bindings[id].selector == Selector(Scope, None) && m.bindings[id].compatibility && m.bindings[id].roleId == role
  }

  ghost predicate NotStored(m: Metadata, id: string) {
    id !in m.bindings
  }

  lemma FreshIsNotStored(m: Metadata, id: string)
    requires FreshId(m, id)
    ensures NotStored(m, id)
  {
  }

  lemma UpsertRow(m: Metadata, user: string, model: string, role: string, newId: string)
    requires WellFormed(m) && NotStored(m, newId)
    ensures var m' := Upsert(m, user, model, role, newId);
            exists id ::
              && LevelRow(m', id, user, model, role) && OthersKept(m, m', id)
              && (if id in m.bindings then LevelRow(m, id, user, model, m.bindings[id].roleId)
                  else id == newId && forall other :: other in m.bindings ==> !LevelRow(m, other, user, model, m.bindings[other].roleId))
  {
    hide Hierarchy, References, Selectors, CleanIds, LegacyRoles, CompatibilityId, CompatibilityRole;
    var m' := Upsert(m, user, model, role, newId);
    var id := if HasCompatibility(m, user, model) then CompatibilityId(m, user, model) else newId;
    if HasCompatibility(m, user, model) {
      assert LegacyShape(m.bindings[id]);
    } else {
      assert forall other :: other in m.bindings ==> !IsCompatibility(m.bindings[other], user, model);
    }
    assert LevelRow(m', id, user, model, role) && OthersKept(m, m', id);
  }

  /** A legacy grant leaves one row with the requested role: the row the user had on the model, or a
      new one when there was none. */
  lemma LegacyIsGranted(s: System, actor: string, user: string, model: string, access: Access, newId: string, fault: Fault)
    requires WellFormed(s.meta) && FreshId(s.meta, newId) && CarriedOut(Next(s, Step(GrantLegacy(actor, user, model, access, newId), fault)))
    ensures access != InvalidAccess
    ensures var m, m' := s.meta, Next(s, Step(GrantLegacy(actor, user, model, access, newId), fault)).after.meta;
            exists id ::
              && LevelRow(m', id, user, model, CompatibilityRole(access)) && OthersKept(m, m', id)
              && (if id in m.bindings then LevelRow(m, id, user, model, m.bindings[id].roleId)
                  else id == newId && forall other :: other in m.bindings ==> !LevelRow(m, other, user, model, m.bindings[other].roleId))
  {
    hide WellFormed, Upsert, Require, FreshId, Hierarchy, Next, OthersKept, LevelRow;
    CarriedOutAsPlanned(s, GrantLegacy(actor, user, model, access, newId), fault);
    assert NotStored(s.meta, newId) by { FreshIsNotStored(s.meta, newId); }
    UpsertRow(s.meta, user, model, CompatibilityRole(access), newId);
  }

  /** A legacy revocation takes the row of exactly the named access, and lowers it by one or drops it. */
  lemma LegacyIsRevoked(s: System, actor: string, user: string, model: string, access: Access, fault: Fault)
    requires WellFormed(s.meta) && CarriedOut(Next(s, Step(RevokeLegacy(actor, user, model, access), fault)))
    ensures access != InvalidAccess
    ensures var m, m' := s.meta, Next(s, Step(RevokeLegacy(actor, user, model, access), fault)).after.meta;
            exists id ::
              && LevelRow(m, id, user, model, CompatibilityRole(access)) && OthersKept(m, m', id)
              && match access
                 case AdminAccess => LevelRow(m', id, user, model, CompatibilityRole(WriteAccess))
                 case WriteAccess => LevelRow(m', id, user, model, CompatibilityRole(ReadAccess))
                 case _ => id !in m'.bindings
  {
    hide WellFormed, PlanRevokeLegacy, Next, CompatibilityRole, CompatibilityId, HasCompatibility, FreshId, Hierarchy;
    var op := RevokeLegacy(actor, user, model, access);
    var m, m' := s.meta, Next(s, Step(op, fault)).after.meta;
    CarriedOutAsPlanned(s, op, fault);
    RevokedBindings(s, actor, user, model, access);
    var id := CompatibilityId(m, user, model);
    assert LevelRow(m, id, user, model, CompatibilityRole(access));
    assert OthersKept(m, m', id);
  }

  lemma UpsertGranted(m: Metadata, user: string, model: string, access: Access, newId: string, who: string, p: Permission, r: Ref)
    requires WellFormed(m) && NotStored(m, newId) && access != InvalidAccess
    ensures Granted(Upsert(m, user, model, CompatibilityRole(access), newId), who, p, r) <==>
            GrantedBeside(m, user, model, who, p, r) || GivenByLevel(m.resources, user, model, access, who, p, r)
  {
    hide Hierarchy, References, Selectors, CleanIds, LegacyRoles, CompatibilityRole, CompatibilityId, Granted, Grants, GrantedByOther, GrantedBeside, GivenByLevel, IsLegacyRole;
    var id := if HasCompatibility(m, user, model) then CompatibilityId(m, user, model) else newId;
    var b := Upsert(m, user, model, CompatibilityRole(access), newId).bindings[id];
    if HasCompatibility(m, user, model) {
      assert LegacyShape(m.bindings[id]);
    }
    LevelBindingGives(m, b, user, model, access, who, p, r);
    BesideIsOther(m, id, user, model, who, p, r);
    GrantedStoring(m, id, b, who, p, r);
  }

  /** After a legacy grant a decision is allowed exactly when another binding gives it, or the user
      asks, at or below the model, for a permission of the requested access. */
  lemma GrantSetsTheLevel(s: System, actor: string, user: string, model: string, access: Access, newId: string,
                          fault: Fault, who: string, p: Permission, r: Ref)
    requires WellFormed(s.meta) && Synchronized(s) && FreshId(s.meta, newId) && Askable(s.meta, p, r)
    requires Next(s, Step(GrantLegacy(actor, user, model, access, newId), fault)).error.None?
    ensures Decision(Next(s, Step(GrantLegacy(actor, user, model, access, newId), fault)).after, who, p, r) <==>
            GrantedBeside(s.meta, user, model, who, p, r) || GivenByLevel(s.meta.resources, user, model, access, who, p, r)
  {
    hide WellFormed, Synchronized, Decision, Granted, Upsert, Require, FreshId, Hierarchy, Next, GrantedBeside, GivenByLevel;
    var op := GrantLegacy(actor, user, model, access, newId);
    CarriedOutAsPlanned(s, op, fault);
    DecidesAfter(s, op, fault, who, p, r);
    assert NotStored(s.meta, newId) by { FreshIsNotStored(s.meta, newId); }
    LegacyIsGranted(s, actor, user, model, access, newId, fault);
    UpsertGranted(s.meta, user, model, access, newId, who, p, r);
  }

  function Lowered(access: Access): Access {
    match access
    case AdminAccess => WriteAccess
    case WriteAccess => ReadAccess
    case _ => InvalidAccess
  }

  lemma RevokedGranted(s: System, actor: string, user: string, model: string, access: Access, who: string, p: Permission, r: Ref)
    requires WellFormed(s.meta) && PlanRevokeLegacy(s, actor, user, model, access).Success?
    ensures Granted(PlanRevokeLegacy(s, actor, user, model, access).value, who, p, r) <==>
            GrantedBeside(s.meta, user, model, who, p, r) || GivenByLevel(s.meta.resources, user, model, Lowered(access), who, p, r)
  {
    hide Hierarchy, References, Selectors, CleanIds, LegacyRoles, CompatibilityRole, CompatibilityId, HasCompatibility, PlanRevokeLegacy,
      Granted, Grants, GrantedBeside, GrantedByOther, LegacyPermissions, LegacyShape, SameCompatibility;
    RevokedBindings(s, actor, user, model, access);
    var m, id := s.meta, CompatibilityId(s.meta, user, model);
    BesideIsOther(m, id, user, model, who, p, r);
    match NextAccess(access) {
      case None =>
        GrantedWithout(m, id, who, p, r);
        NothingByNoLevel(m.resources, user, model, who, p, r);
      case Some(next) =>
        var b := m.bindings[id].(roleId := CompatibilityRole(next));
        LevelBindingGives(m, b, user, model, next, who, p, r);
        GrantedStoring(m, id, b, who, p, r);
    }
  }

  lemma NothingByNoLevel(rs: Resources, user: string, model: string, who: string, p: Permission, r: Ref)
    ensures !GivenByLevel(rs, user, model, InvalidAccess, who, p, r)
  {
  }

  /** After a legacy revocation a decision is allowed exactly when another binding gives it, or the
      user asks, at or below the model, for a permission of the access one level down. */
  lemma RevokeLowersTheLevel(s: System, actor: string, user: string, model: string, access: Access,
                             fault: Fault, who: string, p: Permission, r: Ref)
    requires WellFormed(s.meta) && Synchronized(s) && Askable(s.meta, p, r)
    requires Next(s, Step(RevokeLegacy(actor, user, model, access), fault)).error.None?
    ensures Decision(Next(s, Step(RevokeLegacy(actor, user, model, access), fault)).after, who, p, r) <==>
            GrantedBeside(s.meta, user, model, who, p, r) || GivenByLevel(s.meta.resources, user, model, Lowered(access), who, p, r)
  {
    hide WellFormed, Synchronized, Decision, Granted, PlanRevokeLegacy, FreshId, Hierarchy, Next, GrantedBeside, GivenByLevel;
    CarriedOutAsPlanned(s, RevokeLegacy(actor, user, model, access), fault);
    RevokedBindings(s, actor, user, model, access);
    DecidesAfter(s, RevokeLegacy(actor, user, model, access), fault, who, p, r);
    RevokedGranted(s, actor, user, model, access, who, p, r);
  }

  // ---------------------------------------------------------------- resources

  /** A created resource is stored under its trimmed name below its parent. */
  lemma ResourceIsCreated(s: System, actor: string, typ: ResourceType, name: string, parent: Option<Ref>, newId: string, fault: Fault)
    requires WellFormed(s.meta) && FreshId(s.meta, newId) && CarriedOut(Next(s, Step(CreateResource(actor, typ, name, parent, newId), fault)))
    ensures parent.Some? && parent.value.typ in ParentRule(typ) && Known(s.meta.resources, parent.value)
    ensures Ref(typ, newId) !in s.meta.resources
    ensures Next(s, Step(CreateResource(actor, typ, name, parent, newId), fault)).after.meta
            == s.meta.(resources := s.meta.resources[Ref(typ, newId) := StoredResource(Slug.TrimSpace(name), parent)])
  {
    CarriedOutAsPlanned(s, CreateResource(actor, typ, name, parent, newId), fault);
    NewResourceParent(s, actor, typ, name, parent, newId);
    hide WellFormed, FreshId, Require, Hierarchy, Slug.TrimSpace;
  }

  lemma NewLeafKeepsGiven(m: Metadata, leaf: Ref, row: StoredResource, b: Binding, p: Permission, r: Ref)
    requires Hierarchy(m.resources) && leaf !in m.resources && leaf != CONTROLLER && Known(m.resources, r)
    ensures Gives(m.(resources := m.resources[leaf := row]), b, p, r) <==> Gives(m, b, p, r)
  {
    hide Hierarchy, AtOrBelow;
    forall top ensures AtOrBelow(m.resources[leaf := row], r, top) <==> AtOrBelow(m.resources, r, top) {
      ClimbSurvivesNewLeaf(m.resources, leaf, row, r, top);
    }
  }

  lemma NewLeafIsGivenAsParent(m: Metadata, leaf: Ref, row: StoredResource, id: string, p: Permission)
    requires Hierarchy(m.resources) && FreshId(m, leaf.id) && id in m.bindings
    requires row.parent.Some? && row.parent.value.typ in ParentRule(leaf.typ) && Known(m.resources, row.parent.value)
    ensures Gives(m.(resources := m.resources[leaf := row]), m.bindings[id], p, leaf) <==> Gives(m, m.bindings[id], p, row.parent.value)
  {
    hide Hierarchy;
    var b, rs := m.bindings[id], m.resources[leaf := row];
    ParentRulesAgree(leaf.typ, row.parent.value.typ);
    NewLeafKeepsGiven(m, leaf, row, b, p, row.parent.value);
    assert b.scope != leaf && leaf !in Targets(b);
    forall top | top != leaf ensures AtOrBelow(rs, leaf, top) <==> AtOrBelow(rs, row.parent.value, top) {
    }
  }

  lemma NewLeafKeepsGranted(m: Metadata, leaf: Ref, row: StoredResource, who: string, p: Permission, r: Ref)
    requires WellFormed(m) && FreshId(m, leaf.id) && Known(m.resources, r)
    ensures Granted(m.(resources := m.resources[leaf := row]), who, p, r) <==> Granted(m, who, p, r)
  {
    hide Gives, References, Selectors, Legacy, CleanIds;
    forall id | id in m.bindings
      ensures Gives(m.(resources := m.resources[leaf := row]), m.bindings[id], p, r) <==> Gives(m, m.bindings[id], p, r)
    {
      NewLeafKeepsGiven(m, leaf, row, m.bindings[id], p, r);
    }
  }

  lemma NewLeafIsGrantedAsParent(m: Metadata, leaf: Ref, row: StoredResource, who: string, p: Permission)
    requires WellFormed(m) && FreshId(m, leaf.id)
    requires row.parent.Some? && row.parent.value.typ in ParentRule(leaf.typ) && Known(m.resources, row.parent.value)
    ensures Granted(m.(resources := m.resources[leaf := row]), who, p, leaf) <==> Granted(m, who, p, row.parent.value)
  {
    hide Gives, References, Selectors, Legacy, CleanIds, FreshId, ParentRule;
    forall id | id in m.bindings
      ensures Gives(m.(resources := m.resources[leaf := row]), m.bindings[id], p, leaf) <==> Gives(m, m.bindings[id], p, row.parent.value)
    {
      NewLeafIsGivenAsParent(m, leaf, row, id, p);
    }
  }

  /** Creating a resource changes no decision on what is stored already, and opens the new resource to
      exactly those whom some binding gives the permission at its parent. */
  lemma CreationInheritsFromParent(s: System, actor: string, typ: ResourceType, name: string, parent: Option<Ref>, newId: string,
                                   fault: Fault, who: string, p: Permission, r: Ref)
    requires WellFormed(s.meta) && Synchronized(s) && FreshId(s.meta, newId)
    requires Next(s, Step(CreateResource(actor, typ, name, parent, newId), fault)).error.None?
    ensures parent.Some?
    ensures var after := Next(s, Step(CreateResource(actor, typ, name, parent, newId), fault)).after;
            && (Askable(s.meta, p, r) ==> (Decision(after, who, p, r) <==> Decision(s, who, p, r)))
            && (Supports(p, typ) ==> (Decision(after, who, p, Ref(typ, newId)) <==> Granted(s.meta, who, p, parent.value)))
  {
    hide WellFormed, Synchronized, Decision, Granted, Next, Hierarchy, FreshId, Slug.TrimSpace, Supports, ParentRule;
    var op, leaf, row := CreateResource(actor, typ, name, parent, newId), Ref(typ, newId), StoredResource(Slug.TrimSpace(name), parent);
    ResourceIsCreated(s, actor, typ, name, parent, newId, fault);
    DecidesAfter(s, op, fault, who, p, r);
    DecidesAfter(s, op, fault, who, p, leaf);
    if Askable(s.meta, p, r) {
      DecisionIsGranted(s, who, p, r);
      NewLeafKeepsGranted(s.meta, leaf, row, who, p, r);
    }
    NewLeafIsGrantedAsParent(s.meta, leaf, row, who, p);
  }

  /** A deleted resource is gone, and nothing else is; it had no child. */
  lemma ResourceIsDeleted(s: System, actor: string, ref: Ref, fault: Fault)
    requires WellFormed(s.meta) && CarriedOut(Next(s, Step(DeleteResource(actor, ref), fault)))
    ensures ref in s.meta.resources && forall r :: r in s.meta.resources ==> s.meta.resources[r].parent != Some(ref)
    ensures var m, m' := s.meta, Next(s, Step(DeleteResource(actor, ref), fault)).after.meta;
            && m' == m.(resources := m'.resources)
            && (forall r :: r in m'.resources <==> r in m.resources && r != ref)
            && (forall r :: r in m'.resources ==> m'.resources[r] == m.resources[r])
  {
    CarriedOutAsPlanned(s, DeleteResource(actor, ref), fault);
    hide WellFormed, Require, Hierarchy;
  }

  lemma DeletionKeepsGiven(m: Metadata, leaf: Ref, b: Binding, p: Permission, r: Ref)
    requires Hierarchy(m.resources) && leaf in m.resources && !HasChildren(m.resources, leaf) && Known(m.resources, r) && r != leaf
    ensures Gives(m.(resources := m.resources - {leaf}), b, p, r) <==> Gives(m, b, p, r)
  {
    hide Hierarchy, AtOrBelow, HasChildren;
    forall top ensures AtOrBelow(m.resources - {leaf}, r, top) <==> AtOrBelow(m.resources, r, top) {
      ClimbSurvivesDeletion(m.resources, leaf, r, top);
    }
  }

  lemma RecognisedWhenStored(rs: Resources, r: Ref)
    requires Hierarchy(rs) && r in rs
    ensures r.typ != Unrecognised
  {
  }

  lemma DeletionKeepsGranted(m: Metadata, leaf: Ref, who: string, p: Permission, r: Ref)
    requires Hierarchy(m.resources) && leaf in m.resources && Known(m.resources, r) && r != leaf
    requires forall child :: child in m.resources ==> m.resources[child].parent != Some(leaf)
    ensures Granted(m.(resources := m.resources - {leaf}), who, p, r) <==> Granted(m, who, p, r)
  {
    hide Gives, Hierarchy;
    forall id | id in m.bindings
      ensures Gives(m.(resources := m.resources - {leaf}), m.bindings[id], p, r) <==> Gives(m, m.bindings[id], p, r)
    {
      DeletionKeepsGiven(m, leaf, m.bindings[id], p, r);
    }
  }

  /** After a deletion the resource is no longer found by any check, and every decision on what is
      still stored is as before. */
  lemma DeletionTouchesOnlyTheResource(s: System, actor: string, ref: Ref, fault: Fault, who: string, p: Permission, r: Ref)
    requires WellFormed(s.meta) && Synchronized(s)
    requires Next(s, Step(DeleteResource(actor, ref), fault)).error.None?
    ensures var after := Next(s, Step(DeleteResource(actor, ref), fault)).after;
            && (who != "" && ref.id != "" ==> Check(after, who, Some(p), ref) == Failure(NotFound))
            && (Askable(s.meta, p, r) && r != ref ==> (Decision(after, who, p, r) <==> Decision(s, who, p, r)))
  {
    hide WellFormed, Synchronized, Decision, Granted, Next, Hierarchy, Supports, Allowed;
    var op, m := DeleteResource(actor, ref), s.meta;
    ResourceIsDeleted(s, actor, ref, fault);
    DecidesAfter(s, op, fault, who, p, r);
    WellFormedHierarchy(m);
    ParentRanksHigher(m.resources, ref);
    RecognisedWhenStored(m.resources, ref);
    if Askable(m, p, r) && r != ref {
      DecisionIsGranted(s, who, p, r);
      assert Next(s, Step(op, fault)).after.meta.resources == m.resources - {ref};
      DeletionKeepsGranted(m, ref, who, p, r);
    }
  }
}
