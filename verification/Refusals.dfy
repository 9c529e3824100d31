/** Why operations are refused: from a synchronized state an operation is carried out exactly when
    none of the documented reasons against it holds, and a refusal names one that does. */
module Refusals {
  import opened Catalog
  import opened AuthModel
  import opened Compiler
  import opened Metadata
  import opened ScopeRules
  import opened Encoding
  import opened Operations
  import opened Invariants
  import opened Projection
  import opened Decisions
  import opened Authorization
  import opened Effects
  import Slug

  // ---------------------------------------------------------------- the reasons

  /** No binding gives the actor what the policy demands, where it demands it. */
  ghost predicate Unauthorized(m: Metadata, op: Op) {
    ActorOf(op).Some? && !exists p, r :: Demands(m, op, p, r) && Granted(m, ActorOf(op).value, p, r)
  }

  /** The actor, or the place to be checked, has the empty identifier. */
  ghost predicate Nameless(m: Metadata, op: Op) {
    ActorOf(op) == Some("") || exists p, r :: Demands(m, op, p, r) && r.id == ""
  }

  /** A row the request names is not stored. */
  ghost predicate Missing(m: Metadata, op: Op) {
    match op
    case AddGroupMember(_, group, user) => group !in m.groups || user !in m.users
    case RemoveGroupMember(_, group, user) => (group, user) !in m.members
    case UpdateRole(_, role, _, _, _) => role !in m.roles
    case CreateBinding(_, input, _) =>
      || input.roleId !in m.roles || !Known(m.resources, input.scope)
      || (input.subjectType == UserSubject && input.subjectId !in m.users)
      || (input.subjectType == GroupSubject && input.subjectId !in m.groups)
      || (input.selector.match_ == Exact && input.selector.resources.Some? && exists t :: t in input.selector.resources.value && t !in m.resources)
    case DeleteBinding(_, id) => id !in m.bindings || !Known(m.resources, m.bindings[id].scope)
    case GrantLegacy(_, user, model, _, _) => user !in m.users || Ref(Model, model) !in m.resources
    case RevokeLegacy(_, user, model, _) =>
      Ref(Model, model) !in m.resources || forall id :: id in m.bindings ==> !LevelRow(m, id, user, model, m.bindings[id].roleId)
    case CreateResource(_, _, _, parent, _) => parent.Some? && !Known(m.resources, parent.value)
    case DeleteResource(_, ref) => ref !in m.resources
    case _ => false
  }

  /** The request contradicts itself or the rows it names. */
  ghost predicate Malformed(m: Metadata, op: Op) {
    Nameless(m, op) ||
    match op
    case CreateRole(_, _, _, permissions) => !NamesPermissions(permissions)
    case UpdateRole(_, role, _, _, permissions) =>
      || !NamesPermissions(permissions) || (role in m.roles && m.roles[role].builtIn)
      || exists id :: id in m.bindings && m.bindings[id].roleId == role && !Compiles(m.bindings[id], NamedIn(permissions))
    case CreateBinding(_, input, _) =>
      || input.subjectType == UnrecognisedSubject
      || (match input.selector.match_
          case Scope => input.selector.resources.Some?
          case Exact =>
            || input.selector.resources.None? || input.selector.resources.value == []
            || exists t :: t in input.selector.resources.value && !AtOrBelow(m.resources, t, input.scope)
          case UnknownMatch => true)
    case GrantLegacy(_, _, _, access, _) => access == InvalidAccess
    case RevokeLegacy(_, user, model, access) =>
      || access == InvalidAccess
      || exists id :: id in m.bindings && LevelRow(m, id, user, model, m.bindings[id].roleId) && m.bindings[id].roleId != CompatibilityRole(access)
    case CreateResource(_, typ, _, parent, _) => parent.None? || parent.value.typ !in ParentRule(typ)
    case _ => false
  }

  /** The request meets a uniqueness rule, a later revision, or a child. */
  ghost predicate Clashing(m: Metadata, op: Op) {
    match op
    case CreateUser(_, name) => Slug.SlugOf(Slug.TrimSpace(name)) in m.users || exists id :: id in m.users && m.users[id] == Slug.TrimSpace(name)
    case CreateGroup(_, name) => Slug.SlugOf(Slug.TrimSpace(name)) in m.groups || exists id :: id in m.groups && m.groups[id] == Slug.TrimSpace(name)
    case CreateRole(_, name, _, _) => Slug.SlugOf(name) in m.roles || exists id :: id in m.roles && m.roles[id].name == name
    case UpdateRole(_, role, expected, _, _) => role in m.roles && m.roles[role].revision != expected
    case CreateBinding(_, input, _) =>
      exists id :: id in m.bindings && m.bindings[id].roleId == input.roleId && m.bindings[id].scope == input.scope && !m.bindings[id].compatibility &&
                   m.bindings[id].subject == if input.subjectType == GroupSubject then GroupPrincipal(input.subjectId) else UserPrincipal(input.subjectId)
    case CreateResource(_, typ, name, _, newId) =>
      exists r :: r in m.resources && r.typ == typ && (r.id == newId || m.resources[r].name == Slug.TrimSpace(name))
    case DeleteResource(_, ref) => exists child :: child in m.resources && m.resources[child].parent == Some(ref)
    case _ => false
  }

  /** The store accepts no blank name. */
  predicate Blank(op: Op) {
    match op
    case CreateUser(_, name) => Slug.TrimSpace(name) == ""
    case CreateGroup(_, name) => Slug.TrimSpace(name) == ""
    case CreateRole(_, name, _, _) => Slug.SlugOf(name) == ""
    case _ => false
  }

  /** What each error says of the request. */
  ghost predicate Reason(m: Metadata, op: Op, e: Error) {
    match e
    case Forbidden => Unauthorized(m, op)
    case Invalid => Malformed(m, op)
    case NotFound => Missing(m, op)
    case Conflict => Clashing(m, op)
    case Rejected => Blank(op)
    case _ => false
  }

  /** A refusal gives a reason that holds; an acceptance leaves none. */
  ghost predicate Answers(m: Metadata, op: Op, plan: Result<Metadata, Error>) {
    match plan
    case Success(_) => forall e :: !Reason(m, op, e)
    case Failure(e) => Reason(m, op, e)
  }

  // ---------------------------------------------------------------- the guard

  /** The guard's answer in a synchronized state, on a permission catalogued for the resource. */
  lemma GuardAnswers(s: System, actor: string, p: Permission, r: Ref)
    requires WellFormed(s.meta) && Synchronized(s) && Supports(p, r.typ)
    ensures Require(s, actor, Some(p), r) ==
            if actor == "" || r.id == "" then Some(Invalid)
            else if !Known(s.meta.resources, r) then Some(NotFound)
            else if !Granted(s.meta, actor, p, r) then Some(Forbidden)
            else None
  {
    hide Synchronized, Granted, References, Selectors, Legacy, CleanIds, Allowed;
    if Known(s.meta.resources, r) && actor != "" && r.id != "" {
      CheckIsGranted(s, actor, p, r);
    } else if r in s.meta.resources {
      ParentRanksHigher(s.meta.resources, r);
    }
  }

  ghost predicate DemandsOnly(m: Metadata, op: Op, p: Permission, r: Ref) {
    forall q, t :: Demands(m, op, q, t) <==> q == p && t == r
  }

  /** When the policy demands one permission at one place, the guard there is the whole of it. */
  lemma GuardIsDemand(s: System, op: Op, p: Permission, r: Ref)
    requires WellFormed(s.meta) && Synchronized(s) && Supports(p, r.typ)
    requires ActorOf(op).Some? && DemandsOnly(s.meta, op, p, r)
    ensures var guard := Require(s, ActorOf(op).value, Some(p), r);
            && (guard.None? <==> !Nameless(s.meta, op) && Known(s.meta.resources, r) && !Unauthorized(s.meta, op))
            && (guard.Some? ==> || (guard.value == Invalid && Nameless(s.meta, op))
                                || (guard.value == NotFound && !Known(s.meta.resources, r))
                                || (guard.value == Forbidden && Unauthorized(s.meta, op)))
  {
    hide WellFormed, Synchronized, Granted, Require, Supports, Known, Demands, ActorOf;
    GuardAnswers(s, ActorOf(op).value, p, r);
    assert Demands(s.meta, op, p, r);
  }

  // ---------------------------------------------------------------- users, groups, roles

  lemma ControllerGuard(s: System, op: Op)
    requires WellFormed(s.meta) && Synchronized(s) && ActorOf(op).Some?
    requires !op.CreateBinding? && !op.DeleteBinding? && !op.GrantLegacy? && !op.RevokeLegacy? && !op.CreateResource? && !op.DeleteResource?
    ensures var guard := Require(s, ActorOf(op).value, MANAGE, CONTROLLER);
            && (guard.None? <==> !Nameless(s.meta, op) && !Unauthorized(s.meta, op))
            && (guard.Some? ==> || (guard.value == Invalid && Nameless(s.meta, op))
                                || (guard.value == Forbidden && Unauthorized(s.meta, op)))
  {
    hide WellFormed, Synchronized, Granted, Require, Nameless, Unauthorized;
    GuardIsDemand(s, op, PolicyManage, CONTROLLER);
  }

  lemma CreateUserAnswers(s: System, actor: string, name: string)
    requires WellFormed(s.meta) && Synchronized(s)
    ensures Answers(s.meta, CreateUser(actor, name), PlanCreateUser(s, actor, name))
    ensures Answers(s.meta, CreateGroup(actor, name), PlanCreateGroup(s, actor, name))
  {
    hide WellFormed, Synchronized, Require, Nameless, Unauthorized, Slug.SlugOf, Slug.TrimSpace;
    ControllerGuard(s, CreateUser(actor, name));
    ControllerGuard(s, CreateGroup(actor, name));
  }

  lemma MembershipAnswers(s: System, actor: string, group: string, user: string)
    requires WellFormed(s.meta) && Synchronized(s)
    ensures Answers(s.meta, AddGroupMember(actor, group, user), PlanAddGroupMember(s, actor, group, user))
    ensures Answers(s.meta, RemoveGroupMember(actor, group, user), PlanRemoveGroupMember(s, actor, group, user))
  {
    hide WellFormed, Synchronized, Require, Nameless, Unauthorized;
    ControllerGuard(s, AddGroupMember(actor, group, user));
    ControllerGuard(s, RemoveGroupMember(actor, group, user));
  }

  lemma CreateRoleAnswers(s: System, actor: string, name: string, description: string, permissions: seq<string>)
    requires WellFormed(s.meta) && Synchronized(s)
    ensures Answers(s.meta, CreateRole(actor, name, description, permissions), PlanCreateRole(s, actor, name, description, permissions))
  {
    hide WellFormed, Synchronized, Require, Nameless, Unauthorized, Slug.SlugOf, ParseAll, NamesPermissions, PermissionName;
    ControllerGuard(s, CreateRole(actor, name, description, permissions));
    ParseAllReadsNames(permissions);
  }

  lemma UpdateRoleAnswers(s: System, actor: string, role: string, expected: int, description: string, permissions: seq<string>)
    requires WellFormed(s.meta) && Synchronized(s)
    ensures Answers(s.meta, UpdateRole(actor, role, expected, description, permissions), PlanUpdateRole(s, actor, role, expected, description, permissions))
  {
    hide WellFormed, Synchronized, Require, Nameless, Unauthorized, ParseAll, NamesPermissions, PermissionName, NamedIn, Compiles;
    ControllerGuard(s, UpdateRole(actor, role, expected, description, permissions));
    ParseAllReadsNames(permissions);
  }

  // ---------------------------------------------------------------- bindings

  /** A scope that is stored, or is a model or a controller, has one nearest policy scope. */
  lemma NearestIsManagement(rs: Resources, scope: Ref, r: Ref)
    requires Hierarchy(rs) && ManagementScope(rs, scope).Success?
    requires Known(rs, scope) || IsPolicyScope(scope)
    ensures NearestPolicyScope(rs, scope, r) <==> r == ManagementScope(rs, scope).value
  {
    hide Hierarchy;
    var managed := ManagementScope(rs, scope).value;
    if Known(rs, scope) {
      ManagementScopeIsNearest(rs, scope);
    }
    assert NearestPolicyScope(rs, scope, managed);
    if NearestPolicyScope(rs, scope, r) {
      AtOrBelowAntisymmetric(rs, managed, r);
    }
  }

  /** The scope is found exactly when it is stored or is itself a policy scope; what manages it is
      stored exactly when it is. */
  lemma ScopeIsFound(rs: Resources, scope: Ref)
    requires Hierarchy(rs)
    ensures ManagementScope(rs, scope) == Failure(NotFound) || ManagementScope(rs, scope).Success?
    ensures ManagementScope(rs, scope).Success? <==> Known(rs, scope) || IsPolicyScope(scope)
    ensures ManagementScope(rs, scope).Success? ==>
              IsPolicyScope(ManagementScope(rs, scope).value) && (Known(rs, ManagementScope(rs, scope).value) <==> Known(rs, scope))
  {
    if Known(rs, scope) {
      ManagementScopeIsNearest(rs, scope);
    }
  }

  /** The guard of a binding operation at the scope that manages it. */
  lemma BindingGuard(s: System, op: Op, scope: Ref)
    requires WellFormed(s.meta) && Synchronized(s) && ActorOf(op).Some?
    requires forall p, r :: Demands(s.meta, op, p, r) <==> p == PolicyManage && NearestPolicyScope(s.meta.resources, scope, r)
    ensures Hierarchy(s.meta.resources)
    ensures match ManagementScope(s.meta.resources, scope)
            case Failure(e) => e == NotFound && !Known(s.meta.resources, scope)
            case Success(managed) =>
              var guard := Require(s, ActorOf(op).value, MANAGE, managed);
              && (guard.None? <==> !Nameless(s.meta, op) && Known(s.meta.resources, scope) && !Unauthorized(s.meta, op))
              && (guard.Some? ==> || (guard.value == Invalid && Nameless(s.meta, op))
                                  || (guard.value == NotFound && !Known(s.meta.resources, scope))
                                  || (guard.value == Forbidden && Unauthorized(s.meta, op)))
  {
    hide WellFormed, Synchronized, Require, Nameless, Unauthorized, Known, NearestPolicyScope, Hierarchy, ManagementScope, Demands;
    WellFormedHierarchy(s.meta);
    ScopeIsFound(s.meta.resources, scope);
    if ManagementScope(s.meta.resources, scope).Success? {
      var managed := ManagementScope(s.meta.resources, scope).value;
      forall r ensures NearestPolicyScope(s.meta.resources, scope, r) <==> r == managed {
        NearestIsManagement(s.meta.resources, scope, r);
      }
      GuardIsDemand(s, op, PolicyManage, managed);
    }
  }

  /** The targets' reasons: validation blames a missing row or a target outside the scope truthfully. */
  lemma {:induction false} TargetsBlame(rs: Resources, targets: seq<Ref>, scope: Ref)
    requires Hierarchy(rs)
    ensures match TargetsError(rs, targets, scope)
            case None => forall t :: t in targets ==> t in rs && AtOrBelow(rs, t, scope)
            case Some(e) => || (e == NotFound && exists t :: t in targets && t !in rs)
                            || (e == Invalid && exists t :: t in targets && !AtOrBelow(rs, t, scope))
  {
    if targets != [] {
      var front, last := targets[..|targets| - 1], targets[|targets| - 1];
      TargetsBlame(rs, front, scope);
      assert targets == front + [last] && last in targets;
      if last in rs {
        WithinScopeDecides(rs, last, scope);
      }
    }
  }

  lemma ValidationAnswers(m: Metadata, actor: string, input: BindingInput, newId: string)
    requires WellFormed(m)
    ensures Hierarchy(m.resources)
    ensures var op := CreateBinding(actor, input, newId);
            match ValidateBinding(m, input)
            case None => (Known(m.resources, input.scope) ==> !Missing(m, op)) && (Malformed(m, op) ==> Nameless(m, op))
                         && (!Known(m.resources, input.scope) ==> input.scope.typ == Controller)
            case Some(e) => (e == NotFound && Missing(m, op)) || (e == Invalid && Malformed(m, op))
  {
    hide References, Selectors, Legacy, CleanIds, Hierarchy, Nameless, AtOrBelow, TargetsError;
    WellFormedHierarchy(m);
    if input.selector.resources.Some? {
      TargetsBlame(m.resources, input.selector.resources.value, input.scope);
    }
  }

  lemma CreateBindingAnswers(s: System, actor: string, input: BindingInput, newId: string)
    requires WellFormed(s.meta) && Synchronized(s)
    ensures Hierarchy(s.meta.resources)
    ensures Answers(s.meta, CreateBinding(actor, input, newId), PlanCreateBinding(s, actor, input, newId))
  {
    hide WellFormed, Synchronized, Require, Nameless, Unauthorized, Malformed, Missing, Known, NearestPolicyScope, ManagementScope, Operations.ValidateBinding;
    var op := CreateBinding(actor, input, newId);
    ValidationAnswers(s.meta, actor, input, newId);
    BindingGuard(s, op, input.scope);
    NamelessIsMalformed(s.meta, op);
    UnknownScopeIsMissing(s.meta, op);
  }

  lemma NamelessIsMalformed(m: Metadata, op: Op)
    ensures Nameless(m, op) ==> Malformed(m, op)
  {
  }

  lemma UnknownScopeIsMissing(m: Metadata, op: Op)
    requires op.CreateBinding?
    ensures !Known(m.resources, op.input.scope) ==> Missing(m, op)
  {
  }

  lemma DeleteBindingAnswers(s: System, actor: string, id: string)
    requires WellFormed(s.meta) && Synchronized(s)
    ensures Hierarchy(s.meta.resources)
    ensures Answers(s.meta, DeleteBinding(actor, id), PlanDeleteBinding(s, actor, id))
  {
    hide WellFormed, Synchronized, Require, Nameless, Unauthorized, Known, NearestPolicyScope, ManagementScope, Hierarchy;
    WellFormedHierarchy(s.meta);
    if id in s.meta.bindings {
      BindingGuard(s, DeleteBinding(actor, id), s.meta.bindings[id].scope);
    }
  }

  // ---------------------------------------------------------------- legacy access

  lemma LegacyGuard(s: System, op: Op, model: string)
    requires WellFormed(s.meta) && Synchronized(s) && ActorOf(op).Some?
    requires (op.GrantLegacy? || op.RevokeLegacy?) && op.model == model
    ensures var guard := Require(s, ActorOf(op).value, MANAGE, ModelRef(model));
            && (guard.None? <==> !Nameless(s.meta, op) && Ref(Model, model) in s.meta.resources && !Unauthorized(s.meta, op))
            && (guard.Some? ==> || (guard.value == Invalid && Nameless(s.meta, op))
                                || (guard.value == NotFound && Ref(Model, model) !in s.meta.resources)
                                || (guard.value == Forbidden && Unauthorized(s.meta, op)))
  {
    hide WellFormed, Synchronized, Granted, Require, Nameless, Unauthorized;
    GuardIsDemand(s, op, PolicyManage, ModelRef(model));
  }

  lemma GrantLegacyAnswers(s: System, actor: string, user: string, model: string, access: Access, newId: string)
    requires WellFormed(s.meta) && Synchronized(s)
    ensures Answers(s.meta, GrantLegacy(actor, user, model, access, newId), PlanGrantLegacy(s, actor, user, model, access, newId))
  {
    hide WellFormed, Synchronized, Require, Nameless, Unauthorized, Upsert;
    LegacyGuard(s, GrantLegacy(actor, user, model, access, newId), model);
  }

  /** The compatibility rows of well-formed metadata are exactly the level rows, at most one per user
      and model. */
  lemma CompatibilityIsLevelRow(m: Metadata, user: string, model: string)
    requires WellFormed(m)
    ensures HasCompatibility(m, user, model) <==> exists id :: id in m.bindings && LevelRow(m, id, user, model, m.bindings[id].roleId)
    ensures HasCompatibility(m, user, model) ==>
              forall id :: id in m.bindings ==> (LevelRow(m, id, user, model, m.bindings[id].roleId) <==> id == CompatibilityId(m, user, model))
  {
    hide Hierarchy, References, Selectors, CleanIds, LegacyRoles, CompatibilityRole, CompatibilityId;
    forall id | id in m.bindings ensures LevelRow(m, id, user, model, m.bindings[id].roleId) <==> IsCompatibility(m.bindings[id], user, model) {
      assert LegacyShape(m.bindings[id]);
    }
    if HasCompatibility(m, user, model) {
      var row := CompatibilityId(m, user, model);
      forall id | id in m.bindings && IsCompatibility(m.bindings[id], user, model) ensures id == row {
        assert SameCompatibility(m.bindings[id], m.bindings[row]);
      }
    }
  }

  lemma RevokeLegacyAnswers(s: System, actor: string, user: string, model: string, access: Access)
    requires WellFormed(s.meta) && Synchronized(s)
    ensures Answers(s.meta, RevokeLegacy(actor, user, model, access), PlanRevokeLegacy(s, actor, user, model, access))
  {
    hide WellFormed, Synchronized, Require, Nameless, Unauthorized, Upsert, HasCompatibility, CompatibilityId, CompatibilityRole, LevelRow;
    LegacyGuard(s, RevokeLegacy(actor, user, model, access), model);
    CompatibilityIsLevelRow(s.meta, user, model);
  }

  // ---------------------------------------------------------------- resources

  lemma ParentAnswers(m: Metadata, op: Op)
    requires op.CreateResource?
    ensures match ParentError(m, op.typ, op.parent)
            case None => (op.parent.Some? <==> op.typ != Unrecognised) && (op.parent.Some? ==> op.parent.value.typ in ParentRule(op.typ))
            case Some(e) => (e == NotFound && Missing(m, op)) || (e == Invalid && Malformed(m, op))
  {
    hide Nameless;
  }

  lemma ParentlessIsInvalid(s: System, actor: string, r: Ref)
    requires r == CONTROLLER
    ensures Require(s, actor, None, r) == Some(Invalid)
  {
  }

  lemma CreateResourceAnswers(s: System, actor: string, typ: ResourceType, name: string, parent: Option<Ref>, newId: string)
    requires WellFormed(s.meta) && Synchronized(s)
    ensures Answers(s.meta, CreateResource(actor, typ, name, parent, newId), PlanCreateResource(s, actor, typ, name, parent, newId))
  {
    hide WellFormed, Synchronized, Granted, Require, Nameless, Unauthorized, ParentError, Supports, ParentRule, Slug.TrimSpace;
    var op := CreateResource(actor, typ, name, parent, newId);
    ParentAnswers(s.meta, op);
    if ParentError(s.meta, typ, parent).None? {
      if parent.Some? {
        CreatePermissionFitsParent(typ, parent.value.typ);
        GuardIsDemand(s, op, CreatePermission(typ).value, parent.value);
      } else {
        ParentlessIsInvalid(s, actor, CONTROLLER);
      }
    }
  }

  lemma DeleteResourceAnswers(s: System, actor: string, ref: Ref)
    requires WellFormed(s.meta) && Synchronized(s)
    ensures Answers(s.meta, DeleteResource(actor, ref), PlanDeleteResource(s, actor, ref))
  {
    hide WellFormed, Synchronized, Granted, Require, Nameless, Unauthorized, Supports, Hierarchy;
    if ref in s.meta.resources {
      WellFormedHierarchy(s.meta);
      DeletableWhenStored(s.meta.resources, ref);
      GuardIsDemand(s, DeleteResource(actor, ref), DeletePermission(ref.typ).value, ref);
    }
  }

  lemma DeletableWhenStored(rs: Resources, ref: Ref)
    requires Hierarchy(rs) && ref in rs
    ensures DeletePermission(ref.typ).Some? && Supports(DeletePermission(ref.typ).value, ref.typ)
  {
    CreatePermissionFitsParent(ref.typ, rs[ref].parent.value.typ);
  }

  // ---------------------------------------------------------------- every operation

  lemma PlanAnswers(s: System, op: Op)
    requires WellFormed(s.meta) && Synchronized(s)
    ensures Hierarchy(s.meta.resources)
    ensures Answers(s.meta, op, Plan(s, op))
  {
    hide WellFormed, Synchronized, Answers, Hierarchy, PlanCreateUser, PlanCreateGroup, PlanAddGroupMember, PlanRemoveGroupMember, PlanCreateRole,
      PlanUpdateRole, PlanCreateBinding, PlanDeleteBinding, PlanGrantLegacy, PlanRevokeLegacy, PlanCreateResource, PlanDeleteResource;
    WellFormedHierarchy(s.meta);
    match op
    case Resync => ResyncAnswers(s);
    case CreateUser(actor, name) => CreateUserAnswers(s, actor, name);
    case CreateGroup(actor, name) => CreateUserAnswers(s, actor, name);
    case AddGroupMember(actor, group, user) => MembershipAnswers(s, actor, group, user);
    case RemoveGroupMember(actor, group, user) => MembershipAnswers(s, actor, group, user);
    case CreateRole(actor, name, description, permissions) => CreateRoleAnswers(s, actor, name, description, permissions);
    case UpdateRole(actor, role, expected, description, permissions) => UpdateRoleAnswers(s, actor, role, expected, description, permissions);
    case CreateBinding(actor, input, newId) => CreateBindingAnswers(s, actor, input, newId);
    case DeleteBinding(actor, id) => DeleteBindingAnswers(s, actor, id);
    case GrantLegacy(actor, user, model, access, newId) => GrantLegacyAnswers(s, actor, user, model, access, newId);
    case RevokeLegacy(actor, user, model, access) => RevokeLegacyAnswers(s, actor, user, model, access);
    case CreateResource(actor, typ, name, parent, newId) => CreateResourceAnswers(s, actor, typ, name, parent, newId);
    case DeleteResource(actor, ref) => DeleteResourceAnswers(s, actor, ref);
  }

  lemma ResyncAnswers(s: System)
    ensures Answers(s.meta, Resync, Success(s.meta))
  {
  }

  /** From a synchronized state an operation is carried out exactly when it is authorized, well formed,
      names stored rows, and meets no uniqueness rule, revision or child; a refusal changes nothing and
      its error is one of these reasons, and true. */
  lemma RefusedIffReason(s: System, op: Op, fault: Fault)
    requires WellFormed(s.meta) && FreshFor(s.meta, op) && Synchronized(s)
    ensures var o := Next(s, Step(op, fault));
            && (CarriedOut(o) <==> !Unauthorized(s.meta, op) && !Malformed(s.meta, op) && !Missing(s.meta, op) && !Clashing(s.meta, op) && !Blank(op))
            && (!CarriedOut(o) ==> o.after == s && Reason(s.meta, op, o.error.value))
  {
    hide WellFormed, Synchronized, Plan, FreshFor, Next, Unauthorized, Malformed, Missing, Clashing, Blank;
    CarriedOutAsPlanned(s, op, fault);
    PlanAnswers(s, op);
    if Plan(s, op).Success? {
      assert !Reason(s.meta, op, Forbidden) && !Reason(s.meta, op, Invalid) && !Reason(s.meta, op, NotFound)
             && !Reason(s.meta, op, Conflict) && !Reason(s.meta, op, Rejected);
    }
  }

  /** Whoever is granted the demanded permission is never told that it is forbidden. */
  lemma GrantedIsNotForbidden(s: System, op: Op, fault: Fault, p: Permission, r: Ref)
    requires WellFormed(s.meta) && FreshFor(s.meta, op) && Synchronized(s) && ActorOf(op).Some?
    requires Demands(s.meta, op, p, r) && Granted(s.meta, ActorOf(op).value, p, r)
    ensures Next(s, Step(op, fault)).error != Some(Forbidden)
  {
    hide WellFormed, Synchronized, FreshFor, Next, Granted, Demands;
    RefusedIffReason(s, op, fault);
  }

  /** In particular whoever may manage policy on a model grants its stored users access to it, without
      any permission on the controller. */
  lemma ModelAdministratorGrants(s: System, actor: string, user: string, model: string, access: Access, newId: string, fault: Fault)
    requires WellFormed(s.meta) && FreshId(s.meta, newId) && Synchronized(s)
    requires actor != "" && model != "" && access != InvalidAccess
    requires user in s.meta.users && Ref(Model, model) in s.meta.resources
    requires Granted(s.meta, actor, PolicyManage, Ref(Model, model))
    ensures CarriedOut(Next(s, Step(GrantLegacy(actor, user, model, access, newId), fault)))
  {
    hide WellFormed, Synchronized, FreshId, Next, Granted;
    var op := GrantLegacy(actor, user, model, access, newId);
    assert Demands(s.meta, op, PolicyManage, Ref(Model, model));
    RefusedIffReason(s, op, fault);
  }
}
