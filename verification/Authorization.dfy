/** Who can change what: every accepted operation was granted to its actor by some binding. */
module Authorization {
  import opened Catalog
  import opened AuthModel
  import opened Compiler
  import opened Metadata
  import opened ScopeRules
  import opened Operations
  import opened Invariants
  import opened Projection
  import opened Decisions
  import Slug

  /** The acting user; a resynchronization has none. */
  function ActorOf(op: Op): Option<string> {
    match op
    case Resync => None
    case CreateUser(actor, _) => Some(actor)
    case CreateGroup(actor, _) => Some(actor)
    case AddGroupMember(actor, _, _) => Some(actor)
    case RemoveGroupMember(actor, _, _) => Some(actor)
    case CreateRole(actor, _, _, _) => Some(actor)
    case UpdateRole(actor, _, _, _, _) => Some(actor)
    case CreateBinding(actor, _, _) => Some(actor)
    case DeleteBinding(actor, _) => Some(actor)
    case GrantLegacy(actor, _, _, _, _) => Some(actor)
    case RevokeLegacy(actor, _, _, _) => Some(actor)
    case CreateResource(actor, _, _, _, _) => Some(actor)
    case DeleteResource(actor, _) => Some(actor)
  }

  /** `p` on `r` is what the documented policy asks of the actor: managing policy at the nearest
      enclosing model or controller of a binding, at the model of a legacy change, at the controller
      otherwise; creating on the parent; deleting on the resource. */
  ghost predicate Demands(m: Metadata, op: Op, p: Permission, r: Ref) {
    match op
    case Resync => false
    case CreateBinding(_, input, _) => p == PolicyManage && NearestPolicyScope(m.resources, input.scope, r)
    case DeleteBinding(_, id) => p == PolicyManage && id in m.bindings && NearestPolicyScope(m.resources, m.bindings[id].scope, r)
    case GrantLegacy(_, _, model, _, _) => p == PolicyManage && r == ModelRef(model)
    case RevokeLegacy(_, _, model, _) => p == PolicyManage && r == ModelRef(model)
    case CreateResource(_, typ, _, parent, _) => CreatePermission(typ) == Some(p) && parent == Some(r)
    case DeleteResource(_, ref) => DeletePermission(ref.typ) == Some(p) && r == ref
    case _ => p == PolicyManage && r == CONTROLLER
  }

  ghost predicate NearestPolicyScope(rs: Resources, ref: Ref, scope: Ref) {
    && IsPolicyScope(scope) && AtOrBelow(rs, ref, scope)
    && forall other :: IsPolicyScope(other) && AtOrBelow(rs, ref, other) ==> AtOrBelow(rs, scope, other)
  }

  lemma RequiredMeansGranted(s: System, actor: string, permission: Option<Permission>, r: Ref)
    requires WellFormed(s.meta) && Synchronized(s) && Require(s, actor, permission, r).None?
    ensures permission.Some? && Askable(s.meta, permission.value, r) && Granted(s.meta, actor, permission.value, r)
  {
    assert Check(s, actor, permission, r) == Success(true);
    assert Askable(s.meta, permission.value, r);
    DecisionIsGranted(s, actor, permission.value, r);
  }

  /** A binding whose scope is found is managed at the nearest policy scope above it. */
  lemma ManagedScope(s: System, actor: string, scope: Ref)
    requires WellFormed(s.meta) && Synchronized(s) && ManagementScope(s.meta.resources, scope).Success?
    requires Require(s, actor, MANAGE, ManagementScope(s.meta.resources, scope).value).None?
    ensures var r := ManagementScope(s.meta.resources, scope).value;
            NearestPolicyScope(s.meta.resources, scope, r) && Granted(s.meta, actor, PolicyManage, r)
  {
    var r := ManagementScope(s.meta.resources, scope).value;
    RequiredMeansGranted(s, actor, MANAGE, r);
    hide Require, Granted;
    assert Known(s.meta.resources, scope) by { FoundScopeIsKnown(s.meta.resources, scope); }
    ManagementScopeIsNearest(s.meta.resources, scope);
  }

  lemma FoundScopeIsKnown(rs: Resources, scope: Ref)
    requires Hierarchy(rs) && ManagementScope(rs, scope).Success? && Known(rs, ManagementScope(rs, scope).value)
    ensures Known(rs, scope)
  {
  }

  /** From a synchronized state, an operation that is carried out was granted to its actor, by some
      binding, as the permission the policy demands at the place it demands it. */
  lemma ChangesAreAuthorized(s: System, op: Op)
    requires WellFormed(s.meta) && Synchronized(s) && Plan(s, op).Success? && ActorOf(op).Some?
    ensures exists p, r :: Demands(s.meta, op, p, r) && Granted(s.meta, ActorOf(op).value, p, r)
  {
    hide WellFormed, Synchronized, Granted, Check, Operations.ValidateBinding, ParseAll, BindingsAccept, Clashes, Upsert;
    assert Hierarchy(s.meta.resources) by { WellFormedHierarchy(s.meta); }
    match op
    case Resync =>
    case CreateBinding(actor, input, _) =>
      ManagedScope(s, actor, input.scope);
      var r := ManagementScope(s.meta.resources, input.scope).value;
      Witness(s, op, PolicyManage, r);
    case DeleteBinding(actor, id) =>
      ManagedScope(s, actor, s.meta.bindings[id].scope);
      var r := ManagementScope(s.meta.resources, s.meta.bindings[id].scope).value;
      Witness(s, op, PolicyManage, r);
    case GrantLegacy(actor, _, model, _, _) =>
      RequiredMeansGranted(s, actor, MANAGE, ModelRef(model));
      Witness(s, op, PolicyManage, ModelRef(model));
    case RevokeLegacy(actor, _, model, _) =>
      RequiredMeansGranted(s, actor, MANAGE, ModelRef(model));
      Witness(s, op, PolicyManage, ModelRef(model));
    case CreateResource(actor, typ, name, parent, newId) =>
      NewResourceParent(s, actor, typ, name, parent, newId);
      RequiredMeansGranted(s, actor, CreatePermission(typ), parent.value);
      Witness(s, op, CreatePermission(typ).value, parent.value);
    case DeleteResource(actor, ref) =>
      RequiredMeansGranted(s, actor, DeletePermission(ref.typ), ref);
      Witness(s, op, DeletePermission(ref.typ).value, ref);
    case _ =>
      OtherwiseAtController(s, op);
      RequiredMeansGranted(s, ActorOf(op).value, MANAGE, CONTROLLER);
      Witness(s, op, PolicyManage, CONTROLLER);
  }

  lemma Witness(s: System, op: Op, p: Permission, r: Ref)
    requires ActorOf(op).Some? && Demands(s.meta, op, p, r) && Granted(s.meta, ActorOf(op).value, p, r)
    ensures exists p, r :: Demands(s.meta, op, p, r) && Granted(s.meta, ActorOf(op).value, p, r)
  {
  }

  lemma OtherwiseAtController(s: System, op: Op)
    requires Hierarchy(s.meta.resources) && Plan(s, op).Success? && ActorOf(op).Some?
    requires !op.CreateBinding? && !op.DeleteBinding? && !op.GrantLegacy? && !op.RevokeLegacy? && !op.CreateResource? && !op.DeleteResource?
    ensures Require(s, ActorOf(op).value, MANAGE, CONTROLLER).None?
  {
    hide Check, Hierarchy, ParseAll, BindingsAccept, RoleNameTaken, Slug.SlugOf, Slug.TrimSpace;
  }

  /** A user no binding covers can change nothing. */
  lemma UncoveredUserChangesNothing(s: System, op: Op, fault: Fault)
    requires WellFormed(s.meta) && Synchronized(s) && FreshFor(s.meta, op) && ActorOf(op).Some?
    requires forall id :: id in s.meta.bindings ==> !Covers(s.meta, s.meta.bindings[id], ActorOf(op).value)
    ensures Next(s, Step(op, fault)).after == s && Next(s, Step(op, fault)).error.Some?
  {
    if Plan(s, op).Success? {
      ChangesAreAuthorized(s, op);
    }
    hide Plan, WellFormed, Synchronized, FreshFor, Sync;
  }
}
