/** What each operation does to decisions, from a synchronized state. */
module Decisions {
  import opened Catalog
  import opened AuthModel
  import opened Compiler
  import opened Lists
  import opened Metadata
  import opened ScopeRules
  import opened Encoding
  import opened Operations
  import opened Invariants
  import opened Correctness
  import opened Projection

  /** A question the service answers: a stored resource or the controller, and a permission that
      applies to it. */
  ghost predicate Askable(m: Metadata, p: Permission, r: Ref) {
    Known(m.resources, r) && Supports(p, r.typ)
  }

  ghost predicate Decision(s: System, user: string, p: Permission, r: Ref) {
    Allowed(s.engine, user, RelationOf(p), r)
  }

  /** In a synchronized state the engine decides by the bindings. */
  lemma DecisionIsGranted(s: System, user: string, p: Permission, r: Ref)
    requires WellFormed(s.meta) && Synchronized(s) && Askable(s.meta, p, r)
    ensures Decision(s, user, p, r) <==> Granted(s.meta, user, p, r)
  {
    CompilerCorrect(s.meta, user, p, r);
  }

  /** And so does the check the service offers, on well-formed questions. */
  lemma CheckIsGranted(s: System, user: string, p: Permission, r: Ref)
    requires WellFormed(s.meta) && Synchronized(s) && Askable(s.meta, p, r) && user != "" && r.id != ""
    ensures Check(s, user, Some(p), r) == Success(Granted(s.meta, user, p, r))
  {
    CompilerCorrect(s.meta, user, p, r);
    if r in s.meta.resources {
      ParentRanksHigher(s.meta.resources, r);
    }
  }

  /** The public check in full, by permission name: malformed questions, unknown resources and
      permissions of other types are told apart, and every other question is answered by the bindings. */
  lemma CheckAnswers(s: System, user: string, name: string, r: Ref)
    requires WellFormed(s.meta) && Synchronized(s)
    ensures var malformed := user == "" || r.id == "" || r.typ == Unrecognised || !IsPermissionName(name);
            var answer := Check(s, user, Lookup(name, PERMISSIONS), r);
            && (answer == Failure(Invalid) <==> malformed)
            && (answer == Failure(NotFound) <==> !malformed && !Known(s.meta.resources, r))
            && (!malformed && Known(s.meta.resources, r) ==> exists p: Permission :: PermissionName(p) == name)
            && (forall p: Permission :: PermissionName(p) == name && !malformed && Known(s.meta.resources, r) ==>
                  answer == if Supports(p, r.typ) then Success(Granted(s.meta, user, p, r)) else Failure(Unsupported))
  {
    hide PermissionName, Lookup, Synchronized, Allowed, Granted, References, Selectors, Legacy, CleanIds, Supports;
    if r in s.meta.resources {
      ParentRanksHigher(s.meta.resources, r);
    }
    if IsPermissionName(name) {
      var p: Permission :| PermissionName(p) == name;
      LookupIsInverse(name, p);
      if user != "" && r.id != "" && Askable(s.meta, p, r) {
        CheckIsGranted(s, user, p, r);
      }
    } else if Lookup(name, PERMISSIONS).Some? {
      LookupIsInverse(name, Lookup(name, PERMISSIONS).value);
    }
    forall p: Permission | PermissionName(p) == name ensures Lookup(name, PERMISSIONS) == Some(p) {
      LookupIsInverse(name, p);
    }
  }

  /** A successful operation that synchronizes ends synchronized with the planned metadata. */
  lemma SuccessSynchronizes(s: System, op: Op, fault: Fault)
    requires WellFormed(s.meta) && FreshFor(s.meta, op) && Synchronized(s) && !SkipsSync(op)
    requires Next(s, Step(op, fault)).error.None?
    ensures Plan(s, op).Success?
    ensures var after := Next(s, Step(op, fault)).after;
            after.meta == Plan(s, op).value && WellFormed(after.meta) && Synchronized(after)
  {
    WriteReachesDesiredIff(s.engine, s.synced, Desired(Plan(s, op).value));
    hide WellFormed, Desired, Plan, FreshFor, AllCompile, Recordable, EngineAfter;
  }

  /** After a successful synchronizing operation the engine decides by the planned bindings. */
  lemma SuccessDecides(s: System, op: Op, fault: Fault, user: string, p: Permission, r: Ref)
    requires WellFormed(s.meta) && FreshFor(s.meta, op) && Synchronized(s) && !SkipsSync(op)
    requires Next(s, Step(op, fault)).error.None?
    ensures Plan(s, op).Success?
    ensures Askable(Plan(s, op).value, p, r) ==>
              (Decision(Next(s, Step(op, fault)).after, user, p, r) <==> Granted(Plan(s, op).value, user, p, r))
  {
    SuccessSynchronizes(s, op, fault);
    if Askable(Plan(s, op).value, p, r) {
      DecisionIsGranted(Next(s, Step(op, fault)).after, user, p, r);
    }
  }

  // ---------------------------------------------------------------- bindings do not interfere

  /** Some binding other than `id` gives the decision. */
  ghost predicate GrantedByOther(m: Metadata, id: string, user: string, p: Permission, r: Ref) {
    exists other :: other in m.bindings && other != id && Grants(m, m.bindings[other], user, p, r)
  }

  /** A grant depends on the forest, the memberships and the binding's role only. */
  lemma SameGrants(m: Metadata, m': Metadata, b: Binding, user: string, p: Permission, r: Ref)
    requires m'.resources == m.resources && m'.members == m.members && m'.roles == m.roles
    ensures Grants(m', b, user, p, r) <==> Grants(m, b, user, p, r)
  {
  }

  lemma GrantedSplits(m: Metadata, id: string, user: string, p: Permission, r: Ref)
    requires id in m.bindings
    ensures Granted(m, user, p, r) <==> GrantedByOther(m, id, user, p, r) || Grants(m, m.bindings[id], user, p, r)
  {
  }

  lemma GrantedWithout(m: Metadata, id: string, user: string, p: Permission, r: Ref)
    ensures Granted(m.(bindings := m.bindings - {id}), user, p, r) <==> GrantedByOther(m, id, user, p, r)
  {
    var m' := m.(bindings := m.bindings - {id});
    forall b: Binding ensures Grants(m', b, user, p, r) <==> Grants(m, b, user, p, r) {
      SameGrants(m, m', b, user, p, r);
    }
    hide Grants;
    if GrantedByOther(m, id, user, p, r) {
      var other :| other in m.bindings && other != id && Grants(m, m.bindings[other], user, p, r);
      assert other in m'.bindings && m'.bindings[other] == m.bindings[other];
    }
  }

  lemma GrantedStoring(m: Metadata, id: string, b: Binding, user: string, p: Permission, r: Ref)
    ensures Granted(m.(bindings := m.bindings[id := b]), user, p, r) <==> GrantedByOther(m, id, user, p, r) || Grants(m, b, user, p, r)
  {
    var m' := m.(bindings := m.bindings[id := b]);
    hide Grants;
    if Granted(m', user, p, r) {
      var other :| other in m'.bindings && Grants(m', m'.bindings[other], user, p, r);
      SameGrants(m, m', m'.bindings[other], user, p, r);
    }
    if GrantedByOther(m, id, user, p, r) {
      var other :| other in m.bindings && other != id && Grants(m, m.bindings[other], user, p, r);
      SameGrants(m, m', m.bindings[other], user, p, r);
      assert other in m'.bindings && m'.bindings[other] == m.bindings[other];
    }
    if Grants(m, b, user, p, r) {
      SameGrants(m, m', b, user, p, r);
      assert id in m'.bindings && m'.bindings[id] == b;
    }
  }

  /** Deleting a binding removes exactly the decisions no other binding supplies. */
  lemma DeleteBindingRemovesOnlyItsOwn(s: System, actor: string, id: string, fault: Fault, user: string, p: Permission, r: Ref)
    requires WellFormed(s.meta) && Synchronized(s) && Askable(s.meta, p, r)
    requires Next(s, Step(DeleteBinding(actor, id), fault)).error.None?
    ensures Decision(Next(s, Step(DeleteBinding(actor, id), fault)).after, user, p, r) <==> GrantedByOther(s.meta, id, user, p, r)
  {
    SuccessDecides(s, DeleteBinding(actor, id), fault, user, p, r);
    hide Next, WellFormed, Synchronized, Granted, Grants, Decision, Require, ManagementScope;
    GrantedWithout(s.meta, id, user, p, r);
  }

  /** Creating a binding adds exactly the decisions the new binding gives. */
  lemma CreateBindingAddsOnlyItsOwn(s: System, actor: string, input: BindingInput, newId: string, fault: Fault, user: string, p: Permission, r: Ref)
    requires WellFormed(s.meta) && Synchronized(s) && Askable(s.meta, p, r) && FreshId(s.meta, newId)
    requires Next(s, Step(CreateBinding(actor, input, newId), fault)).error.None?
    ensures Decision(Next(s, Step(CreateBinding(actor, input, newId), fault)).after, user, p, r) <==>
            Decision(s, user, p, r) || Grants(s.meta, NewBinding(input, newId), user, p, r)
  {
    SuccessDecides(s, CreateBinding(actor, input, newId), fault, user, p, r);
    DecisionIsGranted(s, user, p, r);
    CreatedBinding(s, actor, input, newId);
    hide Next, WellFormed, Synchronized, Granted, Grants, Decision, PlanCreateBinding, GrantedByOther, FreshId;
    GrantedStoring(s.meta, newId, NewBinding(input, newId), user, p, r);
    NotStoredYet(s.meta, newId, user, p, r);
  }

  lemma CreatedBinding(s: System, actor: string, input: BindingInput, newId: string)
    requires Hierarchy(s.meta.resources) && PlanCreateBinding(s, actor, input, newId).Success?
    ensures PlanCreateBinding(s, actor, input, newId).value == s.meta.(bindings := s.meta.bindings[newId := NewBinding(input, newId)])
  {
  }

  lemma NotStoredYet(m: Metadata, newId: string, user: string, p: Permission, r: Ref)
    requires FreshId(m, newId)
    ensures GrantedByOther(m, newId, user, p, r) <==> Granted(m, user, p, r)
  {
  }

  // ---------------------------------------------------------------- exact selectors are confined

  /** A permission applies to a resource and to a proper ancestor only for policy permissions on a
      model under the controller, and for creating machines in an application of a model. */
  lemma SupportedAboveAndBelow(p: Permission, below: ResourceType, above: ResourceType)
    requires Supports(p, below) && Supports(p, above) && Rank(above) < Rank(below)
    ensures above == Controller || (p == MachineCreate && above == Model && below == Application)
  {
  }

  /** A validated exact binding gives a permission only on a selected resource, or, for creating
      machines, on an application whose model is selected. */
  lemma ExactIsConfined(m: Metadata, id: string, user: string, p: Permission, r: Ref)
    requires WellFormed(m) && id in m.bindings && m.bindings[id].selector.match_ == Exact
    requires Askable(m, p, r) && Grants(m, m.bindings[id], user, p, r)
    ensures m.bindings[id].selector.resources.Some?
    ensures var listed := m.bindings[id].selector.resources.value;
            || r in listed
            || (p == MachineCreate && r.typ == Application && r in m.resources && m.resources[r].parent.value in listed)
  {
    var b := m.bindings[id];
    assert SelectorValid(b);
    var t :| t in b.selector.resources.value && Supports(p, t.typ) && AtOrBelow(m.resources, r, t);
    if r != t {
      AtOrBelowRanks(m.resources, r, t);
      SupportedAboveAndBelow(p, r.typ, t.typ);
      AtOrBelowRanks(m.resources, m.resources[r].parent.value, t);
      ParentRanksHigher(m.resources, r);
    }
  }

  // ---------------------------------------------------------------- revoking never adds access

  /** Reader permissions are writer permissions, and those are administrator permissions; each of
      the three roles reads the model and compiles on a model scope. */
  lemma LegacyRolesNest()
    ensures ReaderPermissions() < WriterPermissions() < AdminPermissions()
    ensures ModelRead in ReaderPermissions()
    ensures forall p :: p in AdminPermissions() ==> RelationAtScope(p, Model, Scope).Some?
  {
  }

  function LegacyPermissions(access: Access): set<Permission> {
    match access
    case ReadAccess => ReaderPermissions()
    case WriteAccess => WriterPermissions()
    case AdminAccess => AdminPermissions()
    case InvalidAccess => {}
  }

  lemma LegacyRoleGives(m: Metadata, access: Access)
    requires LegacyRoles(m) && access != InvalidAccess
    ensures CompatibilityRole(access) in m.roles
    ensures m.roles[CompatibilityRole(access)].permissions == LegacyPermissions(access)
  {
  }

  /** The effect of a revocation on the bindings: the compatibility binding loses a level or goes. */
  lemma RevokedBindings(s: System, actor: string, user: string, model: string, access: Access)
    requires WellFormed(s.meta) && PlanRevokeLegacy(s, actor, user, model, access).Success?
    ensures HasCompatibility(s.meta, user, model) && access != InvalidAccess
    ensures var id := CompatibilityId(s.meta, user, model);
            var b, m' := s.meta.bindings[id], PlanRevokeLegacy(s, actor, user, model, access).value;
            && b.roleId == CompatibilityRole(access)
            && b.scope == ModelRef(model) && b.selector == Selector(Scope, None)
            && m'.bindings == (match NextAccess(access)
                               case None => s.meta.bindings - {id}
                               case Some(next) => s.meta.bindings[id := b.(roleId := CompatibilityRole(next))])
            && m' == s.meta.(bindings := m'.bindings)
  {
  }

  /** A binding with a lower role of the same targets gives less. */
  lemma LowerRoleGrantsLess(m: Metadata, b: Binding, role: string, who: string, p: Permission, r: Ref)
    requires PermissionsOf(m, b.(roleId := role)) <= PermissionsOf(m, b)
    ensures Grants(m, b.(roleId := role), who, p, r) ==> Grants(m, b, who, p, r)
  {
  }

  lemma ModelBindingReaches(m: Metadata, b: Binding, user: string, model: string, who: string, p: Permission, r: Ref)
    requires b.subject == UserPrincipal(user) && b.scope == ModelRef(model) && b.selector.match_ == Scope && Grants(m, b, who, p, r)
    ensures who == user && AtOrBelow(m.resources, r, ModelRef(model))
  {
  }

  lemma RevokedGrantsLess(s: System, actor: string, user: string, model: string, access: Access, who: string, p: Permission, r: Ref)
    requires WellFormed(s.meta) && PlanRevokeLegacy(s, actor, user, model, access).Success?
    ensures var m' := PlanRevokeLegacy(s, actor, user, model, access).value;
            && (Granted(m', who, p, r) ==> Granted(s.meta, who, p, r))
            && (Granted(s.meta, who, p, r) && !Granted(m', who, p, r) ==> who == user && AtOrBelow(s.meta.resources, r, ModelRef(model)))
  {
    RevokedBindings(s, actor, user, model, access);
    var m, m', id := s.meta, PlanRevokeLegacy(s, actor, user, model, access).value, CompatibilityId(s.meta, user, model);
    var b := m.bindings[id];
    LegacyRoleGives(m, access);
    LegacyRolesNest();
    GrantedSplits(m, id, who, p, r);
    if Grants(m, b, who, p, r) {
      ModelBindingReaches(m, b, user, model, who, p, r);
    }
    match NextAccess(access) {
      case None => GrantedWithout(m, id, who, p, r);
      case Some(next) =>
        LegacyRoleGives(m, next);
        GrantedStoring(m, id, b.(roleId := CompatibilityRole(next)), who, p, r);
        LowerRoleGrantsLess(m, b, CompatibilityRole(next), who, p, r);
    }
  }

  /** A successful revocation turns no denial into a permission for anyone, and the only decisions
      it changes are the user's, at or below the model. */
  lemma RevokeNeverAdds(s: System, actor: string, user: string, model: string, access: Access, fault: Fault, who: string, p: Permission, r: Ref)
    requires WellFormed(s.meta) && Synchronized(s) && Askable(s.meta, p, r)
    requires Next(s, Step(RevokeLegacy(actor, user, model, access), fault)).error.None?
    ensures var after := Next(s, Step(RevokeLegacy(actor, user, model, access), fault)).after;
            && (Decision(after, who, p, r) ==> Decision(s, who, p, r))
            && (Decision(after, who, p, r) != Decision(s, who, p, r) ==> who == user && AtOrBelow(s.meta.resources, r, ModelRef(model)))
  {
    SuccessDecides(s, RevokeLegacy(actor, user, model, access), fault, who, p, r);
    RevokedBindings(s, actor, user, model, access);
    RevokedGrantsLess(s, actor, user, model, access, who, p, r);
    DecisionIsGranted(s, who, p, r);
    hide Next, WellFormed, Synchronized, Granted, Decision, PlanRevokeLegacy, CompatibilityId;
  }

  lemma RevokedStillReads(s: System, actor: string, user: string, model: string, access: Access)
    requires WellFormed(s.meta) && PlanRevokeLegacy(s, actor, user, model, access).Success? && access != ReadAccess
    ensures ModelRef(model) in s.meta.resources
    ensures Granted(PlanRevokeLegacy(s, actor, user, model, access).value, user, ModelRead, ModelRef(model))
  {
    RevokedBindings(s, actor, user, model, access);
    var m, id := s.meta, CompatibilityId(s.meta, user, model);
    var next := NextAccess(access).value;
    var b := m.bindings[id].(roleId := CompatibilityRole(next));
    LegacyRoleGives(m, next);
    LegacyRolesNest();
    assert AtOrBelow(m.resources, ModelRef(model), ModelRef(model));
    assert Grants(m, b, user, ModelRead, ModelRef(model));
    GrantedStoring(m, id, b, user, ModelRead, ModelRef(model));
  }

  /** After revoking administrator or write access the user can still read the model. */
  lemma StillAuthorizedBelowAdmin(s: System, actor: string, user: string, model: string, access: Access, fault: Fault)
    requires WellFormed(s.meta) && Synchronized(s) && access != ReadAccess
    requires Next(s, Step(RevokeLegacy(actor, user, model, access), fault)).error.None?
    ensures Decision(Next(s, Step(RevokeLegacy(actor, user, model, access), fault)).after, user, ModelRead, ModelRef(model))
  {
    SuccessDecides(s, RevokeLegacy(actor, user, model, access), fault, user, ModelRead, ModelRef(model));
    RevokedStillReads(s, actor, user, model, access);
    RevokedBindings(s, actor, user, model, access);
    hide Next, WellFormed, Synchronized, Granted, Decision, PlanRevokeLegacy, CompatibilityId;
  }

  // ---------------------------------------------------------------- role updates

  lemma UpdatedRole(s: System, actor: string, role: string, expected: int, description: string, permissions: seq<string>)
    requires PlanUpdateRole(s, actor, role, expected, description, permissions).Success?
    ensures role in s.meta.roles && NamesPermissions(permissions)
    ensures var m, m' := s.meta, PlanUpdateRole(s, actor, role, expected, description, permissions).value;
            && m'.roles.Keys == m.roles.Keys && (forall id :: id in m.roles && id != role ==> m'.roles[id] == m.roles[id])
            && (forall p :: p in m'.roles[role].permissions <==> PermissionName(p) in permissions)
            && (forall id :: id in m.bindings && m.bindings[id].roleId == role ==> Compiles(m.bindings[id], m'.roles[role].permissions))
            && m'.bindings == m.bindings && m'.resources == m.resources && m'.members == m.members
  {
    ParseAllReadsNames(permissions);
    hide ParseAll, PermissionName, NamesPermissions, Check, Compiles;
  }

  /** A successful role update changes no decision on a permission it neither adds nor removes. */
  lemma UpdateRoleChangesOnlyItsDifference(s: System, actor: string, role: string, expected: int, description: string, permissions: seq<string>,
                                           fault: Fault, user: string, p: Permission, r: Ref)
    requires WellFormed(s.meta) && Synchronized(s) && Askable(s.meta, p, r)
    requires Next(s, Step(UpdateRole(actor, role, expected, description, permissions), fault)).error.None?
    requires role in s.meta.roles && (p in s.meta.roles[role].permissions <==> PermissionName(p) in permissions)
    ensures Decision(Next(s, Step(UpdateRole(actor, role, expected, description, permissions), fault)).after, user, p, r) <==> Decision(s, user, p, r)
  {
    SuccessDecides(s, UpdateRole(actor, role, expected, description, permissions), fault, user, p, r);
    DecisionIsGranted(s, user, p, r);
    UpdatedRoleKeepsOthers(s, actor, role, expected, description, permissions, p);
    hide Next, WellFormed, Synchronized, Decision, PlanUpdateRole, ParseAll, Granted, PermissionsOf;
    GrantedAlike(s.meta, PlanUpdateRole(s, actor, role, expected, description, permissions).value, user, p, r);
  }

  lemma UpdatedRoleKeepsOthers(s: System, actor: string, role: string, expected: int, description: string, permissions: seq<string>, p: Permission)
    requires References(s.meta) && PlanUpdateRole(s, actor, role, expected, description, permissions).Success?
    requires role in s.meta.roles && (p in s.meta.roles[role].permissions <==> PermissionName(p) in permissions)
    ensures var m, m' := s.meta, PlanUpdateRole(s, actor, role, expected, description, permissions).value;
            && m'.bindings == m.bindings && m'.resources == m.resources && m'.members == m.members
            && forall id :: id in m.bindings ==> (p in PermissionsOf(m', m.bindings[id]) <==> p in PermissionsOf(m, m.bindings[id]))
  {
    UpdatedRole(s, actor, role, expected, description, permissions);
    hide PlanUpdateRole, Compiles, PermissionName, NamesPermissions;
  }

  /** If `p` is in the same bindings' roles before and after, it is granted alike. */
  lemma GrantedAlike(m: Metadata, m': Metadata, user: string, p: Permission, r: Ref)
    requires m'.bindings == m.bindings && m'.resources == m.resources && m'.members == m.members
    requires forall id :: id in m.bindings ==> (p in PermissionsOf(m', m.bindings[id]) <==> p in PermissionsOf(m, m.bindings[id]))
    ensures Granted(m', user, p, r) <==> Granted(m, user, p, r)
  {
  }

  // ---------------------------------------------------------------- compilability

  lemma LegacyBindingCompiles(m: Metadata, b: Binding, access: Access)
    requires LegacyRoles(m) && access != InvalidAccess
    requires b.roleId == CompatibilityRole(access) && b.selector == Selector(Scope, None) && b.scope.typ == Model
    ensures BindingCompiles(m, b)
  {
  }

  lemma UpsertCompiles(m: Metadata, user: string, model: string, access: Access, newId: string)
    requires WellFormed(m) && AllCompile(m) && access != InvalidAccess
    ensures AllCompile(Upsert(m, user, model, CompatibilityRole(access), newId))
  {
    var id := if HasCompatibility(m, user, model) then CompatibilityId(m, user, model) else newId;
    var m' := Upsert(m, user, model, CompatibilityRole(access), newId);
    if HasCompatibility(m, user, model) {
      assert LegacyShape(m.bindings[id]);
    }
    LegacyBindingCompiles(m, m'.bindings[id], access);
    assert m'.roles == m.roles;
    hide Compiles, LegacyShape, CompatibilityId;
    assert forall other :: other in m'.bindings && other != id ==> other in m.bindings && m'.bindings[other] == m.bindings[other];
  }
}
