/** The service: every operation over the mutable stores, each proved to do what its plan and the
    synchronization that follows say. */
module Service {
  import opened Catalog
  import opened AuthModel
  import opened Compiler
  import opened Lists
  import opened Metadata
  import opened ScopeRules
  import opened Encoding
  import opened Diff
  import opened Operations
  import opened Invariants
  import opened Synchronizer
  import KeyedDiff
  import Slug
  import Store

  /** What a role update would change. */
  datatype Preview = Preview(role: string, revision: int, added: seq<Permission>, removed: seq<Permission>, affected: nat)

  /** The stored bindings of a role. */
  function BindingsOf(m: Metadata, role: string): (ids: set<string>)
    ensures forall id :: id in ids <==> id in m.bindings && m.bindings[id].roleId == role
  {
    set id | id in m.bindings && m.bindings[id].roleId == role
  }

  class Service {
    const store: Store.Store
    const engine: Store.Engine

    constructor (store: Store.Store, engine: Store.Engine)
      ensures this.store == store && this.engine == engine
    {
      this.store, this.engine := store, engine;
    }

    ghost function Sys(): System
      reads store, engine
    {
      System(store.Meta(), store.Synced(), engine.tuples)
    }

    ghost predicate Valid()
      reads store, engine
    {
      SystemOk(Sys())
    }

    // -------------------------------------------------------------- synchronization

    method Sync(fault: Fault) returns (error: Option<Error>)
      requires Valid()
      modifies store`synced, engine
      ensures Valid()
      ensures Outcome(Sys(), error) == Operations.Sync(old(Sys()), fault)
    {
      hide SystemOk, AllClean, WellTyped, KeyedById, AllCompile, Recordable, Distinct, Desired, Elements, EngineAfter;
      ReadyToSync(Sys(), fault);
      var desired := DesiredTuples(store.Meta());
      if desired.None? {
        return Some(SyncFailed);
      }
      error := ReplaceTuples(desired.value, fault);
    }

    /** Diff against the remembered projection, write the engine, then remember the desired tuples. */
    method ReplaceTuples(desired: seq<Tuple>, fault: Fault) returns (error: Option<Error>)
      requires AllClean(Elements(desired)) && AllClean(store.Synced())
      requires forall t :: t in Elements(desired) ==> WellTyped(t)
      modifies store`synced, engine
      ensures var target := Elements(desired);
              if fault == WriteFails && old(store.Synced()) != target then
                error.Some? && error.value == SyncFailed && store.Synced() == old(store.Synced()) && engine.tuples == old(engine.tuples)
              else
                && engine.tuples == EngineAfter(old(engine.tuples), old(store.Synced()), target)
                && error == (if fault == RecordFails || !Distinct(desired) then Some(SyncFailed) else None)
                && store.Synced() == (if error.None? then target else old(store.Synced()))
    {
      hide AllClean, WellTyped, CleanTuple;
      var current := store.ListSyncedTuples();
      var writes, deletes := TupleDiff(current, desired);
      DiffReachesDesired(current, desired, writes, deletes);
      ElementsOfEmpty(writes);
      ElementsOfEmpty(deletes);
      assert forall t :: t in writes ==> t in Elements(writes);
      hide KeyedDiff.KeyDifference, Distinct;
      var written := engine.Write(writes, deletes, fault == WriteFails);
      if !written {
        return Some(SyncFailed);
      }
      var recorded := store.ReplaceSyncedTuples(desired, fault == RecordFails);
      if !recorded {
        return Some(SyncFailed);
      }
      error := None;
    }

    // -------------------------------------------------------------- decisions

    method CheckPermission(principal: string, permission: Option<Permission>, resource: Ref) returns (allowed: Result<bool, Error>)
      ensures allowed == Operations.Check(Sys(), principal, permission, resource)
    {
      hide Allowed;
      if principal == "" {
        return Failure(Invalid);
      }
      if resource.typ == Unrecognised || resource.id == "" {
        return Failure(Invalid);
      }
      if permission.None? {
        return Failure(Invalid);
      }
      if resource.typ != Controller {
        if resource !in store.resources {
          return Failure(NotFound);
        }
      } else if resource.id != CONTROLLER_ID {
        return Failure(NotFound);
      }
      allowed := engine.Check(principal, permission.value, resource);
    }

    /** The public check, by permission name. */
    method Check(principal: string, permission: string, resource: Ref) returns (allowed: Result<bool, Error>)
      ensures allowed == Operations.Check(Sys(), principal, Lookup(permission, PERMISSIONS), resource)
    {
      allowed := CheckPermission(principal, Lookup(permission, PERMISSIONS), resource);
    }

    method Require(actor: string, permission: Option<Permission>, resource: Ref) returns (error: Option<Error>)
      ensures error == Operations.Require(Sys(), actor, permission, resource)
    {
      var allowed := CheckPermission(actor, permission, resource);
      match allowed {
        case Failure(e) => return Some(e);
        case Success(yes) => return if yes then None else Some(Forbidden);
      }
    }

    // -------------------------------------------------------------- users, groups, memberships

    method CreateUser(actor: string, name: string) returns (error: Option<Error>)
      requires Valid()
      modifies store
      ensures Valid() && Ran(old(Sys()), Op.CreateUser(actor, name), NoFault, Sys(), error)
    {
      ghost var s, op := Sys(), Op.CreateUser(actor, name);
      hide WellFormed, AllClean, Operations.Check, Slug.TrimSpace, Slug.SlugOf, Ran;
      error := Require(actor, MANAGE, CONTROLLER);
      if error.Some? {
        Refused(s, op, NoFault, error.value);
        return;
      }
      var trimmed := Slug.TrimSpace(name);
      if trimmed == "" {
        Refused(s, op, NoFault, Rejected);
        return Some(Rejected);
      }
      var id := Slug.Slug(trimmed);
      if id in store.users || trimmed in store.users.Values {
        Refused(s, op, NoFault, Conflict);
        return Some(Conflict);
      }
      store.users := store.users[id := trimmed];
      Planned(s, op, store.Meta());
      RanWithoutSync(s, op, NoFault, store.Meta());
      error := None;
    }

    method CreateGroup(actor: string, name: string) returns (error: Option<Error>)
      requires Valid()
      modifies store
      ensures Valid() && Ran(old(Sys()), Op.CreateGroup(actor, name), NoFault, Sys(), error)
    {
      ghost var s, op := Sys(), Op.CreateGroup(actor, name);
      hide WellFormed, AllClean, Operations.Check, Slug.TrimSpace, Slug.SlugOf, Ran;
      error := Require(actor, MANAGE, CONTROLLER);
      if error.Some? {
        Refused(s, op, NoFault, error.value);
        return;
      }
      var trimmed := Slug.TrimSpace(name);
      if trimmed == "" {
        Refused(s, op, NoFault, Rejected);
        return Some(Rejected);
      }
      var id := Slug.Slug(trimmed);
      if id in store.groups || trimmed in store.groups.Values {
        Refused(s, op, NoFault, Conflict);
        return Some(Conflict);
      }
      store.groups := store.groups[id := trimmed];
      Planned(s, op, store.Meta());
      RanWithoutSync(s, op, NoFault, store.Meta());
      error := None;
    }

    method AddGroupMember(actor: string, group: string, user: string, fault: Fault) returns (error: Option<Error>)
      requires Valid()
      modifies store, engine
      ensures Valid() && Ran(old(Sys()), Op.AddGroupMember(actor, group, user), fault, Sys(), error)
    {
      ghost var s, op := Sys(), Op.AddGroupMember(actor, group, user);
      hide WellFormed, AllClean, Operations.Check, Ran, Operations.Sync;
      error := Require(actor, MANAGE, CONTROLLER);
      if error.Some? {
        Refused(s, op, fault, error.value);
        return;
      }
      if group !in store.groups || user !in store.users {
        Refused(s, op, fault, NotFound);
        return Some(NotFound);
      }
      store.members := store.members + {(group, user)};
      ghost var m := store.Meta();
      Planned(s, op, m);
      error := Sync(fault);
      RanThroughSync(s, op, fault, m, Outcome(Sys(), error));
    }

    method RemoveGroupMember(actor: string, group: string, user: string, fault: Fault) returns (error: Option<Error>)
      requires Valid()
      modifies store, engine
      ensures Valid() && Ran(old(Sys()), Op.RemoveGroupMember(actor, group, user), fault, Sys(), error)
    {
      ghost var s, op := Sys(), Op.RemoveGroupMember(actor, group, user);
      hide WellFormed, AllClean, Operations.Check, Ran, Operations.Sync;
      error := Require(actor, MANAGE, CONTROLLER);
      if error.Some? {
        Refused(s, op, fault, error.value);
        return;
      }
      if (group, user) !in store.members {
        Refused(s, op, fault, NotFound);
        return Some(NotFound);
      }
      store.members := store.members - {(group, user)};
      ghost var m := store.Meta();
      Planned(s, op, m);
      error := Sync(fault);
      RanThroughSync(s, op, fault, m, Outcome(Sys(), error));
    }

    // -------------------------------------------------------------- roles

    /** The named permissions, or nothing when there are none or one is unknown. */
    method ValidatePermissions(names: seq<string>) returns (permissions: Option<seq<Permission>>)
      ensures permissions == ParseAll(names)
      ensures permissions.Some? <==> NamesPermissions(names)
      ensures permissions.Some? ==>
                |permissions.value| == |names| && forall i :: 0 <= i < |names| ==> PermissionName(permissions.value[i]) == names[i]
    {
      ParseAllReadsNames(names);
      if |names| == 0 {
        return None;
      }
      var parsed: seq<Permission> := [];
      hide Lookup, PermissionName, NamesPermissions;
      for i := 0 to |names|
        invariant i == 0 ==> parsed == []
        invariant i > 0 ==> ParseAll(names[..i]) == Some(parsed)
      {
        assert names[..i + 1][..i] == names[..i];
        var p := Lookup(names[i], PERMISSIONS);
        if p.None? {
          UnknownNameFails(names, i + 1);
          return None;
        }
        assert i == 0 ==> parsed + [p.value] == [p.value];
        parsed := parsed + [p.value];
      }
      assert names[..|names|] == names;
      permissions := Some(parsed);
    }

    method CreateRole(actor: string, name: string, description: string, permissions: seq<string>) returns (error: Option<Error>)
      requires Valid()
      modifies store
      ensures Valid() && Ran(old(Sys()), Op.CreateRole(actor, name, description, permissions), NoFault, Sys(), error)
    {
      ghost var s, op := Sys(), Op.CreateRole(actor, name, description, permissions);
      hide WellFormed, AllClean, Operations.Check, Slug.SlugOf, Ran, ParseAll;
      error := Require(actor, MANAGE, CONTROLLER);
      var parsed := ValidatePermissions(permissions);
      if error.Some? {
        Refused(s, op, NoFault, error.value);
        return;
      }
      if parsed.None? {
        Refused(s, op, NoFault, Invalid);
        return Some(Invalid);
      }
      var id := Slug.Slug(name);
      if id == "" {
        Refused(s, op, NoFault, Rejected);
        return Some(Rejected);
      }
      if id in store.roles || RoleNameTaken(store.Meta(), name) {
        Refused(s, op, NoFault, Conflict);
        return Some(Conflict);
      }
      var stored := Unique(parsed.value);
      store.roles := store.roles[id := Role(name, description, Elements(stored), 1, false)];
      Planned(s, op, store.Meta());
      RanWithoutSync(s, op, NoFault, store.Meta());
      error := None;
    }

    /** Accepts exactly what the update accepts. The reported lists, in name order, turn the stored
        permissions into the proposed ones, and the count is of the bindings that would recompile. */
    method PreviewRoleUpdate(actor: string, role: string, expected: int, permissions: seq<string>) returns (preview: Result<Preview, Error>)
      ensures preview.Success? <==> PreviewAccepts(Sys(), actor, role, expected, permissions).Success?
      ensures preview.Failure? ==> PreviewAccepts(Sys(), actor, role, expected, permissions) == Failure(preview.error)
      ensures preview.Success? ==>
                var stored := store.Meta().roles[role].permissions;
                && Sorted(preview.value.added) && Sorted(preview.value.removed)
                && (stored - Elements(preview.value.removed)) + Elements(preview.value.added) == NamedIn(permissions)
                && Elements(preview.value.added) !! stored && Elements(preview.value.removed) <= stored
                && preview.value.role == role && preview.value.revision == expected
                && preview.value.affected == |BindingsOf(store.Meta(), role)|
    {
      ParseAllReadsNames(permissions);
      hide Operations.Check, ParseAll, Compiles, Sorted, NamesPermissions, NamedIn, PermissionName;
      var denied := Require(actor, MANAGE, CONTROLLER);
      var parsed := ValidatePermissions(permissions);
      if denied.Some? {
        return Failure(denied.value);
      }
      if parsed.None? {
        return Failure(Invalid);
      }
      if role !in store.roles {
        return Failure(NotFound);
      }
      var current := store.roles[role];
      if current.builtIn {
        return Failure(Invalid);
      }
      if current.revision != expected {
        return Failure(Conflict);
      }
      var count := |BindingsOf(store.Meta(), role)|;
      var listed := SortedList(current.permissions);
      var added, removed := DiffPermissions(listed, parsed.value);
      var accepted := RecompileBindings(role, parsed.value);
      if !accepted {
        return Failure(Invalid);
      }
      preview := Success(Preview(role, current.revision, added, removed, count));
    }

    /** Compile every binding of the role under the proposed permissions. */
    method RecompileBindings(role: string, permissions: seq<Permission>) returns (accepted: bool)
      ensures accepted == BindingsAccept(store.Meta(), role, Elements(permissions))
    {
      var pending := store.bindings.Keys;
      hide Compiles, TupleList, Emitted;
      while pending != {}
        invariant pending <= store.bindings.Keys
        invariant forall id :: id in store.bindings.Keys - pending && store.bindings[id].roleId == role ==> Compiles(store.bindings[id], Elements(permissions))
      {
        var id :| id in pending;
        pending := pending - {id};
        if store.bindings[id].roleId != role {
          continue;
        }
        var compiled := PermissionTuples(store.bindings[id], permissions);
        TupleListContents(store.bindings[id], permissions);
        if compiled.None? {
          return false;
        }
      }
      accepted := true;
    }

    method UpdateRole(actor: string, role: string, expected: int, description: string, permissions: seq<string>, fault: Fault) returns (error: Option<Error>)
      requires Valid()
      modifies store, engine
      ensures Valid() && Ran(old(Sys()), Op.UpdateRole(actor, role, expected, description, permissions), fault, Sys(), error)
    {
      ghost var s, op := Sys(), Op.UpdateRole(actor, role, expected, description, permissions);
      hide WellFormed, AllClean, PreviewAccepts, Ran, Operations.Sync, Sorted, NamesPermissions, NamedIn, PermissionName, BindingsOf;
      var preview := PreviewRoleUpdate(actor, role, expected, permissions);
      if preview.Failure? {
        Refused(s, op, fault, preview.error);
        return Some(preview.error);
      }
      var parsed := ValidatePermissions(permissions);
      assert PreviewAccepts(s, actor, role, expected, permissions).value == parsed.value
             && role in s.meta.roles && s.meta.roles[role].revision == expected by { PreviewParses(s, actor, role, expected, permissions); }
      hide ParseAll;
      var current := store.roles[role];
      var stored := Unique(parsed.value);
      store.roles := store.roles[role := current.(description := description, permissions := Elements(stored), revision := current.revision + 1)];
      store.audit := store.audit + [AuditEntry(actor, role, current.permissions, Elements(parsed.value), expected + 1)];
      ghost var m := store.Meta();
      Planned(s, op, m);
      error := Sync(fault);
      RanThroughSync(s, op, fault, m, Outcome(Sys(), error));
    }

    // -------------------------------------------------------------- bindings

    /** The exact targets in order: each stored, each within the scope. */
    method CheckTargets(targets: seq<Ref>, scope: Ref) returns (error: Option<Error>)
      requires Hierarchy(store.resources)
      ensures error == TargetsError(store.resources, targets, scope)
    {
      hide Hierarchy, WithinScope;
      for i := 0 to |targets|
        invariant TargetsError(store.resources, targets[..i], scope).None?
      {
        assert targets[..i + 1][..i] == targets[..i];
        error := None;
        if targets[i] !in store.resources {
          error := Some(NotFound);
        } else {
          var within := IsWithinScope(store.resources, targets[i], scope);
          match within {
            case Failure(e) => error := Some(e);
            case Success(yes) => error := if yes then None else Some(Invalid);
          }
        }
        if error.Some? {
          FirstErrorStands(store.resources, targets, scope, i + 1);
          return;
        }
      }
      assert targets[..|targets|] == targets;
      error := None;
    }

    method ValidateBinding(input: BindingInput) returns (error: Option<Error>)
      requires Hierarchy(store.resources)
      ensures error == Operations.ValidateBinding(store.Meta(), input)
    {
      hide Hierarchy, TargetsError;
      if input.roleId !in store.roles {
        return Some(NotFound);
      }
      match input.subjectType {
        case UserSubject =>
          if input.subjectId !in store.users {
            return Some(NotFound);
          }
        case GroupSubject =>
          if input.subjectId !in store.groups {
            return Some(NotFound);
          }
        case UnrecognisedSubject => return Some(Invalid);
      }
      if input.scope.typ != Controller {
        if input.scope !in store.resources {
          return Some(NotFound);
        }
      }
      if input.selector.match_ == Exact {
        if input.selector.resources.None? || |input.selector.resources.value| == 0 {
          return Some(Invalid);
        }
        error := CheckTargets(input.selector.resources.value, input.scope);
      } else if input.selector.match_ != Scope {
        return Some(Invalid);
      } else if input.selector.resources.Some? {
        return Some(Invalid);
      } else {
        error := None;
      }
    }

    method CreateBinding(actor: string, input: BindingInput, newId: string, fault: Fault) returns (error: Option<Error>)
      requires Valid() && FreshId(store.Meta(), newId)
      modifies store, engine
      ensures Valid() && Ran(old(Sys()), Op.CreateBinding(actor, input, newId), fault, Sys(), error)
    {
      ghost var s, op := Sys(), Op.CreateBinding(actor, input, newId);
      hide SystemOk, WellFormed, AllClean, FreshId, Operations.Require, Operations.ValidateBinding, ManagementScope, Hierarchy, Clashes, Ran, Operations.Sync;
      OkHierarchy(Sys());
      error := ValidateBinding(input);
      if error.Some? {
        Refused(s, op, fault, error.value);
        return;
      }
      var scope := FindManagementScope(store.resources, input.scope);
      if scope.Failure? {
        Refused(s, op, fault, scope.error);
        return Some(scope.error);
      }
      error := Require(actor, MANAGE, scope.value);
      if error.Some? {
        Refused(s, op, fault, error.value);
        return;
      }
      var binding := NewBinding(input, newId);
      if Clashes(store.Meta(), binding) {
        Refused(s, op, fault, Conflict);
        return Some(Conflict);
      }
      store.bindings := store.bindings[newId := binding];
      ghost var m := store.Meta();
      Planned(s, op, m);
      error := Sync(fault);
      RanThroughSync(s, op, fault, m, Outcome(Sys(), error));
    }

    method DeleteBinding(actor: string, id: string, fault: Fault) returns (error: Option<Error>)
      requires Valid()
      modifies store, engine
      ensures Valid() && Ran(old(Sys()), Op.DeleteBinding(actor, id), fault, Sys(), error)
    {
      ghost var s, op := Sys(), Op.DeleteBinding(actor, id);
      hide SystemOk, WellFormed, AllClean, Operations.Require, ManagementScope, Hierarchy, Ran, Operations.Sync;
      OkHierarchy(Sys());
      if id !in store.bindings {
        Refused(s, op, fault, NotFound);
        return Some(NotFound);
      }
      var scope := FindManagementScope(store.resources, store.bindings[id].scope);
      if scope.Failure? {
        Refused(s, op, fault, scope.error);
        return Some(scope.error);
      }
      error := Require(actor, MANAGE, scope.value);
      if error.Some? {
        Refused(s, op, fault, error.value);
        return;
      }
      store.bindings := store.bindings - {id};
      ghost var m := store.Meta();
      Planned(s, op, m);
      error := Sync(fault);
      RanThroughSync(s, op, fault, m, Outcome(Sys(), error));
    }

    // -------------------------------------------------------------- legacy access

    /** One transaction: replace the role of the compatibility binding, or insert one. */
    method UpsertCompatibilityBinding(user: string, role: string, model: string, newId: string)
      requires Valid()
      modifies store`bindings
      ensures store.Meta() == Upsert(old(store.Meta()), user, model, role, newId)
    {
      ghost var m := store.Meta();
      var found := store.FindCompatibility(user, model);
      if found.Some? {
        CompatibilityIsUnique(m, found.value, user, model);
        hide WellFormed, CompatibilityId;
        store.bindings := store.bindings[found.value := store.bindings[found.value].(roleId := role)];
      } else {
        store.bindings := store.bindings[newId := LegacyBinding(newId, user, model, role)];
      }
    }

    method GrantLegacy(actor: string, user: string, model: string, access: Access, newId: string, fault: Fault) returns (error: Option<Error>)
      requires Valid() && FreshId(store.Meta(), newId)
      modifies store, engine
      ensures Valid() && Ran(old(Sys()), Op.GrantLegacy(actor, user, model, access, newId), fault, Sys(), error)
    {
      ghost var s, op := Sys(), Op.GrantLegacy(actor, user, model, access, newId);
      hide SystemOk, WellFormed, AllClean, FreshId, Operations.Require, Hierarchy, Ran, Operations.Sync, Upsert, CompatibilityRole;
      OkHierarchy(Sys());
      if access == InvalidAccess {
        Refused(s, op, fault, Invalid);
        return Some(Invalid);
      }
      error := Require(actor, MANAGE, ModelRef(model));
      if error.Some? {
        Refused(s, op, fault, error.value);
        return;
      }
      if user !in store.users || ModelRef(model) !in store.resources {
        Refused(s, op, fault, NotFound);
        return Some(NotFound);
      }
      UpsertCompatibilityBinding(user, CompatibilityRole(access), model, newId);
      ghost var m := store.Meta();
      Planned(s, op, m);
      error := Sync(fault);
      RanThroughSync(s, op, fault, m, Outcome(Sys(), error));
    }

    /** The compatibility binding a revocation would lower, or why it is refused. */
    method FindRevocable(actor: string, user: string, model: string, access: Access) returns (found: Result<string, Error>)
      requires Valid()
      ensures found.Failure? <==> PlanRevokeLegacy(Sys(), actor, user, model, access).Failure?
      ensures found.Failure? ==> PlanRevokeLegacy(Sys(), actor, user, model, access) == Failure(found.error)
      ensures found.Success? ==> HasCompatibility(store.Meta(), user, model) && found.value == CompatibilityId(store.Meta(), user, model)
    {
      hide WellFormed, AllClean, Operations.Require, CompatibilityRole, CompatibilityId, Upsert;
      var error := Require(actor, MANAGE, ModelRef(model));
      if error.Some? {
        return Failure(error.value);
      }
      var row := store.FindCompatibility(user, model);
      if row.None? {
        return Failure(NotFound);
      }
      CompatibilityIsUnique(store.Meta(), row.value, user, model);
      if access == InvalidAccess || store.bindings[row.value].roleId != CompatibilityRole(access) {
        return Failure(Invalid);
      }
      found := Success(row.value);
    }

    /** Give the compatibility binding the next access down, or delete it. */
    method LowerBinding(user: string, model: string, next: Option<Access>, id: string)
      requires Valid()
      modifies store`bindings
      ensures store.Meta() == match next
                              case None => old(store.Meta()).(bindings := old(store.bindings) - {id})
                              case Some(access) => Upsert(old(store.Meta()), user, model, CompatibilityRole(access), id)
    {
      hide SystemOk, Upsert, CompatibilityRole;
      if next.None? {
        store.bindings := store.bindings - {id};
      } else {
        UpsertCompatibilityBinding(user, CompatibilityRole(next.value), model, id);
      }
    }

    /** Lower the compatibility access one level, or remove it, and synchronize. */
    method LowerLegacy(actor: string, user: string, model: string, access: Access, fault: Fault) returns (error: Option<Error>)
      requires Valid()
      modifies store, engine
      ensures Valid() && Ran(old(Sys()), Op.RevokeLegacy(actor, user, model, access), fault, Sys(), error)
    {
      ghost var s, op := Sys(), Op.RevokeLegacy(actor, user, model, access);
      hide SystemOk, WellFormed, AllClean, Operations.Require, Hierarchy, Ran, Operations.Sync, CompatibilityRole, CompatibilityId, Upsert, Plan;
      OkHierarchy(Sys());
      PlanOfRevoke(s, actor, user, model, access);
      var found := FindRevocable(actor, user, model, access);
      if found.Failure? {
        Refused(s, op, fault, found.error);
        return Some(found.error);
      }
      LowerBinding(user, model, NextAccess(access), found.value);
      ghost var m := store.Meta();
      Planned(s, op, m);
      error := Sync(fault);
      RanThroughSync(s, op, fault, m, Outcome(Sys(), error));
    }

    /** Besides revoking a level, reports whether the user can still read the model; that last check
        can itself fail, after the revocation is stored. */
    method RevokeLegacy(actor: string, user: string, model: string, access: Access, fault: Fault)
      returns (error: Option<Error>, stillAuthorized: bool)
      requires Valid()
      modifies store, engine
      ensures Valid() && Ran(old(Sys()), Op.RevokeLegacy(actor, user, model, access), fault, Sys(), RevokeError(old(Sys()), actor, user, model, access, fault))
      ensures match RevokeError(old(Sys()), actor, user, model, access, fault)
              case Some(e) => error == Some(e)
              case None =>
                match Operations.Check(Sys(), user, Some(ModelRead), ModelRef(model))
                case Failure(e) => error == Some(e)
                case Success(allowed) => error == None && stillAuthorized == allowed
    {
      ghost var s := Sys();
      hide Operations.Check, SystemOk, RevokeError;
      stillAuthorized := false;
      error := LowerLegacy(actor, user, model, access, fault);
      RevokeErrorOfRun(s, actor, user, model, access, fault, Sys(), error);
      hide Ran;
      if error.Some? {
        return;
      }
      var decision := CheckPermission(user, Some(ModelRead), ModelRef(model));
      match decision {
        case Failure(e) => error := Some(e);
        case Success(allowed) => stillAuthorized := allowed;
      }
    }

    // -------------------------------------------------------------- resources

    method CreateResource(actor: string, typ: ResourceType, name: string, parent: Option<Ref>, newId: string, fault: Fault) returns (error: Option<Error>)
      requires Valid() && FreshId(store.Meta(), newId)
      modifies store, engine
      ensures Valid() && Ran(old(Sys()), Op.CreateResource(actor, typ, name, parent, newId), fault, Sys(), error)
    {
      ghost var s, op := Sys(), Op.CreateResource(actor, typ, name, parent, newId);
      hide SystemOk, WellFormed, AllClean, FreshId, Operations.Require, Hierarchy, Ran, Operations.Sync, Slug.TrimSpace, ResourceNameTaken, ParentError, Plan;
      OkHierarchy(Sys());
      PlanOfCreateResource(s, actor, typ, name, parent, newId);
      error := CheckParent(typ, parent);
      if error.Some? {
        Refused(s, op, fault, error.value);
        return;
      }
      var target := CONTROLLER;
      if parent.Some? {
        target := parent.value;
      }
      error := Require(actor, CreatePermission(typ), target);
      if error.Some? {
        Refused(s, op, fault, error.value);
        return;
      }
      var trimmed := Slug.TrimSpace(name);
      if Ref(typ, newId) in store.resources || ResourceNameTaken(store.resources, typ, trimmed) {
        Refused(s, op, fault, Conflict);
        return Some(Conflict);
      }
      store.resources := store.resources[Ref(typ, newId) := StoredResource(trimmed, parent)];
      ghost var m := store.Meta();
      Planned(s, op, m);
      error := Sync(fault);
      RanThroughSync(s, op, fault, m, Outcome(Sys(), error));
    }

    method CheckParent(typ: ResourceType, parent: Option<Ref>) returns (error: Option<Error>)
      ensures error == ParentError(store.Meta(), typ, parent)
    {
      if typ == Controller {
        return Some(Invalid);
      }
      var allowed := ParentRule(typ);
      if |allowed| > 0 && parent.None? {
        return Some(Invalid);
      }
      if parent.Some? {
        if parent.value.typ !in allowed {
          return Some(Invalid);
        }
        if parent.value.typ != Controller && parent.value !in store.resources {
          return Some(NotFound);
        }
      }
      error := None;
    }

    method DeleteResource(actor: string, ref: Ref, fault: Fault) returns (error: Option<Error>)
      requires Valid()
      modifies store, engine
      ensures Valid() && Ran(old(Sys()), Op.DeleteResource(actor, ref), fault, Sys(), error)
    {
      ghost var s, op := Sys(), Op.DeleteResource(actor, ref);
      hide SystemOk, WellFormed, AllClean, Operations.Require, Hierarchy, Ran, Operations.Sync, HasChildren;
      OkHierarchy(Sys());
      if ref !in store.resources {
        Refused(s, op, fault, NotFound);
        return Some(NotFound);
      }
      error := Require(actor, DeletePermission(ref.typ), ref);
      if error.Some? {
        Refused(s, op, fault, error.value);
        return;
      }
      if HasChildren(store.resources, ref) {
        Refused(s, op, fault, Conflict);
        return Some(Conflict);
      }
      store.resources := store.resources - {ref};
      ghost var m := store.Meta();
      Planned(s, op, m);
      error := Sync(fault);
      RanThroughSync(s, op, fault, m, Outcome(Sys(), error));
    }
  }

  /** What a synchronization relies on. */
  lemma ReadyToSync(s: System, fault: Fault)
    requires SystemOk(s)
    ensures SystemOk(Operations.Sync(s, fault).after)
    ensures KeyedById(s.meta) && AllClean(s.synced) && AllClean(Desired(s.meta))
    ensures forall t :: t in Desired(s.meta) ==> WellTyped(t)
  {
    ProjectionIsClean(s.meta);
    SyncKeepsOk(s, fault);
    hide Operations.Sync, WellTyped, AllClean;
  }

  lemma {:induction false} UnknownNameFails(names: seq<string>, n: nat)
    requires n <= |names| && ParseAll(names[..n]).None? && n > 0
    ensures ParseAll(names).None?
  {
    if n == |names| {
      assert names[..n] == names;
    } else {
      assert names[..|names| - 1][..n] == names[..n];
      UnknownNameFails(names[..|names| - 1], n);
    }
  }

  lemma PreviewParses(s: System, actor: string, role: string, expected: int, permissions: seq<string>)
    requires PreviewAccepts(s, actor, role, expected, permissions).Success?
    ensures ParseAll(permissions) == Some(PreviewAccepts(s, actor, role, expected, permissions).value)
    ensures role in s.meta.roles && s.meta.roles[role].revision == expected
  {
  }

  lemma {:induction false} FirstErrorStands(rs: Resources, targets: seq<Ref>, scope: Ref, n: nat)
    requires Hierarchy(rs) && n <= |targets| && TargetsError(rs, targets[..n], scope).Some?
    ensures TargetsError(rs, targets, scope) == TargetsError(rs, targets[..n], scope)
  {
    if n == |targets| {
      assert targets[..n] == targets;
    } else {
      assert targets[..|targets| - 1][..n] == targets[..n];
      FirstErrorStands(rs, targets[..|targets| - 1], scope, n);
    }
  }

  /** Whichever compatibility row a query returns, it is the one. */
  lemma CompatibilityIsUnique(m: Metadata, id: string, user: string, model: string)
    requires WellFormed(m) && id in m.bindings && IsCompatibility(m.bindings[id], user, model)
    ensures HasCompatibility(m, user, model) && CompatibilityId(m, user, model) == id
  {
  }

  /** The error of a revocation up to and including its synchronization. */
  ghost function RevokeError(s: System, actor: string, user: string, model: string, access: Access, fault: Fault): Option<Error>
  {
    if Hierarchy(s.meta.resources) then Run(s, Op.RevokeLegacy(actor, user, model, access), fault).error else None
  }

  lemma RevokeErrorOfRun(s: System, actor: string, user: string, model: string, access: Access, fault: Fault, after: System, error: Option<Error>)
    requires Ran(s, Op.RevokeLegacy(actor, user, model, access), fault, after, error)
    ensures RevokeError(s, actor, user, model, access, fault) == error
  {
    hide Run, Hierarchy;
  }

  lemma PlanOfRevoke(s: System, actor: string, user: string, model: string, access: Access)
    requires Hierarchy(s.meta.resources)
    ensures Plan(s, Op.RevokeLegacy(actor, user, model, access)) == PlanRevokeLegacy(s, actor, user, model, access)
  {
    hide PlanRevokeLegacy;
  }

  lemma PlanOfCreateResource(s: System, actor: string, typ: ResourceType, name: string, parent: Option<Ref>, newId: string)
    requires Hierarchy(s.meta.resources)
    ensures Plan(s, Op.CreateResource(actor, typ, name, parent, newId)) == PlanCreateResource(s, actor, typ, name, parent, newId)
  {
    hide PlanCreateResource;
  }

  lemma OkHierarchy(s: System)
    requires SystemOk(s)
    ensures Hierarchy(s.meta.resources)
  {
  }
}
