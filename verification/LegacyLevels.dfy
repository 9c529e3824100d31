/** The legacy level machine, and bindings whose scope is gone, over whole runs. */
module LegacyLevels {
  import opened Catalog
  import opened AuthModel
  import opened Compiler
  import opened Metadata
  import opened ScopeRules
  import opened Operations
  import opened Invariants
  import opened Projection
  import Slug

  // ---------------------------------------------------------------- levels

  function RoleLevel(role: string): nat {
    if role == CompatibilityRole(ReadAccess) then 1
    else if role == CompatibilityRole(WriteAccess) then 2
    else if role == CompatibilityRole(AdminAccess) then 3
    else 0
  }

  function AccessLevel(access: Access): nat {
    match access
    case ReadAccess => 1
    case WriteAccess => 2
    case AdminAccess => 3
    case InvalidAccess => 0
  }

  lemma RoleLevelIsAccessLevel(access: Access)
    ensures RoleLevel(CompatibilityRole(access)) == AccessLevel(access)
  {
  }

  /** The compatibility access of a user on a model: none, read, write or administrator. */
  ghost function Level(m: Metadata, user: string, model: string): nat {
    if HasCompatibility(m, user, model) then RoleLevel(m.bindings[CompatibilityId(m, user, model)].roleId) else 0
  }

  /** Well-formed metadata holds at most one compatibility binding of a user on a model, of one of
      the three model roles, so any such row tells the level. */
  lemma LevelByRow(m: Metadata, id: string, user: string, model: string)
    requires WellFormed(m) && id in m.bindings && IsCompatibility(m.bindings[id], user, model)
    ensures CompatibilityId(m, user, model) == id
    ensures IsLegacyRole(m.bindings[id].roleId)
    ensures 1 <= Level(m, user, model) == RoleLevel(m.bindings[id].roleId) <= 3
  {
  }

  predicate GrantsTo(op: Op, user: string, model: string) {
    op.GrantLegacy? && op.user == user && op.model == model
  }

  predicate RevokesFrom(op: Op, user: string, model: string) {
    op.RevokeLegacy? && op.user == user && op.model == model
  }

  lemma LegacyKeepsOtherRows(s: System, op: Op, user: string, model: string, id: string)
    requires WellFormed(s.meta) && FreshFor(s.meta, op) && Plan(s, op).Success?
    requires op.GrantLegacy? || op.RevokeLegacy?
    requires !GrantsTo(op, user, model) && !RevokesFrom(op, user, model)
    ensures id in Plan(s, op).value.bindings && IsCompatibility(Plan(s, op).value.bindings[id], user, model) ==>
              id in s.meta.bindings && Plan(s, op).value.bindings[id] == s.meta.bindings[id]
    ensures id in s.meta.bindings && IsCompatibility(s.meta.bindings[id], user, model) && !op.DeleteBinding? ==>
              id in Plan(s, op).value.bindings && Plan(s, op).value.bindings[id] == s.meta.bindings[id]
  {
    hide Require, Hierarchy, References, Selectors, CleanIds, CompatibilityRole, LegacyRoles, LegacyShape;
    assert ModelRef(op.model).id == op.model && ModelRef(model).id == model;
  }

  lemma OtherPlansDropNoRow(s: System, op: Op, id: string)
    requires Hierarchy(s.meta.resources) && Plan(s, op).Success? && FreshFor(s.meta, op)
    requires !op.GrantLegacy? && !op.RevokeLegacy? && !op.DeleteBinding? && id in s.meta.bindings
    ensures id in Plan(s, op).value.bindings && Plan(s, op).value.bindings[id] == s.meta.bindings[id]
  {
    hide Require, Slug.SlugOf, Slug.TrimSpace, ParseAll, BindingsAccept, ValidateBinding, ManagementScope, Hierarchy, Clashes;
  }

  /** Operations other than a grant or revocation for the pair store no compatibility binding of it;
      only a deletion drops one. */
  lemma OtherOperationsKeepRows(s: System, op: Op, user: string, model: string, id: string)
    requires WellFormed(s.meta) && FreshFor(s.meta, op) && Plan(s, op).Success?
    requires !GrantsTo(op, user, model) && !RevokesFrom(op, user, model)
    ensures id in Plan(s, op).value.bindings && IsCompatibility(Plan(s, op).value.bindings[id], user, model) ==>
              id in s.meta.bindings && Plan(s, op).value.bindings[id] == s.meta.bindings[id]
    ensures id in s.meta.bindings && IsCompatibility(s.meta.bindings[id], user, model) && !op.DeleteBinding? ==>
              id in Plan(s, op).value.bindings && Plan(s, op).value.bindings[id] == s.meta.bindings[id]
  {
    if op.GrantLegacy? || op.RevokeLegacy? {
      LegacyKeepsOtherRows(s, op, user, model, id);
    } else {
      PlanBindings(s, op);
      if !op.DeleteBinding? && id in s.meta.bindings {
        OtherPlansDropNoRow(s, op, id);
      }
    }
    hide Plan, WellFormed, Targets;
  }

  /** How an operation moves a level: a revocation lowers it by exactly one, a grant sets it, and any
      other operation leaves it or, deleting the binding, drops it to none. */
  lemma LevelMoves(s: System, op: Op, user: string, model: string)
    requires WellFormed(s.meta) && FreshFor(s.meta, op) && Plan(s, op).Success?
    ensures RevokesFrom(op, user, model) ==> Level(Plan(s, op).value, user, model) + 1 == Level(s.meta, user, model)
    ensures GrantsTo(op, user, model) ==> Level(Plan(s, op).value, user, model) == AccessLevel(op.access)
    ensures !RevokesFrom(op, user, model) && !GrantsTo(op, user, model) ==>
              || Level(Plan(s, op).value, user, model) == Level(s.meta, user, model)
              || (op.DeleteBinding? && Level(Plan(s, op).value, user, model) == 0)
  {
    PlanKeeps(s, op);
    if RevokesFrom(op, user, model) {
      RevokeLowers(s, op.actor, user, model, op.access);
    } else if GrantsTo(op, user, model) {
      UpsertSets(s.meta, user, model, op.access, op.newId);
    } else {
      OthersKeepLevel(s, op, user, model);
    }
  }

  lemma UpsertSets(m: Metadata, user: string, model: string, access: Access, newId: string)
    requires WellFormed(m) && WellFormed(Upsert(m, user, model, CompatibilityRole(access), newId))
    ensures Level(Upsert(m, user, model, CompatibilityRole(access), newId), user, model) == AccessLevel(access)
  {
    var id := if HasCompatibility(m, user, model) then CompatibilityId(m, user, model) else newId;
    var m' := Upsert(m, user, model, CompatibilityRole(access), newId);
    assert IsCompatibility(m'.bindings[id], user, model);
    hide WellFormed, CompatibilityRole, Level;
    LevelByRow(m', id, user, model);
    RoleLevelIsAccessLevel(access);
  }

  lemma RevokeLowers(s: System, actor: string, user: string, model: string, access: Access)
    requires WellFormed(s.meta) && PlanRevokeLegacy(s, actor, user, model, access).Success?
    requires WellFormed(PlanRevokeLegacy(s, actor, user, model, access).value)
    ensures Level(PlanRevokeLegacy(s, actor, user, model, access).value, user, model) + 1 == Level(s.meta, user, model)
  {
    var m, id := s.meta, CompatibilityId(s.meta, user, model);
    LevelByRow(m, id, user, model);
    RoleLevelIsAccessLevel(access);
    match NextAccess(access) {
      case None =>
        var m' := m.(bindings := m.bindings - {id});
        if HasCompatibility(m', user, model) {
          var other := CompatibilityId(m', user, model);
          LevelByRow(m, other, user, model);
        }
      case Some(next) => UpsertSets(m, user, model, next, id);
    }
    hide WellFormed, CompatibilityRole, CompatibilityId, Require;
  }

  lemma OthersKeepLevel(s: System, op: Op, user: string, model: string)
    requires WellFormed(s.meta) && FreshFor(s.meta, op) && Plan(s, op).Success? && WellFormed(Plan(s, op).value)
    requires !GrantsTo(op, user, model) && !RevokesFrom(op, user, model)
    ensures || Level(Plan(s, op).value, user, model) == Level(s.meta, user, model)
            || (op.DeleteBinding? && Level(Plan(s, op).value, user, model) == 0)
  {
    var m, m' := s.meta, Plan(s, op).value;
    hide Plan, WellFormed, CompatibilityRole, FreshFor;
    if HasCompatibility(m', user, model) {
      var id := CompatibilityId(m', user, model);
      OtherOperationsKeepRows(s, op, user, model, id);
      LevelByRow(m, id, user, model);
    } else if HasCompatibility(m, user, model) {
      OtherOperationsKeepRows(s, op, user, model, CompatibilityId(m, user, model));
    }
  }

  lemma LevelAtMostThree(m: Metadata, user: string, model: string)
    ensures Level(m, user, model) <= 3
  {
  }

  /** How many steps of a run revoke a level of the user on the model. */
  ghost function Revocations(s: System, steps: seq<Step>, user: string, model: string): nat
    requires WellFormed(s.meta) && IsRun(s, steps, EndOf(s, steps))
    decreases |steps|
  {
    if steps == [] then 0
    else
      (if RevokesFrom(steps[0].op, user, model) && Plan(s, steps[0].op).Success? then 1 else 0)
      + Revocations(Next(s, steps[0]).after, steps[1..], user, model)
  }

  ghost function EndOf(s: System, steps: seq<Step>): System
    requires WellFormed(s.meta)
    decreases |steps|
  {
    if steps == [] || !FreshFor(s.meta, steps[0].op) then s else EndOf(Next(s, steps[0]).after, steps[1..])
  }

  ghost predicate NoGrantTo(steps: seq<Step>, user: string, model: string) {
    forall i :: 0 <= i < |steps| ==> !GrantsTo(steps[i].op, user, model)
  }

  /** Without a grant in between, a run revokes no more levels than there were: at most three. */
  lemma {:induction false} RevocationsAreBounded(s: System, steps: seq<Step>, user: string, model: string)
    requires WellFormed(s.meta) && IsRun(s, steps, EndOf(s, steps)) && NoGrantTo(steps, user, model)
    ensures Revocations(s, steps, user, model) + Level(EndOf(s, steps).meta, user, model) <= Level(s.meta, user, model) <= 3
    decreases |steps|
  {
    LevelAtMostThree(s.meta, user, model);
    if steps != [] {
      var next := Next(s, steps[0]).after;
      NextMeta(s, steps[0]);
      if Plan(s, steps[0].op).Success? {
        LevelMoves(s, steps[0].op, user, model);
      }
      assert !GrantsTo(steps[0].op, user, model);
      hide WellFormed, Plan, Level, FreshFor, Next;
      assert NoGrantTo(steps[1..], user, model) by {
        forall i | 0 <= i < |steps[1..]| ensures !GrantsTo(steps[1..][i].op, user, model) {
          assert steps[1..][i] == steps[i + 1];
        }
      }
      RevocationsAreBounded(next, steps[1..], user, model);
    }
  }

  /** A step leaves the planned metadata, or none of it changed. */
  lemma NextMeta(s: System, step: Step)
    requires WellFormed(s.meta) && FreshFor(s.meta, step.op)
    ensures Hierarchy(s.meta.resources)
    ensures Next(s, step).after.meta == match Plan(s, step.op) case Success(m) => m case Failure(_) => s.meta
  {
    WellFormedHierarchy(s.meta);
    hide Plan, WellFormed, FreshFor, Desired, AllCompile, Recordable, Hierarchy;
  }

  // ---------------------------------------------------------------- bindings whose scope is gone

  /** A stored binding whose scope is no longer stored. */
  ghost predicate Orphaned(m: Metadata, id: string) {
    id in m.bindings && !Known(m.resources, m.bindings[id].scope)
  }

  lemma OrphanIsNotDeleted(s: System, actor: string, id: string)
    requires WellFormed(s.meta) && Orphaned(s.meta, id)
    ensures PlanDeleteBinding(s, actor, id) == Failure(NotFound) || PlanDeleteBinding(s, actor, id) == Failure(Invalid)
  {
  }

  /** Rows survive every operation that does not name them. */
  lemma RowSurvives(s: System, op: Op, id: string)
    requires Hierarchy(s.meta.resources) && id in s.meta.bindings && FreshFor(s.meta, op) && Plan(s, op).Success?
    requires op.DeleteBinding? ==> op.id != id
    requires op.GrantLegacy? || op.RevokeLegacy? ==> !IsCompatibility(s.meta.bindings[id], op.user, op.model)
    ensures id in Plan(s, op).value.bindings && Plan(s, op).value.bindings[id] == s.meta.bindings[id]
  {
    hide Check, Slug.SlugOf, Slug.TrimSpace, ParseAll, BindingsAccept, ValidateBinding, ManagementScope, Hierarchy, CompatibilityRole;
  }

  lemma ScopeStaysGone(s: System, op: Op, scope: Ref)
    requires Hierarchy(s.meta.resources) && Plan(s, op).Success? && !Known(s.meta.resources, scope)
    requires op.CreateResource? ==> op.newId != scope.id
    ensures !Known(Plan(s, op).value.resources, scope)
  {
    hide Check, Slug.SlugOf, Slug.TrimSpace, ParseAll, BindingsAccept, ValidateBinding, ManagementScope, Hierarchy, CompatibilityRole;
  }

  lemma LegacyModelIsStored(s: System, op: Op)
    requires Hierarchy(s.meta.resources) && Plan(s, op).Success? && (op.GrantLegacy? || op.RevokeLegacy?)
    ensures ModelRef(op.model) in s.meta.resources
  {
    hide Allowed, Hierarchy, CompatibilityRole;
  }

  /** No operation removes or changes an orphaned binding: deleting and revoking it are refused
      because its scope is not found, and the scope cannot come back. */
  lemma OrphanOutlivesOperation(s: System, op: Op, id: string)
    requires WellFormed(s.meta) && FreshFor(s.meta, op) && Orphaned(s.meta, id)
    ensures Hierarchy(s.meta.resources)
    ensures Plan(s, op).Success? ==>
              Orphaned(Plan(s, op).value, id) && Plan(s, op).value.bindings[id] == s.meta.bindings[id]
  {
    WellFormedHierarchy(s.meta);
    if Plan(s, op).Success? {
      if op.DeleteBinding? {
        OrphanIsNotDeleted(s, op.actor, id);
      }
      if op.GrantLegacy? || op.RevokeLegacy? {
        LegacyModelIsStored(s, op);
      }
      assert op.DeleteBinding? ==> op.id != id;
      hide Plan, WellFormed, Hierarchy;
      RowSurvives(s, op, id);
      ScopeStaysGone(s, op, s.meta.bindings[id].scope);
    }
  }

  /** So an orphaned binding is still stored, unchanged, at the end of every run. */
  lemma {:induction false} OrphanOutlivesRun(s: System, steps: seq<Step>, last: System, id: string)
    requires WellFormed(s.meta) && IsRun(s, steps, last) && Orphaned(s.meta, id)
    ensures Orphaned(last.meta, id) && last.meta.bindings[id] == s.meta.bindings[id]
    decreases |steps|
  {
    if steps != [] {
      NextMeta(s, steps[0]);
      OrphanOutlivesOperation(s, steps[0].op, id);
      hide WellFormed, Plan, FreshFor, Next;
      OrphanOutlivesRun(Next(s, steps[0]).after, steps[1..], last, id);
    }
  }
}
