/** The uniqueness rules of the tables. */
module Uniqueness {
  import opened Catalog
  import opened AuthModel
  import opened Compiler
  import opened Metadata
  import opened ScopeRules
  import opened Operations
  import opened Invariants
  import opened Projection
  import opened ReachableStates
  import Seed
  import Slug
  import LegacyLevels

  ghost predicate DistinctNames(table: map<string, string>) {
    forall a, b :: a in table && b in table && table[a] == table[b] ==> a == b
  }

  ghost predicate DistinctRoleNames(roles: map<string, Role>) {
    forall a, b :: a in roles && b in roles && roles[a].name == roles[b].name ==> a == b
  }

  ghost predicate DistinctResourceNames(rs: Resources) {
    forall a, b :: a in rs && b in rs && a.typ == b.typ && rs[a].name == rs[b].name ==> a == b
  }

  ghost predicate SameBindingRow(b: Binding, c: Binding) {
    b.subject == c.subject && b.roleId == c.roleId && b.scope == c.scope && b.compatibility == c.compatibility
  }

  ghost predicate DistinctBindingRows(bindings: map<string, Binding>) {
    forall a, b :: a in bindings && b in bindings && SameBindingRow(bindings[a], bindings[b]) ==> a == b
  }

  ghost predicate UniqueRows(m: Metadata) {
    && DistinctNames(m.users) && DistinctNames(m.groups) && DistinctRoleNames(m.roles)
    && DistinctResourceNames(m.resources) && DistinctBindingRows(m.bindings)
  }

  /** Replacing the role of a compatibility binding, or inserting one, never meets the uniqueness rule
      of the bindings, although it does not ask: the user has no other one on the model. */
  lemma UpsertKeepsRowsDistinct(m: Metadata, user: string, model: string, role: string, newId: string)
    requires WellFormed(m) && DistinctBindingRows(m.bindings)
    ensures DistinctBindingRows(Upsert(m, user, model, role, newId).bindings)
  {
    var m' := Upsert(m, user, model, role, newId);
    var id := if HasCompatibility(m, user, model) then CompatibilityId(m, user, model) else newId;
    hide Hierarchy, References, Selectors, CleanIds, LegacyRoles, LegacyShape, CompatibilityId;
    assert IsCompatibility(m'.bindings[id], user, model);
    forall other | other in m.bindings && other != id ensures !SameBindingRow(m'.bindings[other], m'.bindings[id]) {
      var b := m.bindings[other];
      assert SameBindingRow(b, m'.bindings[id]) ==> IsCompatibility(b, user, model);
      assert HasCompatibility(m, user, model) ==> !SameCompatibility(b, m.bindings[id]);
    }
  }

  lemma PlanKeepsUnique(s: System, op: Op)
    requires WellFormed(s.meta) && UniqueRows(s.meta) && Plan(s, op).Success?
    ensures UniqueRows(Plan(s, op).value)
  {
    match op
    case GrantLegacy(_, user, model, access, newId) =>
      UpsertKeepsRowsDistinct(s.meta, user, model, CompatibilityRole(access), newId);
    case RevokeLegacy(_, user, model, access) =>
      if NextAccess(access).Some? {
        UpsertKeepsRowsDistinct(s.meta, user, model, CompatibilityRole(NextAccess(access).value), CompatibilityId(s.meta, user, model));
      }
    case _ =>
      OtherPlansKeepUnique(s, op);
  }

  lemma OtherPlansKeepUnique(s: System, op: Op)
    requires Hierarchy(s.meta.resources) && UniqueRows(s.meta) && Plan(s, op).Success? && !op.GrantLegacy? && !op.RevokeLegacy?
    ensures UniqueRows(Plan(s, op).value)
  {
    hide Check, Hierarchy, ParseAll, BindingsAccept, ValidateBinding, ManagementScope, Slug.SlugOf, Slug.TrimSpace;
  }

  lemma {:induction false} RunsKeepUnique(s: System, steps: seq<Step>, last: System)
    requires WellFormed(s.meta) && UniqueRows(s.meta) && IsRun(s, steps, last)
    ensures UniqueRows(last.meta)
    decreases |steps|
  {
    if steps != [] {
      LegacyLevels.NextMeta(s, steps[0]);
      if Plan(s, steps[0].op).Success? {
        PlanKeepsUnique(s, steps[0].op);
      }
      hide WellFormed, Plan, FreshFor, Next, UniqueRows;
      RunsKeepUnique(Next(s, steps[0]).after, steps[1..], last);
    }
  }

  lemma SeedRowsAreUnique()
    ensures UniqueRows(Seed.SeedMetadata())
  {
    assert DistinctRoleNames(Seed.SeedRoles());
    assert |"production"| != |"payments"|;
    hide Seed.SeedRoles, Seed.SeedResources;
    assert DistinctResourceNames(Seed.SeedResources()) by { SeedResourceNames(); }
  }

  lemma SeedResourceNames()
    ensures DistinctResourceNames(Seed.SeedResources())
  {
    assert |"0"| != |"payments-machine"|;
  }

  /** In every reachable state no two users, groups or roles share a name, no two resources of a type
      share a name, and no two bindings share subject, role, scope and kind. */
  lemma ReachableRowsAreUnique(s: System)
    requires Reachable(s)
    ensures UniqueRows(s.meta)
  {
    Seed.SeedIsWellFormed();
    SeedRowsAreUnique();
    hide UniqueRows, WellFormed, IsRun;
    var steps :| IsRun(Seed.SeedSystem(), steps, s);
    RunsKeepUnique(Seed.SeedSystem(), steps, s);
  }
}
