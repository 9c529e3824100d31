/** What holds in every state a run can reach, and how often things can happen in one. */
module ReachableStates {
  import opened Catalog
  import opened AuthModel
  import opened Compiler
  import opened Lists
  import opened Metadata
  import opened ScopeRules
  import opened Encoding
  import opened Diff
  import opened Operations
  import opened Invariants
  import opened Projection
  import opened Decisions
  import Seed

  // ---------------------------------------------------------------- compilability

  /** Which bindings compile after an operation: all that did before, the only doubt being the
      binding just created. */
  lemma PlanKeepsCompiling(s: System, op: Op)
    requires WellFormed(s.meta) && FreshFor(s.meta, op) && AllCompile(s.meta) && Plan(s, op).Success?
    ensures AllCompile(Plan(s, op).value) <==> (op.CreateBinding? ==> BindingCompiles(s.meta, NewBinding(op.input, op.newId)))
  {
    var m, m' := s.meta, Plan(s, op).value;
    match op
    case CreateUser(_, _) | CreateGroup(_, _) | CreateRole(_, _, _, _) =>
      SkippedPlan(s, op);
      DesiredDependsOn(m, m');
    case UpdateRole(actor, role, expected, description, permissions) =>
      UpdatedRole(s, actor, role, expected, description, permissions);
      UpdatedRoleCompiles(m, m', role);
    case CreateBinding(actor, input, newId) =>
      CreatedBinding(s, actor, input, newId);
      CreatedCompiles(m, NewBinding(input, newId), newId);
    case GrantLegacy(actor, user, model, access, newId) =>
      UpsertCompiles(m, user, model, access, newId);
    case RevokeLegacy(actor, user, model, access) =>
      RevokedBindings(s, actor, user, model, access);
      match NextAccess(access) {
        case None => assert forall id :: id in m'.bindings ==> id in m.bindings && m'.bindings[id] == m.bindings[id];
        case Some(next) => UpsertCompiles(m, user, model, next, CompatibilityId(m, user, model));
      }
    case _ =>
      OtherPlans(s, op);
  }

  lemma UpdatedRoleCompiles(m: Metadata, m': Metadata, role: string)
    requires AllCompile(m) && m'.bindings == m.bindings && m'.roles.Keys == m.roles.Keys && role in m.roles
    requires forall id :: id in m.roles && id != role ==> m'.roles[id] == m.roles[id]
    requires BindingsAccept(m, role, m'.roles[role].permissions)
    ensures AllCompile(m')
  {
  }

  lemma CreatedCompiles(m: Metadata, b: Binding, newId: string)
    requires AllCompile(m) && newId !in m.bindings
    ensures AllCompile(m.(bindings := m.bindings[newId := b])) <==> BindingCompiles(m, b)
  {
    var m' := m.(bindings := m.bindings[newId := b]);
    assert forall c :: BindingCompiles(m', c) <==> BindingCompiles(m, c);
    hide BindingCompiles;
    assert m'.bindings[newId] == b;
    assert forall id :: id in m.bindings ==> m'.bindings[id] == m.bindings[id];
  }

  lemma OtherPlans(s: System, op: Op)
    requires Hierarchy(s.meta.resources) && AllCompile(s.meta) && Plan(s, op).Success?
    requires op.Resync? || op.AddGroupMember? || op.RemoveGroupMember? || op.DeleteBinding? || op.CreateResource? || op.DeleteResource?
    ensures AllCompile(Plan(s, op).value)
  {
    hide Check, Compiles, Slug.TrimSpace, ManagementScope, Hierarchy;
  }

  /** If every stored binding compiles, the same holds after every operation but a failed creation of
      a binding; and it holds after any operation that synchronizes successfully. */
  lemma CompilabilityIsKept(s: System, step: Step)
    requires WellFormed(s.meta) && FreshFor(s.meta, step.op)
    ensures AllCompile(s.meta) && (step.op.CreateBinding? ==> Next(s, step).error.None?) ==> AllCompile(Next(s, step).after.meta)
    ensures Next(s, step).error.None? && !SkipsSync(step.op) ==> AllCompile(Next(s, step).after.meta)
  {
    if AllCompile(s.meta) && Plan(s, step.op).Success? {
      PlanKeepsCompiling(s, step.op);
    }
    hide Plan, AllCompile, Recordable, Desired, WellFormed, FreshFor, BindingCompiles;
  }

  // ---------------------------------------------------------------- the projection is well typed and clean

  /** Every tuple of the projection names a relation model.fga defines for its object, of a user that
      relation admits, and is spelt from clean identifiers. */
  lemma ProjectionIsWellTyped(m: Metadata, t: Tuple)
    requires WellFormed(m) && t in Desired(m)
    ensures WellTyped(t) && CleanTuple(t)
  {
    if t in ParentTuples(m.resources) {
      var r :| r in m.resources && m.resources[r].parent.Some? && t == ParentTuple(r, m.resources[r].parent.value);
      ParentRanksHigher(m.resources, r);
      CleanController();
    } else if t in BindingTuples(m) {
      var id :| id in m.bindings && t in TuplesOf(m, m.bindings[id]);
      var b := m.bindings[id];
      assert ReferencesHold(m, b) && CleanBinding(b) && b.id == id;
      if t in GrantTuples(b, PermissionsOf(m, b)) {
        GrantTuplesAreEmitted(b, PermissionsOf(m, b), t);
        EmittedIsWellTyped(b, PermissionsOf(m, b), t);
      }
    }
  }

  // ---------------------------------------------------------------- reachable states

  ghost predicate Reachable(s: System) {
    Seed.SeedIsWellFormed();
    exists steps :: IsRun(Seed.SeedSystem(), steps, s)
  }

  /** Every reachable state is well formed: in particular its resources form a forest under the
      controller whose parents rank strictly higher. */
  lemma ReachableIsWellFormed(s: System)
    requires Reachable(s)
    ensures WellFormed(s.meta)
  {
    Seed.SeedIsWellFormed();
    var steps :| IsRun(Seed.SeedSystem(), steps, s);
    RunsStayWellFormed(Seed.SeedSystem(), steps, s);
  }

  /** In every reachable state both climbs succeed on every stored resource. */
  lemma ClimbsSucceed(s: System, r: Ref, scope: Ref)
    requires Reachable(s) && Known(s.meta.resources, r)
    ensures Hierarchy(s.meta.resources)
    ensures WithinScope(s.meta.resources, r, scope) == Success(AtOrBelow(s.meta.resources, r, scope))
    ensures ManagementScope(s.meta.resources, r).Success?
  {
    ReachableIsWellFormed(s);
    WithinScopeDecides(s.meta.resources, r, scope);
    ManagementScopeIsNearest(s.meta.resources, r);
  }

  /** In every reachable state each still stored target of an exact binding is at or below the
      binding's scope, which is then stored too. */
  lemma ExactTargetsStayInScope(s: System, id: string, t: Ref)
    requires Reachable(s) && id in s.meta.bindings && s.meta.bindings[id].selector.match_ == Exact
    requires t in Targets(s.meta.bindings[id]) && t in s.meta.resources
    ensures AtOrBelow(s.meta.resources, t, s.meta.bindings[id].scope)
    ensures Known(s.meta.resources, s.meta.bindings[id].scope)
  {
    ReachableIsWellFormed(s);
    assert TargetsInScope(s.meta.resources, s.meta.bindings[id]);
    AncestorsAreKnown(s.meta.resources, t, s.meta.bindings[id].scope);
  }

  /** From a fresh seed, a run without cuts that ends with a successful synchronizing operation ends
      with engine, memory and projection equal, whatever failed before. */
  lemma FreshRunSynchronizes(steps: seq<Step>, before: System, step: Step)
    requires WellFormed(Seed.SeedMetadata()) && IsRun(Seed.SeedSystem(), steps, before) && Uncut(steps)
    requires WellFormed(before.meta) && FreshFor(before.meta, step.op) && step.fault != RecordFails && DistinctInput(step.op)
    ensures Agrees(before) && Agrees(Next(before, step).after)
    ensures Next(before, step).error.None? && !SkipsSync(step.op) ==> Synchronized(Next(before, step).after)
  {
    SeedListsDistinct();
    RunsKeepAgreement(Seed.SeedSystem(), steps, before);
    StepKeepsAgreement(before, step);
  }

  lemma SeedListsDistinct()
    ensures ListsDistinct(Seed.SeedMetadata())
  {
  }
}
