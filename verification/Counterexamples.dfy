/** Concrete states in which the service does not do what one might expect of it. */
module Counterexamples {
  import opened Catalog
  import opened AuthModel
  import opened Compiler
  import opened Lists
  import opened Metadata
  import opened ScopeRules
  import opened Encoding
  import opened Operations
  import opened Invariants
  import opened Correctness
  import opened Projection
  import opened Decisions
  import Seed

  /** The seeded store after its first synchronization. */
  function Started(): System {
    System(Seed.SeedMetadata(), Desired(Seed.SeedMetadata()), Desired(Seed.SeedMetadata()))
  }

  /** The seeded administrator may manage policy everywhere in the seeded forest. */
  lemma AdminManages(r: Ref)
    requires Known(Seed.SeedResources(), r) && Supports(PolicyManage, r.typ) && r.id != ""
    ensures Require(Started(), "admin", MANAGE, r).None?
  {
    var m := Seed.SeedMetadata();
    Seed.SeedIsWellFormed();
    Seed.SeedLegacyRoles();
    EveryPermissionIsCatalogued(PolicyManage);
    AllBelowController(m.resources, r);
    var b := m.bindings["bootstrap-admin"];
    assert b == Seed.BOOTSTRAP && PolicyManage in PermissionsOf(m, b);
    assert Grants(m, b, "admin", PolicyManage, r);
    CheckIsGranted(Started(), "admin", PolicyManage, r);
  }

  // ---------------------------------------------------------------- a binding that does not compile

  /** The model readers' role on an application: no relation on an application means reading a model. */
  const READER_ON_APPLICATION := BindingInput(UserSubject, "admin", "model-reader", Seed.PAYMENTS, Selector(Scope, None))

  lemma ReaderDoesNotCompile(m: Metadata, id: string)
    requires LegacyRoles(m)
    ensures !BindingCompiles(m, NewBinding(READER_ON_APPLICATION, id))
  {
  }

  lemma SeededPath()
    ensures Seed.PRODUCTION in Seed.SeedResources() && Seed.PAYMENTS in Seed.SeedResources() && Seed.PAYMENTS_0 in Seed.SeedResources() && Seed.MODEL_0 in Seed.SeedResources()
    ensures Seed.SeedResources()[Seed.PAYMENTS].parent == Some(Seed.PRODUCTION)
    ensures Seed.SeedResources()[Seed.PAYMENTS_0].parent == Some(Seed.PAYMENTS)
    ensures Seed.SeedResources()[Seed.MODEL_0].parent == Some(Seed.PRODUCTION)
  {
  }

  lemma ReaderIsValid()
    ensures Hierarchy(Seed.SeedResources())
    ensures ValidateBinding(Seed.SeedMetadata(), READER_ON_APPLICATION).None?
    ensures ManagementScope(Seed.SeedResources(), Seed.PAYMENTS) == Success(Seed.PRODUCTION)
  {
    hide Seed.SeedRoles, Seed.SeedResources, Hierarchy;
    Seed.SeedHierarchy();
    Seed.SeedLegacyRoles();
    SeededPath();
  }

  lemma ReaderIsPlanned(id: string)
    ensures Hierarchy(Seed.SeedResources())
    ensures PlanCreateBinding(Started(), "admin", READER_ON_APPLICATION, id)
            == Success(Seed.SeedMetadata().(bindings := Seed.SeedMetadata().bindings[id := NewBinding(READER_ON_APPLICATION, id)]))
  {
    hide Seed.SeedRoles, Seed.SeedResources, Hierarchy, Require, Clashes, ValidateBinding, ManagementScope, Desired;
    ReaderIsValid();
    SeededPath();
    AdminManages(Seed.PRODUCTION);
    NoSeededClash(NewBinding(READER_ON_APPLICATION, id));
  }

  /** Creating it is refused by the synchronization, yet the binding stays stored, and from then on
      every synchronization fails until it is gone. */
  lemma UncompilableBindingStays(id: string, fault: Fault)
    requires FreshId(Seed.SeedMetadata(), id)
    ensures WellFormed(Seed.SeedMetadata())
    ensures var o := Next(Started(), Step(CreateBinding("admin", READER_ON_APPLICATION, id), fault));
            && o.error == Some(SyncFailed) && id in o.after.meta.bindings
            && !AllCompile(o.after.meta) && Sync(o.after, NoFault).error.Some?
  {
    hide Seed.SeedRoles, Seed.SeedResources, Hierarchy, PlanCreateBinding, WellFormed, LegacyRoles, BindingCompiles, Desired, FreshId;
    var m := Seed.SeedMetadata();
    var m' := m.(bindings := m.bindings[id := NewBinding(READER_ON_APPLICATION, id)]);
    Seed.SeedIsWellFormed();
    ReaderIsPlanned(id);
    assert LegacyRoles(m') by { Seed.SeedLegacyRoles(); SameRolesSameLegacy(m, m'); }
    ReaderDoesNotCompile(m', id);
    assert m'.bindings[id] == NewBinding(READER_ON_APPLICATION, id);
    assert !AllCompile(m');
  }

  lemma SameRolesSameLegacy(m: Metadata, m': Metadata)
    requires LegacyRoles(m) && m'.roles == m.roles
    ensures LegacyRoles(m')
  {
  }

  lemma NoSeededClash(b: Binding)
    requires !b.compatibility
    ensures !Clashes(Seed.SeedMetadata(), b)
  {
  }

  // ---------------------------------------------------------------- a repeated exact target

  const REPEATED := BindingInput(UserSubject, "admin", "model-reader", Seed.PRODUCTION,
    Selector(Exact, Some([Seed.PRODUCTION, Seed.PAYMENTS, Seed.PAYMENTS_0, Seed.MODEL_0, Seed.MODEL_0])))

  lemma RepeatedTargets(id: string)
    ensures var b := NewBinding(REPEATED, id);
            && |Targets(b)| == 5 && Targets(b) == REPEATED.selector.resources.value
            && Targets(b)[0] == Seed.PRODUCTION && Targets(b)[1] == Seed.PAYMENTS && Targets(b)[2] == Seed.PAYMENTS_0
            && Targets(b)[3] == Seed.MODEL_0 && Targets(b)[4] == Seed.MODEL_0
  {
  }

  lemma RepeatedIsValid()
    ensures Hierarchy(Seed.SeedResources())
    ensures ValidateBinding(Seed.SeedMetadata(), REPEATED).None?
  {
    hide Seed.SeedRoles, Seed.SeedResources, Hierarchy, TargetsError;
    Seed.SeedHierarchy();
    Seed.SeedLegacyRoles();
    SeededPath();
    var targets := REPEATED.selector.resources.value;
    forall t | t in targets ensures t in Seed.SeedResources() && AtOrBelow(Seed.SeedResources(), t, Seed.PRODUCTION) {
      assert t in {Seed.PRODUCTION, Seed.PAYMENTS, Seed.PAYMENTS_0, Seed.MODEL_0};
    }
    TargetsErrorFree(Seed.SeedResources(), targets, Seed.PRODUCTION);
  }

  /** An exact list naming a machine twice passes validation and compiles; its projection cannot be
      recorded. */
  lemma RepeatedTargetIsAccepted(id: string)
    ensures Hierarchy(Seed.SeedResources())
    ensures ValidateBinding(Seed.SeedMetadata(), REPEATED).None?
    ensures var b := NewBinding(REPEATED, id);
            BindingCompiles(Seed.SeedMetadata(), b) && RepeatsTarget(b, PermissionsOf(Seed.SeedMetadata(), b))
  {
    hide Seed.SeedRoles, Seed.SeedResources, Hierarchy, ValidateBinding, Targets;
    var m, b := Seed.SeedMetadata(), NewBinding(REPEATED, id);
    RepeatedIsValid();
    Seed.SeedLegacyRoles();
    RepeatedTargets(id);
    var targets := Targets(b);
    assert PermissionsOf(m, b) == ReaderPermissions();
    assert Supports(MachineRead, targets[3].typ) && MachineRead in ReaderPermissions();
    assert Supports(ModelRead, targets[0].typ) && Supports(ApplicationRead, targets[1].typ) && Supports(UnitRead, targets[2].typ);
  }

  // ---------------------------------------------------------------- an interruption that is not repaired

  /** The seed with one group and its one member. */
  function WithMember(): Metadata {
    Seed.SeedMetadata().(groups := map["ops" := "ops"], members := {("ops", "admin")})
  }

  /** If adding the member is cut between the engine write and its record, and the member is then
      removed again, a full synchronization succeeds and the engine still holds the membership. */
  lemma CutMembershipStays()
    ensures var cut := Sync(Started().(meta := WithMember()), RecordFails).after;
            var end := Sync(cut.(meta := Seed.SeedMetadata()), NoFault);
            && end.error.None?
            && MembershipTuple("ops", "admin") in end.after.engine
            && MembershipTuple("ops", "admin") !in Desired(end.after.meta)
  {
    var earlier, s := Seed.SeedMetadata(), Started().(meta := WithMember());
    var t := MembershipTuple("ops", "admin");
    Seed.SeedIsWellFormed();
    assert KeyedById(earlier) && KeyedById(s.meta);
    DesiredByObject(earlier, t);
    DesiredByObject(s.meta, t);
    assert t in MembershipTuples(s.meta) by { assert ("ops", "admin") in s.meta.members; }
    assert forall id :: id in earlier.bindings ==> (BindingCompiles(s.meta, earlier.bindings[id]) <==> BindingCompiles(earlier, earlier.bindings[id]));
    assert AllCompile(s.meta);
    hide WellFormed, Desired, AllCompile, Recordable, Seed.SeedMetadata;
    UndoDoesNotRecover(s, earlier);
  }
}
