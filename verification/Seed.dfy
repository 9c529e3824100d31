/** The freshly seeded store. */
module Seed {
  import opened Catalog
  import opened AuthModel
  import opened Compiler
  import opened Lists
  import opened Metadata
  import opened Encoding
  import opened Operations
  import opened Invariants

  const PRODUCTION := Ref(Model, "production")
  const PAYMENTS := Ref(Application, "payments")
  const PAYMENTS_0 := Ref(Unit, "payments-0")
  const MODEL_0 := Ref(Machine, "model-0")
  const PAYMENTS_MACHINE := Ref(Machine, "payments-machine")
  const AWS_PRODUCTION := Ref(CloudCredential, "aws-production")

  function SeedResources(): Resources {
    map[PRODUCTION := StoredResource("production", Some(CONTROLLER)),
        PAYMENTS := StoredResource("payments", Some(PRODUCTION)),
        PAYMENTS_0 := StoredResource("payments/0", Some(PAYMENTS)),
        MODEL_0 := StoredResource("0", Some(PRODUCTION)),
        PAYMENTS_MACHINE := StoredResource("payments-machine", Some(PAYMENTS)),
        AWS_PRODUCTION := StoredResource("aws-production", Some(CONTROLLER))]
  }

  function BuiltIn(name: string, permissions: set<Permission>): Role {
    Role(name, "", permissions, 1, true)
  }

  function SeedRoles(): map<string, Role> {
    map["controller-superuser" := BuiltIn("controller-superuser", Elements(PERMISSIONS)),
        "application-observer" := BuiltIn("application-observer", {ApplicationRead, UnitRead, MachineRead}),
        "application-config-editor" := BuiltIn("application-config-editor", {ApplicationRead, ApplicationConfigRead, ApplicationConfigWrite}),
        "ssh-operator" := BuiltIn("ssh-operator", {UnitRead, UnitSsh, MachineRead, MachineSsh})]
    ["model-reader" := BuiltIn("model-reader", ReaderPermissions())]
    ["model-writer" := BuiltIn("model-writer", WriterPermissions())]
    ["model-admin" := BuiltIn("model-admin", AdminPermissions())]
  }

  const BOOTSTRAP := Binding("bootstrap-admin", UserPrincipal("admin"), "controller-superuser", CONTROLLER, Selector(Scope, None), true)

  function SeedMetadata(): Metadata {
    Metadata(map["admin" := "admin"], map[], {}, SeedRoles(), map["bootstrap-admin" := BOOTSTRAP], SeedResources(), [])
  }

  function SeedSystem(): System {
    System(SeedMetadata(), {}, {})
  }

  lemma SeedHierarchy()
    ensures Hierarchy(SeedResources())
  {
  }

  lemma SeedLegacyRoles()
    ensures LegacyRoles(SeedMetadata())
    ensures "controller-superuser" in SeedRoles()
    ensures SeedRoles()["controller-superuser"].permissions == Elements(PERMISSIONS)
  {
  }

  lemma SeedNamesAreClean()
    ensures Clean("admin") && Clean("bootstrap-admin") && Clean("production") && Clean("payments")
    ensures Clean("payments-0") && Clean("model-0")
  {
  }

  lemma SeedLongNamesAreClean()
    ensures Clean("payments-machine") && Clean("aws-production")
  {
  }

  lemma SeedIdsAreClean()
    ensures CleanIds(SeedMetadata())
  {
    CleanController();
    SeedNamesAreClean();
    SeedLongNamesAreClean();
    hide Clean, SeedRoles;
    assert Targets(BOOTSTRAP) == [CONTROLLER];
    assert CleanBinding(BOOTSTRAP);
  }

  /** The seed is well formed, every seeded binding compiles, and no target is listed twice. */
  lemma SeedIsWellFormed()
    ensures WellFormed(SeedMetadata())
    ensures AllCompile(SeedMetadata()) && Recordable(SeedMetadata())
  {
    SeedHierarchy();
    SeedLegacyRoles();
    SeedIdsAreClean();
    hide Hierarchy, LegacyRoles, CleanIds, SeedRoles, SeedResources;
    assert References(SeedMetadata());
    assert Selectors(SeedMetadata());
    assert Legacy(SeedMetadata());
  }
}
